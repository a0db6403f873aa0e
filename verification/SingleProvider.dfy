/** With one provider a base is settled by its first event, so there the processing order shows. */
module SingleProvider {
  import opened Common
  import opened Model
  import opened Windows
  import opened Cohorts
  import opened SettleLaws
  import opened Conservation
  import opened Admission
  import opened Bounds
  import opened Effects
  import opened OrderIndependence
  import opened ProcessingOrder

  /** The base is neither open nor sealed, and there is no one to wait for. */
  predicate Alone(cfg: Config, b0: Bench, k: BaseKey) {
    k !in b0.pending && k !in b0.bases && |b0.pending| < cfg.maxPending && |cfg.Providers()| == 1
  }

  /** The cohort that an event commits by itself. */
  function CohortAlone(cfg: Config, e: MarketEvent): Stamped<Cohort> {
    CohortOf(cfg, e.key, e.received, map[e.provider := Obs(e.received, e.wall)], e.received)
  }

  function BaseAlone(e: MarketEvent): PendingBase {
    PendingBase(e.received, map[e.key.content := Candidate(e.received, map[e.provider := Obs(e.received, e.wall)])])
  }

  lemma KeyBack(e: MarketEvent)
    ensures KeyOf(e.key.Base(), e.key.content) == e.key
  {
  }

  lemma OnTimeAlone(cfg: Config, e: MarketEvent)
    requires |cfg.Providers()| == 1 && cfg.Active(e.provider) && cfg.cohortTimeout > 0
    ensures var pb, c := BaseAlone(e), e.key.content;
            && OnTime(cfg, pb, c) == map[e.provider := Obs(e.received, e.wall)]
            && Canonical(cfg, pb, c) && Complete(cfg, OnTime(cfg, pb, c))
  {
    var pb, c := BaseAlone(e), e.key.content;
    assert LateBy(cfg, pb, c) == {};
    assert OnTime(cfg, pb, c) == map[e.provider := Obs(e.received, e.wall)];
    ConfigIsSound(cfg);
    assert cfg.Providers() == [e.provider] && cfg.Reference() == e.provider;
  }

  /** A base that holds one event adds that event's cohort. */
  lemma EffectAlone(cfg: Config, e: MarketEvent, p: Provider)
    requires |cfg.Providers()| == 1 && cfg.Active(e.provider) && cfg.cohortTimeout > 0
    ensures BaseEffect(cfg, e.key.Base(), BaseAlone(e), e.received, e.key.coin, p).cohorts
            == multiset{CohortAlone(cfg, e)}
  {
    hide BaseEffect, OnTime, Canonical, Complete, Share, Strays, CohortOf, CoverageAt, Tally.Plus, Config.Active,
      Config.Providers;
    var k, pb := e.key.Base(), BaseAlone(e);
    var order := [e.key.content];
    assert Enumerates(order, pb);
    OnTimeAlone(cfg, e);
    KeyBack(e);
    BaseEffectOf(cfg, k, pb, e.received, p, order);
    assert order[..0] == [];
    assert OrderEffect(cfg, k, pb, e.received, p, order[..0]) == NO_EFFECT;
  }

  lemma PlacedAlone(cfg: Config, b: Bench, e: MarketEvent)
    requires e.key.Base() !in b.pending
    ensures Placed(b, e) && PlacedBase(b, e) == BaseAlone(e)
  {
  }

  lemma RecordAlone(cfg: Config, b0: Bench, e: MarketEvent, ch: EventChoice)
    requires Alone(cfg, b0, e.key.Base()) && cfg.Active(e.provider) && !Refused(e) && EventUsable(cfg, b0, e, ch)
    ensures var placed := Place(CreditEvent(b0, e, OBSERVED), e);
            Usable(placed, e.key.Base(), ch.single)
            && Record(cfg, b0, e, ch) == Settle(cfg, placed, e.key.Base(), e.received, false, ch.single)
  {
    hide Config.Active, Config.Providers, Refused, Place, Settle, Usable, Oldest, Placed, Credit;
    PlacedAlone(cfg, CreditEvent(b0, e, OBSERVED), e);
  }

  lemma PlacedRoomy(cfg: Config, b0: Bench, e: MarketEvent)
    requires Alone(cfg, b0, e.key.Base()) && cfg.Active(e.provider) && !Refused(e)
    requires RoomForOneMore(cfg, b0) && WellFormed(cfg, b0)
    ensures var placed := Place(CreditEvent(b0, e, OBSERVED), e);
            && Roomy(cfg, placed) && WellFormed(cfg, placed)
            && placed.windows == b0.windows && placed.bases == b0.bases
            && e.key.Base() in placed.pending && placed.pending[e.key.Base()] == BaseAlone(e)
  {
    hide Config.Active, Config.Providers, Refused, WellFormed, Placed, PlacedBase, Credit, RingRoom, Place, WindowOf,
      BaseAlone;
    var seen := CreditEvent(b0, e, OBSERVED);
    PlacedAlone(cfg, seen, e);
    PlacedSame(seen, e);
    CreditWellFormed(cfg, b0, e);
    PlaceWellFormed(cfg, seen, e);
    SizeAfterSet(b0.pending, e.key.Base(), BaseAlone(e));
  }

  /** The first event of a base commits at once and seals it. */
  lemma FirstSettles(cfg: Config, b0: Bench, e: MarketEvent, ch: EventChoice)
    requires Alone(cfg, b0, e.key.Base()) && cfg.Active(e.provider) && !Refused(e) && EventUsable(cfg, b0, e, ch)
    requires RoomForOneMore(cfg, b0) && WellFormed(cfg, b0) && cfg.cohortTimeout > 0
    ensures var after := Record(cfg, b0, e, ch);
            && e.key.Base() in after.bases && e.key.Base() !in after.pending
            && Contents(WindowOf(after.windows, e.key.coin).cohorts)
               == Contents(WindowOf(b0.windows, e.key.coin).cohorts) + multiset{CohortAlone(cfg, e)}
  {
    hide Refused, Config.Active, Config.Providers, EventUsable, RoomForOneMore, WellFormed, Record, Place, CreditEvent,
      Settle, Usable, Roomy, Contents, CohortAlone, BaseAlone, BaseEffect, BoardOf, Tally.Plus;
    RecordAlone(cfg, b0, e, ch);
    PlacedRoomy(cfg, b0, e);
    var placed := Place(CreditEvent(b0, e, OBSERVED), e);
    SettleView(cfg, placed, e.key.Base(), e.received, ch.single, e.key.coin, e.provider);
    EffectAlone(cfg, e, e.provider);
    SettleWellFormed(cfg, placed, e.key.Base(), e.received, false, ch.single);
  }

  /** Every later event of the base only moves a counter. */
  lemma LaterCounts(cfg: Config, b: Bench, e: MarketEvent, ch: EventChoice)
    requires e.key.Base() in b.bases && e.key.Base() !in b.pending && cfg.Active(e.provider) && !Refused(e)
    requires EventUsable(cfg, b, e, ch)
    ensures var after := Record(cfg, b, e, ch);
            after.windows == b.windows && after.bases == b.bases && after.pending == b.pending
  {
    hide Config.Active, Config.Providers, Refused, Place, Settle, Usable, Oldest, Placed, Credit, PendingFull;
  }

  lemma {:induction false} BurstCommitsFirst(cfg: Config, b0: Bench, k: BaseKey, es: seq<MarketEvent>,
                                             states: seq<Bench>, n: nat)
    requires Processes(cfg, b0, es, states) && Burst(cfg, k, Set(es)) && Alone(cfg, b0, k)
    requires RoomForOneMore(cfg, b0) && WellFormed(cfg, b0) && 0 < n <= |es|
    ensures k in states[n].bases && k !in states[n].pending
    ensures Contents(WindowOf(states[n].windows, k.coin).cohorts)
            == Contents(WindowOf(b0.windows, k.coin).cohorts) + multiset{CohortAlone(cfg, es[0])}
    decreases n
  {
    hide Alone, RoomForOneMore, WellFormed, EventUsable, Record, Refused, Config.Active, Contents, CohortAlone,
      WindowOf;
    var e := es[n - 1];
    assert e in Set(es);
    assert Recorded(cfg, states[n - 1], e, states[n]);
    var ch :| EventUsable(cfg, states[n - 1], e, ch) && states[n] == Record(cfg, states[n - 1], e, ch);
    if n == 1 {
      FirstSettles(cfg, b0, e, ch);
    } else {
      BurstCommitsFirst(cfg, b0, k, es, states, n - 1);
      LaterCounts(cfg, states[n - 1], e, ch);
    }
  }

  lemma TwoCohorts(cfg: Config, k: BaseKey, s: set<MarketEvent>, e: MarketEvent, f: MarketEvent)
    requires Burst(cfg, k, s) && e in s && f in s && |cfg.Providers()| == 1
    ensures CohortAlone(cfg, e) == CohortAlone(cfg, f) <==> e == f
  {
    hide Refused, SettledAt, LatenciesOf;
    assert e.provider == cfg.Providers()[0] == f.provider;
  }

  lemma SameSum(a: multiset<Stamped<Cohort>>, x: Stamped<Cohort>, y: Stamped<Cohort>)
    ensures a + multiset{x} == a + multiset{y} <==> x == y
  {
    if x != y {
      assert (a + multiset{x})[x] != (a + multiset{y})[x];
    }
  }

  /** Two processing orders of a burst leave the same cohorts in the ring exactly when they start with
      the same event; so with one provider, and only then, the processing order is visible. */
  lemma OneProviderShowsTheOrder(cfg: Config, b0: Bench, k: BaseKey, es: seq<MarketEvent>, fs: seq<MarketEvent>,
                                 bs: seq<Bench>, cs: seq<Bench>)
    requires Set(es) == Set(fs) && Burst(cfg, k, Set(es)) && es != [] && fs != []
    requires Processes(cfg, b0, es, bs) && Processes(cfg, b0, fs, cs)
    requires Alone(cfg, b0, k) && RoomForOneMore(cfg, b0) && WellFormed(cfg, b0)
    ensures Contents(WindowOf(bs[|es|].windows, k.coin).cohorts) == Contents(WindowOf(cs[|fs|].windows, k.coin).cohorts)
            <==> es[0] == fs[0]
  {
    hide Burst, RoomForOneMore, WellFormed, Recorded, Contents, WindowOf, CohortAlone, Config.Providers;
    BurstCommitsFirst(cfg, b0, k, es, bs, |es|);
    BurstCommitsFirst(cfg, b0, k, fs, cs, |fs|);
    assert es[0] in Set(es) && fs[0] in Set(fs);
    TwoCohorts(cfg, k, Set(es), es[0], fs[0]);
    SameSum(Contents(WindowOf(b0.windows, k.coin).cohorts), CohortAlone(cfg, es[0]), CohortAlone(cfg, fs[0]));
  }
}
