/** What settling a base means, told from the arrivals it holds: which contents are accepted, what each
    provider is credited with, and what enters the rings and the settled keys. */
module SettleMeaning {
  import opened Common
  import opened Model
  import opened Windows
  import opened Cohorts
  import opened SettleLaws
  import opened Effects
  import Admission
  import Bounds
  import OrderIndependence

  // ---------- the arrivals ----------

  /** An active provider delivered the content less than the cohort timeout after the base was first
      seen. */
  predicate InTime(cfg: Config, pb: PendingBase, c: ContentKey, p: Provider) {
    && c in pb.candidates && cfg.Active(p) && p in pb.candidates[c].arrivals
    && Since(pb.candidates[c].arrivals[p].received, pb.first) < cfg.cohortTimeout
  }

  predicate TooLate(cfg: Config, pb: PendingBase, c: ContentKey, p: Provider) {
    && c in pb.candidates && cfg.Active(p) && p in pb.candidates[c].arrivals
    && Since(pb.candidates[c].arrivals[p].received, pb.first) >= cfg.cohortTimeout
  }

  /** The content counts: the reference delivered it in time or, where any arrival will do, anyone did. */
  predicate Accepted(cfg: Config, pb: PendingBase, c: ContentKey) {
    if cfg.CanonicalByAnyArrival() then exists p: Provider :: InTime(cfg, pb, c, p)
    else InTime(cfg, pb, c, cfg.Reference())
  }

  /** Every active provider delivered it in time. */
  predicate ByAll(cfg: Config, pb: PendingBase, c: ContentKey) {
    forall p: Provider :: cfg.Active(p) ==> InTime(cfg, pb, c, p)
  }

  /** The provider delivered, in time, something that does not count. */
  ghost predicate Strayed(cfg: Config, pb: PendingBase, p: Provider) {
    exists d <- pb.candidates :: !Accepted(cfg, pb, d) && InTime(cfg, pb, d, p)
  }

  lemma KeptIff(cfg: Config, pb: PendingBase, c: ContentKey, p: Provider)
    requires c in pb.candidates
    ensures cfg.Active(p) && p in OnTime(cfg, pb, c) <==> InTime(cfg, pb, c, p)
    ensures p in LateBy(cfg, pb, c) <==> TooLate(cfg, pb, c, p)
    ensures InTime(cfg, pb, c, p) ==> OnTime(cfg, pb, c)[p] == pb.candidates[c].arrivals[p]
  {
    hide Config.Active;
  }

  lemma AcceptedIff(cfg: Config, pb: PendingBase, c: ContentKey)
    requires c in pb.candidates
    ensures Canonical(cfg, pb, c) <==> Accepted(cfg, pb, c)
    ensures Complete(cfg, OnTime(cfg, pb, c)) <==> ByAll(cfg, pb, c)
  {
    hide Config.Active, Config.Reference, Config.CanonicalByAnyArrival, OnTime, InTime;
    ConfigIsSound(cfg);
    KeptIff(cfg, pb, c, cfg.Reference());
    forall p: Provider
      ensures cfg.Active(p) && p in OnTime(cfg, pb, c) <==> InTime(cfg, pb, c, p)
    {
      KeptIff(cfg, pb, c, p);
    }
  }

  lemma StrayIff(cfg: Config, pb: PendingBase, p: Provider)
    ensures p in Strays(cfg, pb) <==> Strayed(cfg, pb, p)
  {
    hide Config.Active, OnTime, InTime, Canonical, Accepted;
    forall c <- pb.candidates
      ensures Canonical(cfg, pb, c) <==> Accepted(cfg, pb, c)
      ensures cfg.Active(p) && p in OnTime(cfg, pb, c) <==> InTime(cfg, pb, c, p)
    {
      AcceptedIff(cfg, pb, c);
      KeptIff(cfg, pb, c, p);
    }
  }

  // ---------- the counters ----------

  ghost function MatchedBy(cfg: Config, pb: PendingBase, p: Provider): set<ContentKey> {
    set c | c in pb.candidates && Accepted(cfg, pb, c) && InTime(cfg, pb, c, p)
  }

  ghost function MissedBy(cfg: Config, pb: PendingBase, p: Provider): set<ContentKey> {
    set c | c in pb.candidates && Accepted(cfg, pb, c) && cfg.Active(p) && !InTime(cfg, pb, c, p)
  }

  ghost function OrphanedBy(cfg: Config, pb: PendingBase, p: Provider): set<ContentKey> {
    set c | c in pb.candidates && !Accepted(cfg, pb, c) && InTime(cfg, pb, c, p)
  }

  ghost function TooLateBy(cfg: Config, pb: PendingBase, p: Provider): set<ContentKey> {
    set c | c in pb.candidates && TooLate(cfg, pb, c, p)
  }

  ghost function Only(order: seq<ContentKey>, s: set<ContentKey>): set<ContentKey> {
    set c | c in order && c in s
  }

  lemma OnlyMore(order: seq<ContentKey>, s: set<ContentKey>)
    requires order != [] && Distinct(order)
    ensures var n := |order| - 1; |Only(order, s)| == |Only(order[..n], s)| + Bit(order[n] in s)
  {
    var n := |order| - 1;
    var more: set<ContentKey> := if order[n] in s then {order[n]} else {};
    assert order == order[..n] + [order[n]];
    assert Only(order, s) == Only(order[..n], s) + more;
  }

  lemma OnlyAll(pb: PendingBase, order: seq<ContentKey>, s: set<ContentKey>)
    requires Enumerates(order, pb) && s <= pb.candidates.Keys
    ensures Only(order, s) == s
  {
  }

  lemma OneContent(cfg: Config, pb: PendingBase, s: set<Provider>, c: ContentKey, p: Provider)
    requires c in pb.candidates
    ensures Share(cfg, pb, s, ClearLate, c)[p] == Tally(0, 0, 0, 0, 0, Bit(c in TooLateBy(cfg, pb, p)), 0, 0, 0, 0)
    ensures Share(cfg, pb, s, CountOrphans, c)[p] == Tally(0, 0, 0, 0, 0, 0, Bit(c in OrphanedBy(cfg, pb, p)), 0, 0, 0)
    ensures var missed := Bit(c in MissedBy(cfg, pb, p));
            Share(cfg, pb, s, Finalize, c)[p]
            == Tally(0, Bit(c in MatchedBy(cfg, pb, p)), missed, if p in s then missed else 0, 0, 0, 0, 0, 0, 0)
  {
    hide Share, InTime, TooLate, Accepted, Canonical, OnTime, LateBy, Config.Active;
    LateShare(cfg, pb, s, c, p);
    OrphanShare(cfg, pb, s, c, p);
    MatchShare(cfg, pb, s, c, p);
    KeptIff(cfg, pb, c, p);
    AcceptedIff(cfg, pb, c);
  }

  lemma NoneListed(cfg: Config, pb: PendingBase, s: set<Provider>, p: Provider, cs: set<ContentKey>)
    ensures |Only([], cs)| == 0
    ensures forall phase :: Shares(cfg, pb, s, phase, [])[p] == ZERO
  {
    assert Only([], cs) == {};
  }

  lemma InitListed(pb: PendingBase, order: seq<ContentKey>)
    requires Among(order, pb) && Distinct(order) && order != []
    ensures var n := |order| - 1; Among(order[..n], pb) && Distinct(order[..n]) && order[n] in pb.candidates
  {
  }

  lemma SharesMore(cfg: Config, pb: PendingBase, s: set<Provider>, phase: Phase, order: seq<ContentKey>, p: Provider)
    requires Among(order, pb) && order != []
    ensures var n := |order| - 1;
            Shares(cfg, pb, s, phase, order)[p]
            == Shares(cfg, pb, s, phase, order[..n])[p].Plus(Share(cfg, pb, s, phase, order[n])[p])
  {
    hide Share, Tally.Plus;
  }

  lemma PlusLate(a: nat, b: nat)
    ensures Tally(0, 0, 0, 0, 0, a, 0, 0, 0, 0).Plus(Tally(0, 0, 0, 0, 0, b, 0, 0, 0, 0))
            == Tally(0, 0, 0, 0, 0, a + b, 0, 0, 0, 0)
  {
  }

  lemma PlusOrphan(a: nat, b: nat)
    ensures Tally(0, 0, 0, 0, 0, 0, a, 0, 0, 0).Plus(Tally(0, 0, 0, 0, 0, 0, b, 0, 0, 0))
            == Tally(0, 0, 0, 0, 0, 0, a + b, 0, 0, 0)
  {
  }

  lemma {:induction false} LateCount(cfg: Config, pb: PendingBase, s: set<Provider>, order: seq<ContentKey>,
                                     p: Provider)
    requires Among(order, pb) && Distinct(order)
    ensures Shares(cfg, pb, s, ClearLate, order)[p]
            == Tally(0, 0, 0, 0, 0, |Only(order, TooLateBy(cfg, pb, p))|, 0, 0, 0, 0)
    decreases |order|
  {
    hide Share, Shares, Only, TooLateBy, OrphanedBy, MissedBy, MatchedBy, Distinct, Tally.Plus;
    if order == [] {
      NoneListed(cfg, pb, s, p, TooLateBy(cfg, pb, p));
    } else {
      hide Among;
      InitListed(pb, order);
      var n := |order| - 1;
      LateCount(cfg, pb, s, order[..n], p);
      PlusLate(|Only(order[..n], TooLateBy(cfg, pb, p))|, Bit(order[n] in TooLateBy(cfg, pb, p)));
      OneContent(cfg, pb, s, order[n], p);
      SharesMore(cfg, pb, s, ClearLate, order, p);
      OnlyMore(order, TooLateBy(cfg, pb, p));
    }
  }

  lemma {:induction false} OrphanCount(cfg: Config, pb: PendingBase, s: set<Provider>, order: seq<ContentKey>,
                                       p: Provider)
    requires Among(order, pb) && Distinct(order)
    ensures Shares(cfg, pb, s, CountOrphans, order)[p]
            == Tally(0, 0, 0, 0, 0, 0, |Only(order, OrphanedBy(cfg, pb, p))|, 0, 0, 0)
    decreases |order|
  {
    hide Share, Shares, Only, TooLateBy, OrphanedBy, MissedBy, MatchedBy, Distinct, Tally.Plus;
    if order == [] {
      NoneListed(cfg, pb, s, p, OrphanedBy(cfg, pb, p));
    } else {
      hide Among;
      InitListed(pb, order);
      var n := |order| - 1;
      OrphanCount(cfg, pb, s, order[..n], p);
      PlusOrphan(|Only(order[..n], OrphanedBy(cfg, pb, p))|, Bit(order[n] in OrphanedBy(cfg, pb, p)));
      OneContent(cfg, pb, s, order[n], p);
      SharesMore(cfg, pb, s, CountOrphans, order, p);
      OnlyMore(order, OrphanedBy(cfg, pb, p));
    }
  }

  lemma {:induction false} FinalCount(cfg: Config, pb: PendingBase, s: set<Provider>, order: seq<ContentKey>,
                                      p: Provider)
    requires Among(order, pb) && Distinct(order)
    ensures var missed := |Only(order, MissedBy(cfg, pb, p))|;
            Shares(cfg, pb, s, Finalize, order)[p]
            == Tally(0, |Only(order, MatchedBy(cfg, pb, p))|, missed, if p in s then missed else 0, 0, 0, 0, 0, 0, 0)
    decreases |order|
  {
    hide Share, Shares, Only, TooLateBy, OrphanedBy, MissedBy, MatchedBy, Distinct;
    if order == [] {
      NoneListed(cfg, pb, s, p, MatchedBy(cfg, pb, p));
      NoneListed(cfg, pb, s, p, MissedBy(cfg, pb, p));
    } else {
      hide Among;
      InitListed(pb, order);
      var n := |order| - 1;
      FinalCount(cfg, pb, s, order[..n], p);
      OneContent(cfg, pb, s, order[n], p);
      SharesMore(cfg, pb, s, Finalize, order, p);
      OnlyMore(order, MatchedBy(cfg, pb, p));
      OnlyMore(order, MissedBy(cfg, pb, p));
    }
  }

  /** What a settle adds to one provider's counters. */
  ghost function Credits(cfg: Config, pb: PendingBase, p: Provider): Tally {
    var missed := |MissedBy(cfg, pb, p)|;
    Tally(0, |MatchedBy(cfg, pb, p)|, missed, if Strayed(cfg, pb, p) then missed else 0, 0,
          |TooLateBy(cfg, pb, p)|, |OrphanedBy(cfg, pb, p)|, 0, 0, 0)
  }

  /** Settling a base credits each provider of its coin with exactly: a match for every accepted content
      it delivered in time, a missing one for every other, which is also a mismatch when it delivered
      something else in time, an orphan for everything it delivered in time that does not count, and a
      late one for everything it delivered too late. */
  lemma SettleCredits(cfg: Config, b: Bench, key: BaseKey, now: Time, evicted: bool, ch: Choice, at: Coin, p: Provider)
    requires Usable(b, key, ch)
    ensures BoardOf(Settle(cfg, b, key, now, evicted, ch).counters, at)[p]
            == if at == key.coin then BoardOf(b.counters, at)[p].Plus(Credits(cfg, b.pending[key], p))
               else BoardOf(b.counters, at)[p]
  {
    hide SettleRings, SealBase, BoardOf, CreditBoard, Shares, Strays, Strayed, Tally.Plus, Distinct, TooLateBy,
      MatchedBy, MissedBy, OrphanedBy;
    var pb := b.pending[key];
    var s := Strays(cfg, pb);
    var l, o, f := Shares(cfg, pb, s, ClearLate, ch.order), Shares(cfg, pb, s, CountOrphans, ch.order),
                   Shares(cfg, pb, s, Finalize, ch.order);
    var c1 := CreditBoard(b.counters, key.coin, l);
    var c2 := CreditBoard(c1, key.coin, o);
    CreditBoardAt(b.counters, key.coin, l, at, p);
    CreditBoardAt(c1, key.coin, o, at, p);
    CreditBoardAt(c2, key.coin, f, at, p);
    LateCount(cfg, pb, s, ch.order, p);
    OrphanCount(cfg, pb, s, ch.order, p);
    FinalCount(cfg, pb, s, ch.order, p);
    AllListed(cfg, pb, ch.order, p);
    StrayIff(cfg, pb, p);
    ThreeTallies(BoardOf(b.counters, at)[p], |TooLateBy(cfg, pb, p)|, |OrphanedBy(cfg, pb, p)|, |MatchedBy(cfg, pb, p)|,
                 |MissedBy(cfg, pb, p)|, if p in s then |MissedBy(cfg, pb, p)| else 0);
  }

  lemma AllListed(cfg: Config, pb: PendingBase, order: seq<ContentKey>, p: Provider)
    requires Enumerates(order, pb)
    ensures Only(order, TooLateBy(cfg, pb, p)) == TooLateBy(cfg, pb, p)
    ensures Only(order, OrphanedBy(cfg, pb, p)) == OrphanedBy(cfg, pb, p)
    ensures Only(order, MatchedBy(cfg, pb, p)) == MatchedBy(cfg, pb, p)
    ensures Only(order, MissedBy(cfg, pb, p)) == MissedBy(cfg, pb, p)
  {
    hide Enumerates, InTime, TooLate, Accepted, Only;
    OnlyAll(pb, order, TooLateBy(cfg, pb, p));
    OnlyAll(pb, order, OrphanedBy(cfg, pb, p));
    OnlyAll(pb, order, MatchedBy(cfg, pb, p));
    OnlyAll(pb, order, MissedBy(cfg, pb, p));
  }

  lemma ThreeTallies(t: Tally, late: nat, orphaned: nat, matched: nat, missing: nat, mismatch: nat)
    ensures t.Plus(Tally(0, 0, 0, 0, 0, late, 0, 0, 0, 0)).Plus(Tally(0, 0, 0, 0, 0, 0, orphaned, 0, 0, 0))
            .Plus(Tally(0, matched, missing, mismatch, 0, 0, 0, 0, 0, 0))
            == t.Plus(Tally(0, matched, missing, mismatch, 0, late, orphaned, 0, 0, 0))
  {
  }

  // ---------- the rings ----------

  /** `at` is the latest receipt of an active provider. */
  predicate IsLatest(cfg: Config, pb: PendingBase, c: ContentKey, at: Time)
    requires c in pb.candidates && ByAll(cfg, pb, c)
  {
    var a := pb.candidates[c].arrivals;
    && (forall p: Provider :: cfg.Active(p) ==> a[p].received <= at)
    && exists p: Provider :: cfg.Active(p) && a[p].received == at
  }

  /** The cohort that an accepted content every active provider delivered in time commits: stamped with
      the latest receipt, each latency the receipt's wall time less the event's time. */
  predicate IsCohortOf(cfg: Config, base: BaseKey, pb: PendingBase, c: ContentKey, x: Stamped<Cohort>) {
    && c in pb.candidates && Accepted(cfg, pb, c) && ByAll(cfg, pb, c)
    && x.it.key == EventKey(base.coin, base.eventMs, c) && x.it.eventMs == base.eventMs
    && x.it.serial == 0 && !x.it.reported
    && IsLatest(cfg, pb, c, x.at)
    && x.it.commitDelay == Since(x.at, pb.candidates[c].first)
    && forall p: Provider :: x.it.latency[p] == LatencyOf(cfg, base, pb, c, p)
  }

  function LatencyOf(cfg: Config, base: BaseKey, pb: PendingBase, c: ContentKey, p: Provider): nat
    requires c in pb.candidates && ByAll(cfg, pb, c)
  {
    if cfg.Active(p) then Since(pb.candidates[c].arrivals[p].wall, base.eventMs) else 0
  }

  /** The coverage entry of an accepted content: who delivered it in time, and who delivered something
      else instead. */
  ghost predicate IsCoverageOf(cfg: Config, base: BaseKey, pb: PendingBase, now: Time, c: ContentKey,
                               x: Stamped<Coverage>)
  {
    && c in pb.candidates && Accepted(cfg, pb, c)
    && x.it.key == EventKey(base.coin, base.eventMs, c)
    && (if ByAll(cfg, pb, c) then IsLatest(cfg, pb, c, x.at) else x.at == now)
    && forall p: Provider :: p in x.it.outcomes && x.it.outcomes[p] == Outcome(cfg, pb, c, p)
  }

  ghost function Outcome(cfg: Config, pb: PendingBase, c: ContentKey, p: Provider): CoverageOutcome {
    if InTime(cfg, pb, c, p) then Matched
    else if cfg.Active(p) && Strayed(cfg, pb, p) then Mismatch
    else Missing
  }

  lemma LatestOnce(cfg: Config, pb: PendingBase, c: ContentKey, a: Time, b: Time)
    requires c in pb.candidates && ByAll(cfg, pb, c) && IsLatest(cfg, pb, c, a) && IsLatest(cfg, pb, c, b)
    ensures a == b
  {
    hide Config.Active, InTime;
  }

  lemma SettledLatest(cfg: Config, pb: PendingBase, c: ContentKey, now: Time)
    requires c in pb.candidates && ByAll(cfg, pb, c)
    ensures IsLatest(cfg, pb, c, SettledAt(cfg, OnTime(cfg, pb, c), now))
  {
    hide OnTime, Config.Providers;
    ConfigIsSound(cfg);
    AcceptedIff(cfg, pb, c);
    var kept := OnTime(cfg, pb, c);
    forall p: Provider
      ensures cfg.Active(p) ==> p in kept && kept[p] == pb.candidates[c].arrivals[p]
    {
      KeptIff(cfg, pb, c, p);
    }
    assert forall p: Provider :: p in cfg.Providers() <==> cfg.Active(p);
    var t := Latest(kept, cfg.Providers());
    var q: Provider :| q in cfg.Providers() && kept[q].received == t;
    assert cfg.Active(q);
  }

  lemma LatenciesAre(cfg: Config, base: BaseKey, pb: PendingBase, c: ContentKey, p: Provider)
    requires c in pb.candidates && ByAll(cfg, pb, c)
    ensures LatenciesOf(cfg, KeyOf(base, c), OnTime(cfg, pb, c))[p] == LatencyOf(cfg, base, pb, c, p)
  {
    hide OnTime, InTime, Config.Active;
    KeptIff(cfg, pb, c, p);
  }

  lemma CohortMeans(cfg: Config, base: BaseKey, pb: PendingBase, c: ContentKey, now: Time)
    requires c in pb.candidates && Accepted(cfg, pb, c) && ByAll(cfg, pb, c)
    ensures IsCohortOf(cfg, base, pb, c,
                       CohortOf(cfg, KeyOf(base, c), pb.candidates[c].first, OnTime(cfg, pb, c), now))
  {
    hide OnTime, InTime, Accepted, ByAll, IsLatest, SettledAt, LatenciesOf, LatencyOf;
    SettledLatest(cfg, pb, c, now);
    forall p: Provider
      ensures LatenciesOf(cfg, KeyOf(base, c), OnTime(cfg, pb, c))[p] == LatencyOf(cfg, base, pb, c, p)
    {
      LatenciesAre(cfg, base, pb, c, p);
    }
  }

  lemma CohortOnce(cfg: Config, base: BaseKey, pb: PendingBase, c: ContentKey, x: Stamped<Cohort>, y: Stamped<Cohort>)
    requires IsCohortOf(cfg, base, pb, c, x) && IsCohortOf(cfg, base, pb, c, y)
    ensures x == y
  {
    hide InTime, Accepted, ByAll, IsLatest, LatencyOf;
    LatestOnce(cfg, pb, c, x.at, y.at);
    assert x.it.latency == y.it.latency by {
      forall p: Provider
        ensures x.it.latency[p] == y.it.latency[p]
      {
      }
    }
  }

  /** What one content adds to the cohort ring. */
  lemma OneCohort(cfg: Config, base: BaseKey, pb: PendingBase, now: Time, p: Provider, c: ContentKey,
                  x: Stamped<Cohort>)
    requires c in pb.candidates
    ensures ContentEffect(cfg, base, pb, Strays(cfg, pb), now, p, c).cohorts[x]
            == Bit(IsCohortOf(cfg, base, pb, c, x))
  {
    hide OnTime, Accepted, ByAll, Share, Strays, CohortOf, CoverageAt, Canonical, Complete, IsLatest, LatencyOf,
      Tally.Plus;
    AcceptedIff(cfg, pb, c);
    if Accepted(cfg, pb, c) && ByAll(cfg, pb, c) {
      var y := CohortOf(cfg, KeyOf(base, c), pb.candidates[c].first, OnTime(cfg, pb, c), now);
      CohortMeans(cfg, base, pb, c, now);
      if IsCohortOf(cfg, base, pb, c, x) {
        CohortOnce(cfg, base, pb, c, x, y);
      }
    }
  }

  lemma {:induction false} CohortsOf(cfg: Config, base: BaseKey, pb: PendingBase, now: Time, p: Provider,
                                     order: seq<ContentKey>, x: Stamped<Cohort>)
    requires Among(order, pb) && Distinct(order)
    ensures var c := x.it.key.content;
            OrderEffect(cfg, base, pb, now, p, order).cohorts[x]
            == Bit(c in order && IsCohortOf(cfg, base, pb, c, x))
    decreases |order|
  {
    hide ContentEffect, Strays, IsCohortOf, Tally.Plus;
    if order != [] {
      var n := |order| - 1;
      CohortsOf(cfg, base, pb, now, p, order[..n], x);
      OneCohort(cfg, base, pb, now, p, order[n], x);
      OnlyItsContent(cfg, base, pb, order[n], x);
      assert order == order[..n] + [order[n]];
    }
  }

  lemma OnlyItsContent(cfg: Config, base: BaseKey, pb: PendingBase, c: ContentKey, x: Stamped<Cohort>)
    ensures IsCohortOf(cfg, base, pb, c, x) ==> c == x.it.key.content && c in pb.candidates
  {
  }

  /** Settling a base commits exactly one cohort for each accepted content that every active provider
      delivered in time, and no other: without cap pressure the ring gains just these. */
  lemma SettleCommits(cfg: Config, b: Bench, key: BaseKey, now: Time, ch: Choice, at: Coin, x: Stamped<Cohort>)
    requires Roomy(cfg, b) && Admission.WellFormed(cfg, b) && Usable(b, key, ch)
    ensures Contents(WindowOf(Settle(cfg, b, key, now, false, ch).windows, at).cohorts)[x]
            == Contents(WindowOf(b.windows, at).cohorts)[x]
               + Bit(at == key.coin && IsCohortOf(cfg, key, b.pending[key], x.it.key.content, x))
  {
    hide Roomy, Admission.WellFormed, OrderEffect, Settle, WindowOf, BoardOf, Contents, BaseEffect, IsCohortOf,
      Tally.Plus, Distinct;
    OrderIndependence.SettleView(cfg, b, key, now, ch, at, 0);
    if at == key.coin {
      BaseEffectOf(cfg, key, b.pending[key], now, 0, ch.order);
      CohortsOf(cfg, key, b.pending[key], now, 0, ch.order, x);
      OnlyItsContent(cfg, key, b.pending[key], x.it.key.content, x);
    } else {
      OrderIndependence.ElsewhereNothing(cfg, key, b.pending[key], now, at, 0);
    }
  }

  lemma CoverageMeans(cfg: Config, base: BaseKey, pb: PendingBase, c: ContentKey, now: Time)
    requires c in pb.candidates && Accepted(cfg, pb, c)
    ensures IsCoverageOf(cfg, base, pb, now, c,
                         CoverageAt(cfg, KeyOf(base, c), OnTime(cfg, pb, c), Strays(cfg, pb), now))
  {
    hide OnTime, InTime, Accepted, ByAll, IsLatest, Strays, Strayed, Complete, Latest, Config.Active;
    AcceptedIff(cfg, pb, c);
    if ByAll(cfg, pb, c) {
      SettledLatest(cfg, pb, c, now);
    }
    forall p: Provider
      ensures OutcomeOf(cfg, OnTime(cfg, pb, c), Strays(cfg, pb), p) == Outcome(cfg, pb, c, p)
    {
      KeptIff(cfg, pb, c, p);
      StrayIff(cfg, pb, p);
      NotActiveNotInTime(cfg, pb, c, p);
    }
  }

  lemma NotActiveNotInTime(cfg: Config, pb: PendingBase, c: ContentKey, p: Provider)
    ensures InTime(cfg, pb, c, p) ==> cfg.Active(p)
  {
  }

  lemma CoverageOnce(cfg: Config, base: BaseKey, pb: PendingBase, now: Time, c: ContentKey, x: Stamped<Coverage>,
                     y: Stamped<Coverage>)
    requires IsCoverageOf(cfg, base, pb, now, c, x) && IsCoverageOf(cfg, base, pb, now, c, y)
    ensures x == y
  {
    hide InTime, Accepted, ByAll, IsLatest, Outcome;
    if ByAll(cfg, pb, c) {
      LatestOnce(cfg, pb, c, x.at, y.at);
    }
    assert x.it.outcomes == y.it.outcomes;
  }

  /** What one content adds to the coverage ring. */
  lemma OneCoverage(cfg: Config, base: BaseKey, pb: PendingBase, now: Time, p: Provider, c: ContentKey,
                    x: Stamped<Coverage>)
    requires c in pb.candidates
    ensures ContentEffect(cfg, base, pb, Strays(cfg, pb), now, p, c).coverage[x]
            == Bit(IsCoverageOf(cfg, base, pb, now, c, x))
  {
    hide OnTime, Accepted, ByAll, Share, Strays, CohortOf, CoverageAt, Canonical, Complete, IsLatest, Outcome,
      Tally.Plus;
    AcceptedIff(cfg, pb, c);
    if Accepted(cfg, pb, c) {
      var y := CoverageAt(cfg, KeyOf(base, c), OnTime(cfg, pb, c), Strays(cfg, pb), now);
      CoverageMeans(cfg, base, pb, c, now);
      if IsCoverageOf(cfg, base, pb, now, c, x) {
        CoverageOnce(cfg, base, pb, now, c, x, y);
      }
    }
  }

  lemma CoverageItsContent(cfg: Config, base: BaseKey, pb: PendingBase, now: Time, c: ContentKey, x: Stamped<Coverage>)
    ensures IsCoverageOf(cfg, base, pb, now, c, x) ==> c == x.it.key.content && c in pb.candidates
  {
  }

  lemma {:induction false} CoveragesOf(cfg: Config, base: BaseKey, pb: PendingBase, now: Time, p: Provider,
                                       order: seq<ContentKey>, x: Stamped<Coverage>)
    requires Among(order, pb) && Distinct(order)
    ensures var c := x.it.key.content;
            OrderEffect(cfg, base, pb, now, p, order).coverage[x]
            == Bit(c in order && IsCoverageOf(cfg, base, pb, now, c, x))
    decreases |order|
  {
    hide ContentEffect, Strays, IsCoverageOf, Tally.Plus;
    if order != [] {
      var n := |order| - 1;
      CoveragesOf(cfg, base, pb, now, p, order[..n], x);
      OneCoverage(cfg, base, pb, now, p, order[n], x);
      CoverageItsContent(cfg, base, pb, now, order[n], x);
      assert order == order[..n] + [order[n]];
    }
  }

  /** And exactly one coverage entry for each accepted content, with every provider's outcome. */
  lemma SettleCovers(cfg: Config, b: Bench, key: BaseKey, now: Time, ch: Choice, at: Coin, x: Stamped<Coverage>)
    requires Roomy(cfg, b) && Admission.WellFormed(cfg, b) && Usable(b, key, ch)
    ensures multiset(WindowOf(Settle(cfg, b, key, now, false, ch).windows, at).coverage)[x]
            == multiset(WindowOf(b.windows, at).coverage)[x]
               + Bit(at == key.coin && IsCoverageOf(cfg, key, b.pending[key], now, x.it.key.content, x))
  {
    hide Roomy, Admission.WellFormed, OrderEffect, Settle, WindowOf, BoardOf, Contents, BaseEffect, IsCoverageOf,
      Tally.Plus, Distinct;
    OrderIndependence.SettleView(cfg, b, key, now, ch, at, 0);
    if at == key.coin {
      BaseEffectOf(cfg, key, b.pending[key], now, 0, ch.order);
      CoveragesOf(cfg, key, b.pending[key], now, 0, ch.order, x);
      CoverageItsContent(cfg, key, b.pending[key], now, x.it.key.content, x);
    } else {
      OrderIndependence.ElsewhereNothing(cfg, key, b.pending[key], now, at, 0);
    }
  }

  // ---------- the settled keys ----------

  /** What is remembered of an accepted content: the providers that delivered it in time. */
  ghost predicate Remembers(cfg: Config, base: BaseKey, pb: PendingBase, k: EventKey, s: Settled) {
    && k == KeyOf(base, k.content) && k.content in pb.candidates && Accepted(cfg, pb, k.content)
    && forall p: Provider :: p in s.matched <==> InTime(cfg, pb, k.content, p)
  }

  lemma FinalRemembers(cfg: Config, base: BaseKey, pb: PendingBase, c: ContentKey, now: Time)
    requires c in pb.candidates && Canonical(cfg, pb, c)
    ensures var kept := OnTime(cfg, pb, c);
            Remembers(cfg, base, pb, KeyOf(base, c), Settled(SettledAt(cfg, kept, now), ActiveIn(cfg, kept)))
  {
    hide OnTime, InTime, Canonical, SettledAt, Accepted, Config.Active;
    AcceptedIff(cfg, pb, c);
    forall p: Provider
      ensures p in ActiveIn(cfg, OnTime(cfg, pb, c)) <==> InTime(cfg, pb, c, p)
    {
      KeptIff(cfg, pb, c, p);
    }
  }

  lemma {:induction false} AllRemember(cfg: Config, r: Rings, base: BaseKey, pb: PendingBase, strays: set<Provider>,
                                       order: seq<ContentKey>, victims: seq<EventKey>, now: Time, k: EventKey)
    requires Among(order, pb) && |victims| == |order|
    ensures var after := FinalizeAll(cfg, r, base, pb, strays, order, victims, now).settled;
            k in after ==> (k in r.settled && after[k] == r.settled[k]) || Remembers(cfg, base, pb, k, after[k])
    ensures var after := FinalizeAll(cfg, r, base, pb, strays, order, victims, now).settled;
            |r.settled| + |order| <= cfg.maxSettled ==>
              && |after| <= |r.settled| + |order|
              && (k in after <==> k in r.settled
                                  || (k == KeyOf(base, k.content) && k.content in order
                                      && Accepted(cfg, pb, k.content)))
    decreases |order|
  {
    hide FinalizeWindow, SettledAt, OnTime, Canonical, Accepted, ActiveIn, Remembers, WindowOf;
    if order != [] {
      var n := |order| - 1;
      var c := order[n];
      AllRemember(cfg, r, base, pb, strays, order[..n], victims[..n], now, k);
      var before := FinalizeAll(cfg, r, base, pb, strays, order[..n], victims[..n], now);
      AcceptedIff(cfg, pb, c);
      assert order == order[..n] + [c];
      if Canonical(cfg, pb, c) {
        FinalRemembers(cfg, base, pb, c, now);
        Bounds.SizeAfterSet(before.settled, KeyOf(base, c),
                            Settled(SettledAt(cfg, OnTime(cfg, pb, c), now), ActiveIn(cfg, OnTime(cfg, pb, c))));
      }
    }
  }

  /** What a settle puts among the settled keys is what its base accepted, with the providers that
      delivered it in time; without cap pressure it puts all of it there and takes nothing away. */
  lemma SettleRemembers(cfg: Config, b: Bench, key: BaseKey, now: Time, evicted: bool, ch: Choice, k: EventKey)
    requires Usable(b, key, ch)
    ensures var after := Settle(cfg, b, key, now, evicted, ch).settled;
            k in after ==> (k in b.settled && after[k] == b.settled[k])
                           || Remembers(cfg, key, b.pending[key], k, after[k])
    ensures var after, pb := Settle(cfg, b, key, now, evicted, ch).settled, b.pending[key];
            |b.settled| + |ch.order| <= cfg.maxSettled ==>
              (k in after <==> k in b.settled
                               || (k == KeyOf(key, k.content) && k.content in pb.candidates
                                   && Accepted(cfg, pb, k.content)))
  {
    hide FinalizeAll, SettleCounters, Strays, Accepted, Remembers, SealBase, BasesFull, BumpEviction;
    var sealed := SealBaseWindows(cfg, b.windows, b.bases, now, ch.baseVictim);
    var marked := if evicted then BumpEviction(sealed, key.coin, now) else sealed;
    AllRemember(cfg, Rings(marked, b.settled), key, b.pending[key], Strays(cfg, b.pending[key]), ch.order, ch.victims,
                now, k);
  }
}
