/** What settling adds to a coin, as a quantity that can be summed in any order. */
module Effects {
  import opened Common
  import opened Model
  import opened Windows
  import opened Cohorts
  import opened SettleLaws
  import opened Conservation
  import opened Admission
  import opened Bounds

  /** One provider's counters and the contents of a coin's two rings. */
  datatype Effect = Effect(tally: Tally, cohorts: multiset<Stamped<Cohort>>, coverage: multiset<Stamped<Coverage>>)
  {
    function Plus(o: Effect): Effect {
      Effect(tally.Plus(o.tally), cohorts + o.cohorts, coverage + o.coverage)
    }
  }

  const NO_EFFECT: Effect := Effect(ZERO, multiset{}, multiset{})

  lemma TallyPlusLaws(a: Tally, b: Tally, c: Tally)
    ensures a.Plus(b) == b.Plus(a)
    ensures a.Plus(b).Plus(c) == a.Plus(b.Plus(c))
  {
  }

  lemma PlusLaws(a: Effect, b: Effect, c: Effect)
    ensures a.Plus(b) == b.Plus(a)
    ensures a.Plus(b).Plus(c) == a.Plus(b.Plus(c))
    ensures a.Plus(NO_EFFECT) == a
  {
    hide Tally.Plus;
    TallyPlusLaws(a.tally, b.tally, c.tally);
    PlusZero(a.tally);
  }

  // ---------- ring contents ----------

  /** A cohort without its serial, which only says how many were committed before it. */
  function Plain(x: Stamped<Cohort>): Stamped<Cohort> {
    x.(it := x.it.(serial := 0))
  }

  function Contents(ring: Ring): multiset<Stamped<Cohort>>
    decreases |ring|
  {
    if ring == [] then multiset{} else Contents(ring[..|ring| - 1]) + multiset{Plain(ring[|ring| - 1])}
  }

  lemma {:induction false} ContentsJoin(a: Ring, b: Ring)
    ensures Contents(a + b) == Contents(a) + Contents(b)
    decreases |b|
  {
    hide Plain;
    if b == [] {
      assert a + b == a;
    } else {
      var n := |b| - 1;
      assert (a + b)[..|a + b| - 1] == a + b[..n];
      ContentsJoin(a, b[..n]);
    }
  }

  lemma ContentsInsert(ring: Ring, x: Stamped<Cohort>)
    ensures Contents(Insert(ring, x)) == Contents(ring) + multiset{Plain(x)}
  {
    hide Plain, Contents;
    var k := Position(ring, x.at);
    ContentsJoin(ring[..k] + [x], ring[k..]);
    ContentsJoin(ring[..k], [x]);
    ContentsJoin(ring[..k], ring[k..]);
    assert ring == ring[..k] + ring[k..];
    OneContent(x);
  }

  lemma OneContent(x: Stamped<Cohort>)
    ensures Contents([x]) == multiset{Plain(x)}
  {
    assert [x][..0] == [];
  }

  /** Pruning by age keeps or drops an entry wherever it stands in the ring. */
  lemma {:induction false} ContentsRetain(ring: Ring, now: Time, window: nat, x: Stamped<Cohort>)
    ensures Contents(Retain(ring, now, window))[x] == if Since(now, x.at) <= window then Contents(ring)[x] else 0
    decreases |ring|
  {
    hide Contents;
    if ring == [] {
      assert Contents(ring) == multiset{} by { NoContents(); }
    } else {
      var head := [ring[0]];
      ContentsRetain(ring[1..], now, window, x);
      ContentsJoin(head, ring[1..]);
      assert ring == head + ring[1..];
      OneContent(ring[0]);
      var tail := Retain(ring[1..], now, window);
      ContentsJoin(head, tail);
      assert [] + tail == tail;
    }
  }

  lemma NoContents()
    ensures Contents([]) == multiset{}
  {
  }

  // ---------- one content ----------

  /** The cohort a complete candidate commits. */
  function CohortOf(cfg: Config, key: EventKey, first: Time, kept: Arrivals, now: Time): Stamped<Cohort> {
    var at := SettledAt(cfg, kept, now);
    Stamped(at, Cohort(key, 0, key.eventMs, LatenciesOf(cfg, key, kept), Since(at, first), false))
  }

  function CoverageAt(cfg: Config, key: EventKey, kept: Arrivals, strays: set<Provider>, now: Time): Stamped<Coverage> {
    Stamped(SettledAt(cfg, kept, now), CoverageOf(cfg, key, kept, strays))
  }

  ghost function ContentEffect(cfg: Config, base: BaseKey, pb: PendingBase, strays: set<Provider>, now: Time,
                               p: Provider, c: ContentKey): Effect
    requires c in pb.candidates
  {
    var tally := Share(cfg, pb, strays, ClearLate, c)[p].Plus(Share(cfg, pb, strays, CountOrphans, c)[p])
                 .Plus(Share(cfg, pb, strays, Finalize, c)[p]);
    if !Canonical(cfg, pb, c) then Effect(tally, multiset{}, multiset{})
    else
      var kept := OnTime(cfg, pb, c);
      Effect(tally,
             if Complete(cfg, kept) then multiset{CohortOf(cfg, KeyOf(base, c), pb.candidates[c].first, kept, now)}
             else multiset{},
             multiset{CoverageAt(cfg, KeyOf(base, c), kept, strays, now)})
  }

  ghost function OrderEffect(cfg: Config, base: BaseKey, pb: PendingBase, now: Time, p: Provider,
                             order: seq<ContentKey>): Effect
    requires Among(order, pb)
    decreases |order|
  {
    if order == [] then NO_EFFECT
    else
      var n := |order| - 1;
      OrderEffect(cfg, base, pb, now, p, order[..n])
      .Plus(ContentEffect(cfg, base, pb, Strays(cfg, pb), now, p, order[n]))
  }

  /** Taking one content out of an order and putting it last changes nothing. */
  lemma {:induction false} OrderEffectMove(cfg: Config, base: BaseKey, pb: PendingBase, now: Time, p: Provider,
                                           order: seq<ContentKey>, i: nat)
    requires Among(order, pb) && i < |order|
    ensures OrderEffect(cfg, base, pb, now, p, order)
            == OrderEffect(cfg, base, pb, now, p, order[..i] + order[i + 1..])
               .Plus(ContentEffect(cfg, base, pb, Strays(cfg, pb), now, p, order[i]))
    decreases |order|
  {
    hide ContentEffect, Strays, Effect.Plus;
    var n := |order| - 1;
    if i == n {
      assert order[..i] + order[i + 1..] == order[..n];
    } else {
      var rest := order[..n];
      OrderEffectMove(cfg, base, pb, now, p, rest, i);
      var a := OrderEffect(cfg, base, pb, now, p, rest[..i] + rest[i + 1..]);
      var x := ContentEffect(cfg, base, pb, Strays(cfg, pb), now, p, order[i]);
      var y := ContentEffect(cfg, base, pb, Strays(cfg, pb), now, p, order[n]);
      var moved := order[..i] + order[i + 1..];
      assert moved[..|moved| - 1] == rest[..i] + rest[i + 1..] && moved[|moved| - 1] == order[n];
      PlusLaws(a, x, y);
      PlusLaws(a, y, x);
      PlusLaws(x, y, a);
    }
  }

  lemma {:induction false} OrderEffectPermutes(cfg: Config, base: BaseKey, pb: PendingBase, now: Time, p: Provider,
                                               xs: seq<ContentKey>, ys: seq<ContentKey>)
    requires Among(xs, pb) && Among(ys, pb) && Distinct(xs) && Distinct(ys)
    requires forall c :: c in xs <==> c in ys
    ensures OrderEffect(cfg, base, pb, now, p, xs) == OrderEffect(cfg, base, pb, now, p, ys)
    decreases |xs|
  {
    hide ContentEffect, Strays, Effect.Plus;
    if xs == [] {
      if ys != [] {
        HasElement(ys);
        assert false;
      }
    } else {
      var n := |xs| - 1;
      assert xs[n] in ys;
      var i :| 0 <= i < |ys| && ys[i] == xs[n];
      OrderEffectMove(cfg, base, pb, now, p, ys, i);
      var rest := ys[..i] + ys[i + 1..];
      SameWithout(xs, ys, i);
      OrderEffectPermutes(cfg, base, pb, now, p, xs[..n], rest);
    }
  }

  lemma HasElement<T(!new)>(ys: seq<T>)
    requires ys != []
    ensures exists c :: c in ys
  {
    assert ys[0] in ys;
  }

  lemma SameWithout<T(!new)>(xs: seq<T>, ys: seq<T>, i: nat)
    requires xs != [] && i < |ys| && ys[i] == xs[|xs| - 1]
    requires Distinct(xs) && Distinct(ys) && forall c :: c in xs <==> c in ys
    ensures var rest := ys[..i] + ys[i + 1..];
            Distinct(rest) && forall c :: c in xs[..|xs| - 1] <==> c in rest
  {
    var n := |xs| - 1;
    var rest := ys[..i] + ys[i + 1..];
    assert forall c :: c in ys <==> c in rest || c == ys[i] by {
      assert ys == ys[..i] + [ys[i]] + ys[i + 1..];
    }
    assert forall c :: c in xs <==> c in xs[..n] || c == xs[n] by {
      assert xs == xs[..n] + [xs[n]];
    }
    assert xs[n] !in xs[..n];
    assert ys[i] !in rest;
  }

  // ---------- one base ----------

  lemma EnumerationExists(pb: PendingBase)
    ensures exists order :: Enumerates(order, pb)
  {
    EnumerationOf(pb, pb.candidates.Keys);
    var order: seq<ContentKey> :| Distinct(order) && Among(order, pb) &&
        forall c :: c in pb.candidates.Keys <==> c in order;
    assert Enumerates(order, pb);
  }

  lemma {:induction false} EnumerationOf(pb: PendingBase, s: set<ContentKey>)
    requires s <= pb.candidates.Keys
    ensures exists order: seq<ContentKey> :: Distinct(order) && Among(order, pb) && forall c :: c in s <==> c in order
    decreases s
  {
    if s == {} {
      var none: seq<ContentKey> := [];
      assert Distinct(none) && Among(none, pb) && forall c :: c in s <==> c in none;
    } else {
      var x :| x in s;
      EnumerationOf(pb, s - {x});
      var order: seq<ContentKey> :| Distinct(order) && Among(order, pb) && forall c :: c in s - {x} <==> c in order;
      assert x !in order;
      var more := order + [x];
      assert Distinct(more) && Among(more, pb) && forall c :: c in s <==> c in more;
    }
  }

  /** What settling a base adds, in whatever order its candidates are visited. */
  ghost function BaseEffect(cfg: Config, base: BaseKey, pb: PendingBase, now: Time, at: Coin, p: Provider): Effect {
    if at != base.coin then NO_EFFECT
    else
      EnumerationExists(pb);
      var order :| Enumerates(order, pb);
      OrderEffect(cfg, base, pb, now, p, order)
  }

  lemma BaseEffectOf(cfg: Config, base: BaseKey, pb: PendingBase, now: Time, p: Provider, order: seq<ContentKey>)
    requires Enumerates(order, pb)
    ensures BaseEffect(cfg, base, pb, now, base.coin, p) == OrderEffect(cfg, base, pb, now, p, order)
  {
    hide OrderEffect;
    EnumerationExists(pb);
    var other :| Enumerates(other, pb) && BaseEffect(cfg, base, pb, now, base.coin, p)
        == OrderEffect(cfg, base, pb, now, p, other);
    OrderEffectPermutes(cfg, base, pb, now, p, order, other);
  }

  // ---------- settling without cap pressure ----------

  /** What the order of processing must not change: one provider's counters for a coin, and what the
      coin's rings hold. */
  ghost function View(b: Bench, at: Coin, p: Provider): Effect {
    WindowView(BoardOf(b.counters, at)[p], WindowOf(b.windows, at))
  }

  ghost function WindowView(t: Tally, w: Window): Effect {
    Effect(t, Contents(w.cohorts), multiset(w.coverage))
  }

  /** The ring has room for `n` more entries. */
  predicate RingRoom(cfg: Config, w: Window, n: nat) {
    |w.cohorts| + n <= cfg.maxRolling && |w.coverage| + n <= cfg.maxRolling && Sorted(w.coverage)
  }

  lemma AdmitWithRoom(ring: Ring, x: Stamped<Cohort>, cap: nat)
    requires |ring| < cap
    ensures Admit(ring, x, cap) == Insert(ring, x) && |Insert(ring, x)| == |ring| + 1
  {
  }

  lemma CoverWithRoom(ring: CoverageRing, x: Stamped<Coverage>, cap: nat)
    requires |ring| < cap && Sorted(ring)
    ensures var r := Admit(ring, x, cap);
            r == Insert(ring, x) && |r| == |ring| + 1 && Sorted(r) && multiset(r) == multiset(ring) + multiset{x}
  {
    InsertKeeps(ring, x);
  }

  lemma FinalizeWindowView(cfg: Config, w: Window, key: EventKey, first: Time, kept: Arrivals, strays: set<Provider>,
                           now: Time, n: nat, t: Tally)
    requires RingRoom(cfg, w, n + 1)
    ensures var v := FinalizeWindow(cfg, w, key, first, kept, strays, now);
            && RingRoom(cfg, v, n)
            && WindowView(t, v)
               == WindowView(t, w).Plus(Effect(ZERO,
                    if Complete(cfg, kept) then multiset{CohortOf(cfg, key, first, kept, now)} else multiset{},
                    multiset{CoverageAt(cfg, key, kept, strays, now)}))
  {
    hide Sorted, Insert, Admit, SettledAt, Complete, LatenciesOf, CoverageOf, Contents, Tally.Plus;
    var at := SettledAt(cfg, kept, now);
    CoverWithRoom(w.coverage, Stamped(at, CoverageOf(cfg, key, kept, strays)), cfg.maxRolling);
    PlusZero(t);
    if Complete(cfg, kept) {
      var x := Stamped(at, Cohort(key, w.complete, key.eventMs, LatenciesOf(cfg, key, kept), Since(at, first), false));
      AdmitWithRoom(w.cohorts, x, cfg.maxRolling);
      ContentsInsert(w.cohorts, x);
    }
  }

  lemma RoomShrinks(cfg: Config, w: Window, n: nat, m: nat)
    requires RingRoom(cfg, w, n) && m <= n
    ensures RingRoom(cfg, w, m)
  {
  }

  lemma FinalizeOneView(cfg: Config, r: Rings, base: BaseKey, pb: PendingBase, c: ContentKey, strays: set<Provider>,
                        now: Time, victim: EventKey, n: nat, p: Provider)
    requires c in pb.candidates && Canonical(cfg, pb, c)
    requires RingRoom(cfg, WindowOf(r.windows, base.coin), n + 1) && |r.settled| < cfg.maxSettled
    ensures var after := FinalizeOne(cfg, r, KeyOf(base, c), pb.candidates[c].first, OnTime(cfg, pb, c), strays, now,
                                     victim);
            && RingRoom(cfg, WindowOf(after.windows, base.coin), n)
            && |after.settled| <= |r.settled| + 1
            && (forall coin :: coin != base.coin ==> WindowOf(after.windows, coin) == WindowOf(r.windows, coin))
            && var x := ContentEffect(cfg, base, pb, strays, now, p, c);
               WindowView(ZERO, WindowOf(after.windows, base.coin))
               == WindowView(ZERO, WindowOf(r.windows, base.coin)).Plus(Effect(ZERO, x.cohorts, x.coverage))
  {
    hide RingRoom, FinalizeWindow, OnTime, SettledAt, Complete, ActiveIn, CohortOf, CoverageAt, WindowView, Canonical,
      Share, Tally.Plus, Effect.Plus;
    FinalizeWindowView(cfg, WindowOf(r.windows, base.coin), KeyOf(base, c), pb.candidates[c].first, OnTime(cfg, pb, c),
                       strays, now, n, ZERO);
    SizeAfterSet(r.settled, KeyOf(base, c),
                 Settled(SettledAt(cfg, OnTime(cfg, pb, c), now), ActiveIn(cfg, OnTime(cfg, pb, c))));
  }

  /** The rings after finalizing `order`. */
  ghost predicate RingsAdded(cfg: Config, r: Rings, after: Rings, coin: Coin, e: Effect, room: nat, settled: nat) {
    && RingRoom(cfg, WindowOf(after.windows, coin), room)
    && |after.settled| <= |r.settled| + settled
    && (forall c :: c != coin ==> WindowOf(after.windows, c) == WindowOf(r.windows, c))
    && WindowView(ZERO, WindowOf(after.windows, coin))
       == WindowView(ZERO, WindowOf(r.windows, coin)).Plus(Effect(ZERO, e.cohorts, e.coverage))
  }

  lemma {:induction false} FinalizeAllView(cfg: Config, r: Rings, base: BaseKey, pb: PendingBase,
                                           order: seq<ContentKey>, victims: seq<EventKey>, now: Time, n: nat,
                                           p: Provider)
    requires Among(order, pb) && |victims| == |order|
    requires RingRoom(cfg, WindowOf(r.windows, base.coin), n + |order|) && |r.settled| + |order| <= cfg.maxSettled
    ensures RingsAdded(cfg, r, FinalizeAll(cfg, r, base, pb, Strays(cfg, pb), order, victims, now), base.coin,
                       OrderEffect(cfg, base, pb, now, p, order), n, |order|)
    decreases |order|
  {
    hide RingRoom, FinalizeOne, WindowView, Strays, ContentEffect, Canonical, OnTime, WindowOf, Effect.Plus;
    var w := WindowOf(r.windows, base.coin);
    if order == [] {
      AddNothing(w);
    } else {
      var m := |order| - 1;
      var c, strays := order[m], Strays(cfg, pb);
      FinalizeAllView(cfg, r, base, pb, order[..m], victims[..m], now, n + 1, p);
      var before := FinalizeAll(cfg, r, base, pb, strays, order[..m], victims[..m], now);
      var e := OrderEffect(cfg, base, pb, now, p, order[..m]);
      var x := ContentEffect(cfg, base, pb, strays, now, p, c);
      RingsPlus(w, e, x);
      if Canonical(cfg, pb, c) {
        FinalizeOneView(cfg, before, base, pb, c, strays, now, victims[m], n, p);
      } else {
        NotCanonical(cfg, base, pb, strays, now, p, c);
        RoomShrinks(cfg, WindowOf(before.windows, base.coin), n + 1, n);
        AddNothing(WindowOf(before.windows, base.coin));
      }
    }
  }

  lemma AddNothing(w: Window)
    ensures WindowView(ZERO, w).Plus(Effect(ZERO, multiset{}, multiset{})) == WindowView(ZERO, w)
    ensures NO_EFFECT.cohorts == multiset{} && NO_EFFECT.coverage == multiset{}
  {
    hide Contents, WindowView, Effect.Plus;
    PlusLaws(WindowView(ZERO, w), NO_EFFECT, NO_EFFECT);
  }

  lemma NotCanonical(cfg: Config, base: BaseKey, pb: PendingBase, strays: set<Provider>, now: Time, p: Provider,
                     c: ContentKey)
    requires c in pb.candidates && !Canonical(cfg, pb, c)
    ensures var x := ContentEffect(cfg, base, pb, strays, now, p, c);
            x.cohorts == multiset{} && x.coverage == multiset{}
  {
    hide Canonical, Share, Tally.Plus;
  }

  lemma RingsPlus(w: Window, e: Effect, x: Effect)
    ensures var sum := e.Plus(x);
            WindowView(ZERO, w).Plus(Effect(ZERO, e.cohorts, e.coverage)).Plus(Effect(ZERO, x.cohorts, x.coverage))
            == WindowView(ZERO, w).Plus(Effect(ZERO, sum.cohorts, sum.coverage))
  {
    hide Contents, Tally.Plus;
    PlusZero(ZERO);
  }

  lemma {:induction false} OrderTally(cfg: Config, base: BaseKey, pb: PendingBase, now: Time, p: Provider,
                                      order: seq<ContentKey>)
    requires Among(order, pb)
    ensures var s := Strays(cfg, pb);
            OrderEffect(cfg, base, pb, now, p, order).tally
            == Shares(cfg, pb, s, ClearLate, order)[p].Plus(Shares(cfg, pb, s, CountOrphans, order)[p])
               .Plus(Shares(cfg, pb, s, Finalize, order)[p])
    decreases |order|
  {
    hide Share, Strays, Canonical, Complete, CohortOf, CoverageAt, Tally.Plus;
    var s := Strays(cfg, pb);
    if order == [] {
      PlusZero(ZERO);
      NoShares(cfg, pb, s, p);
    } else {
      var n := |order| - 1;
      var c, init := order[n], order[..n];
      OrderTally(cfg, base, pb, now, p, init);
      SixTallies(Shares(cfg, pb, s, ClearLate, init)[p], Shares(cfg, pb, s, CountOrphans, init)[p],
                 Shares(cfg, pb, s, Finalize, init)[p], Share(cfg, pb, s, ClearLate, c)[p],
                 Share(cfg, pb, s, CountOrphans, c)[p], Share(cfg, pb, s, Finalize, c)[p]);
    }
  }

  lemma NoShares(cfg: Config, pb: PendingBase, s: set<Provider>, p: Provider)
    ensures forall phase :: Shares(cfg, pb, s, phase, [])[p] == ZERO
  {
  }

  lemma SixTallies(a: Tally, b: Tally, c: Tally, x: Tally, y: Tally, z: Tally)
    ensures a.Plus(b).Plus(c).Plus(x.Plus(y).Plus(z)) == a.Plus(x).Plus(b.Plus(y)).Plus(c.Plus(z))
  {
  }

  // ---------- a whole settle ----------

  /** No cap can be reached by settling everything that is open. */
  ghost predicate Roomy(cfg: Config, b: Bench) {
    && (forall coin :: RingRoom(cfg, WindowOf(b.windows, coin), MAX_SIGNATURES_PER_BASE * |b.pending|))
    && |b.bases| + |b.pending| <= cfg.maxSettled
    && |b.settled| + MAX_SIGNATURES_PER_BASE * |b.pending| <= cfg.maxSettled
  }
}
