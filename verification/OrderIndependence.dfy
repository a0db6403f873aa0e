/** The order in which events are processed does not change what is published: receipt times alone
    decide. */
module OrderIndependence {
  import opened Common
  import opened Model
  import opened Windows
  import opened Cohorts
  import opened SettleLaws
  import opened Conservation
  import opened Admission
  import opened Bounds
  import opened Effects

  // ---------- one settle ----------

  lemma {:induction false} DistinctLength<T(!new)>(xs: seq<T>, s: set<T>)
    requires Distinct(xs) && forall x :: x in xs ==> x in s
    ensures |xs| <= |s|
    decreases |xs|
  {
    if xs != [] {
      var n := |xs| - 1;
      assert xs[n] in xs && xs[n] !in xs[..n];
      DistinctLength(xs[..n], s - {xs[n]});
    }
  }

  lemma OrderIsShort(cfg: Config, key: BaseKey, pb: PendingBase, order: seq<ContentKey>)
    requires BaseOk(cfg, key, pb) && Enumerates(order, pb)
    ensures |order| <= MAX_SIGNATURES_PER_BASE
  {
    DistinctLength(order, pb.candidates.Keys);
  }

  lemma RoomyFor(cfg: Config, b: Bench, key: BaseKey)
    requires Roomy(cfg, b) && key in b.pending
    ensures !BasesFull(cfg, b.bases)
    ensures |b.pending| >= 1 && |b.settled| + MAX_SIGNATURES_PER_BASE * |b.pending| <= cfg.maxSettled
    ensures forall coin :: RingRoom(cfg, WindowOf(b.windows, coin), MAX_SIGNATURES_PER_BASE * |b.pending|)
  {
    hide RingRoom;
    assert |b.pending| != 0;
  }

  lemma SettledRings(cfg: Config, b: Bench, key: BaseKey, now: Time, ch: Choice, p: Provider)
    requires Roomy(cfg, b) && WellFormed(cfg, b) && Usable(b, key, ch)
    ensures RingsAdded(cfg, Rings(b.windows, b.settled), SettleRings(cfg, b, key, now, false, ch), key.coin,
                       OrderEffect(cfg, key, b.pending[key], now, p, ch.order),
                       MAX_SIGNATURES_PER_BASE * (|b.pending| - 1), |ch.order|)
    ensures |ch.order| <= MAX_SIGNATURES_PER_BASE
  {
    hide *;
    OpenBase(cfg, b, key, ch);
    var pb := b.pending[key];
    RoomyFor(cfg, b, key);
    OrderIsShort(cfg, key, pb, ch.order);
    RoomShrinks(cfg, WindowOf(b.windows, key.coin), MAX_SIGNATURES_PER_BASE * |b.pending|,
                MAX_SIGNATURES_PER_BASE * (|b.pending| - 1) + |ch.order|);
    EnumeratesAmong(ch.order, pb);
    FinalizeAllView(cfg, Rings(b.windows, b.settled), key, pb, ch.order, ch.victims, now,
                    MAX_SIGNATURES_PER_BASE * (|b.pending| - 1), p);
    UnevictedRings(cfg, b, key, now, ch);
  }

  lemma OpenBase(cfg: Config, b: Bench, key: BaseKey, ch: Choice)
    requires WellFormed(cfg, b) && Usable(b, key, ch)
    ensures key in b.pending && BaseOk(cfg, key, b.pending[key])
    ensures Enumerates(ch.order, b.pending[key]) && |ch.victims| == |ch.order|
  {
    hide BaseOk, Enumerates;
  }

  lemma UnevictedRings(cfg: Config, b: Bench, key: BaseKey, now: Time, ch: Choice)
    requires Usable(b, key, ch) && !BasesFull(cfg, b.bases)
    ensures Among(ch.order, b.pending[key])
    ensures SettleRings(cfg, b, key, now, false, ch)
            == FinalizeAll(cfg, Rings(b.windows, b.settled), key, b.pending[key], Strays(cfg, b.pending[key]), ch.order,
                           ch.victims, now)
  {
    hide FinalizeAll, Strays, BasesFull, Distinct;
  }

  lemma SettleRoomy(cfg: Config, b: Bench, key: BaseKey, now: Time, ch: Choice)
    requires Roomy(cfg, b) && WellFormed(cfg, b) && Usable(b, key, ch)
    ensures Roomy(cfg, Settle(cfg, b, key, now, false, ch))
  {
    hide OrderEffect, SettleRings, SettleCounters, BasesFull, BaseOk, RingRoom, WindowView, Enumerates, WindowOf,
      Effect.Plus;
    SettledRings(cfg, b, key, now, ch, 0);
    RoomyFor(cfg, b, key);
    SizeAfterRemove(b.pending, key);
    SizeAfterSet(b.bases, key, now);
    var after := Settle(cfg, b, key, now, false, ch);
    SealedOne(cfg, b, key, now, ch);
    forall coin
      ensures RingRoom(cfg, WindowOf(after.windows, coin), MAX_SIGNATURES_PER_BASE * |after.pending|)
    {
      if coin != key.coin {
        RoomShrinks(cfg, WindowOf(b.windows, coin), MAX_SIGNATURES_PER_BASE * |b.pending|,
                    MAX_SIGNATURES_PER_BASE * |after.pending|);
      }
    }
  }

  lemma SealedOne(cfg: Config, b: Bench, key: BaseKey, now: Time, ch: Choice)
    requires Usable(b, key, ch) && !BasesFull(cfg, b.bases)
    ensures Settle(cfg, b, key, now, false, ch).bases == b.bases[key := now]
  {
    hide SettleRings, SettleCounters, BasesFull, Enumerates;
  }

  /** Without cap pressure, settling a base adds a fixed effect, whatever the iteration order. */
  lemma SettleView(cfg: Config, b: Bench, key: BaseKey, now: Time, ch: Choice, at: Coin, p: Provider)
    requires Roomy(cfg, b) && WellFormed(cfg, b) && Usable(b, key, ch)
    ensures View(Settle(cfg, b, key, now, false, ch), at, p)
            == View(b, at, p).Plus(BaseEffect(cfg, key, b.pending[key], now, at, p))
  {
    hide Roomy, WellFormed, OrderEffect, SettleRings, SettleCounters, SealBase, RingRoom, WindowOf, BoardOf, Contents,
      BaseEffect, Enumerates, Tally.Plus;
    var pb := b.pending[key];
    SettledRings(cfg, b, key, now, ch, p);
    SettleTallyView(cfg, b, key, now, ch, at, p);
    var t := BoardOf(b.counters, at)[p];
    if at == key.coin {
      BaseEffectOf(cfg, key, pb, now, p, ch.order);
      PlusZero(ZERO);
    } else {
      ElsewhereNothing(cfg, key, pb, now, at, p);
      PlusZero(t);
    }
  }

  lemma ElsewhereNothing(cfg: Config, key: BaseKey, pb: PendingBase, now: Time, at: Coin, p: Provider)
    requires at != key.coin
    ensures BaseEffect(cfg, key, pb, now, at, p) == NO_EFFECT
  {
  }

  lemma SettleTallyView(cfg: Config, b: Bench, key: BaseKey, now: Time, ch: Choice, at: Coin, p: Provider)
    requires Usable(b, key, ch)
    ensures BoardOf(Settle(cfg, b, key, now, false, ch).counters, at)[p]
            == if at == key.coin then
                 BoardOf(b.counters, at)[p].Plus(OrderEffect(cfg, key, b.pending[key], now, p, ch.order).tally)
               else BoardOf(b.counters, at)[p]
  {
    hide OrderEffect, SettleRings, SealBase, BoardOf, CreditBoard, Shares, Strays, Tally.Plus, Distinct;
    var pb := b.pending[key];
    var s := Strays(cfg, pb);
    var l, o, f := Shares(cfg, pb, s, ClearLate, ch.order), Shares(cfg, pb, s, CountOrphans, ch.order),
                   Shares(cfg, pb, s, Finalize, ch.order);
    var c1 := CreditBoard(b.counters, key.coin, l);
    var c2 := CreditBoard(c1, key.coin, o);
    CreditBoardAt(b.counters, key.coin, l, at, p);
    CreditBoardAt(c1, key.coin, o, at, p);
    CreditBoardAt(c2, key.coin, f, at, p);
    OrderTally(cfg, key, pb, now, p, ch.order);
    var t := BoardOf(b.counters, at)[p];
    TallyPlusLaws(t, l[p], o[p]);
    TallyPlusLaws(t, l[p].Plus(o[p]), f[p]);
  }

  // ---------- several bases, in any order ----------

  ghost function KeysEffect(cfg: Config, m: Pendings, keys: seq<BaseKey>, now: Time, at: Coin, p: Provider): Effect
    requires forall k <- keys :: k in m
    decreases |keys|
  {
    if keys == [] then NO_EFFECT
    else
      var n := |keys| - 1;
      KeysEffect(cfg, m, keys[..n], now, at, p).Plus(BaseEffect(cfg, keys[n], m[keys[n]], now, at, p))
  }

  lemma {:induction false} KeysEffectMove(cfg: Config, m: Pendings, keys: seq<BaseKey>, now: Time, at: Coin,
                                          p: Provider, i: nat)
    requires (forall k <- keys :: k in m) && i < |keys|
    ensures KeysEffect(cfg, m, keys, now, at, p)
            == KeysEffect(cfg, m, keys[..i] + keys[i + 1..], now, at, p)
               .Plus(BaseEffect(cfg, keys[i], m[keys[i]], now, at, p))
    decreases |keys|
  {
    hide BaseEffect, Effect.Plus;
    var n := |keys| - 1;
    if i == n {
      assert keys[..i] + keys[i + 1..] == keys[..n];
    } else {
      var rest := keys[..n];
      KeysEffectMove(cfg, m, rest, now, at, p, i);
      var a := KeysEffect(cfg, m, rest[..i] + rest[i + 1..], now, at, p);
      var x, y := BaseEffect(cfg, keys[i], m[keys[i]], now, at, p), BaseEffect(cfg, keys[n], m[keys[n]], now, at, p);
      var moved := keys[..i] + keys[i + 1..];
      assert moved[..|moved| - 1] == rest[..i] + rest[i + 1..] && moved[|moved| - 1] == keys[n];
      PlusLaws(a, x, y);
      PlusLaws(a, y, x);
      PlusLaws(x, y, a);
    }
  }

  lemma {:induction false} KeysEffectPermutes(cfg: Config, m: Pendings, xs: seq<BaseKey>, ys: seq<BaseKey>, now: Time,
                                              at: Coin, p: Provider)
    requires (forall k <- xs :: k in m) && (forall k <- ys :: k in m) && Distinct(xs) && Distinct(ys)
    requires forall k :: k in xs <==> k in ys
    ensures KeysEffect(cfg, m, xs, now, at, p) == KeysEffect(cfg, m, ys, now, at, p)
    decreases |xs|
  {
    hide BaseEffect, Effect.Plus;
    if xs == [] {
      if ys != [] {
        HasElement(ys);
        assert false;
      }
    } else {
      var n := |xs| - 1;
      assert xs[n] in ys;
      var i :| 0 <= i < |ys| && ys[i] == xs[n];
      KeysEffectMove(cfg, m, ys, now, at, p, i);
      SameWithout(xs, ys, i);
      KeysEffectPermutes(cfg, m, xs[..n], ys[..i] + ys[i + 1..], now, at, p);
    }
  }

  /** The effect of keys depends only on their own bases. */
  lemma {:induction false} KeysEffectReads(cfg: Config, m: Pendings, q: Pendings, keys: seq<BaseKey>, now: Time,
                                           at: Coin, p: Provider)
    requires forall k <- keys :: k in m && k in q && m[k] == q[k]
    ensures KeysEffect(cfg, m, keys, now, at, p) == KeysEffect(cfg, q, keys, now, at, p)
    decreases |keys|
  {
    hide BaseEffect, Effect.Plus;
    if keys != [] {
      KeysEffectReads(cfg, m, q, keys[..|keys| - 1], now, at, p);
    }
  }

  /** The first key's effect joins the others'. */
  lemma KeysEffectFirst(cfg: Config, m: Pendings, keys: seq<BaseKey>, now: Time, at: Coin, p: Provider, v: Effect)
    requires keys != [] && forall k <- keys :: k in m
    ensures keys[0] in m && forall k <- keys[1..] :: k in m
    ensures v.Plus(BaseEffect(cfg, keys[0], m[keys[0]], now, at, p)).Plus(KeysEffect(cfg, m, keys[1..], now, at, p))
            == v.Plus(KeysEffect(cfg, m, keys, now, at, p))
  {
    hide BaseEffect, KeysEffect, Effect.Plus;
    assert keys[0] in keys && forall k <- keys[1..] :: k in keys;
    KeysEffectMove(cfg, m, keys, now, at, p, 0);
    assert keys[..0] + keys[1..] == keys[1..];
    var x, y := BaseEffect(cfg, keys[0], m[keys[0]], now, at, p), KeysEffect(cfg, m, keys[1..], now, at, p);
    PlusLaws(v, x, y);
    PlusLaws(x, y, x);
  }

  lemma OthersOpen(b: Bench, after: Bench, keys: seq<BaseKey>)
    requires keys != [] && Distinct(keys) && after.pending == b.pending - {keys[0]}
    requires forall k <- keys :: k in b.pending
    ensures Distinct(keys[1..])
    ensures forall k <- keys[1..] :: k in after.pending && k in b.pending && after.pending[k] == b.pending[k]
  {
    assert forall j <- keys[1..] :: j in keys && j != keys[0];
  }

  lemma {:induction false} SettleEachView(cfg: Config, b: Bench, now: Time, keys: seq<BaseKey>, chs: seq<Choice>,
                                          at: Coin, p: Provider)
    requires |chs| == |keys| && AllUsable(cfg, b, now, keys, chs)
    requires Roomy(cfg, b) && WellFormed(cfg, b) && Distinct(keys) && forall k <- keys :: k in b.pending
    ensures View(SettleEach(cfg, b, now, keys, chs), at, p)
            == View(b, at, p).Plus(KeysEffect(cfg, b.pending, keys, now, at, p))
    decreases |keys|
  {
    hide Roomy, WellFormed, View, BaseEffect, Effect.Plus, Usable, Oldest, Settle, Distinct;
    if keys == [] {
      PlusLaws(View(b, at, p), NO_EFFECT, NO_EFFECT);
    } else {
      hide KeysEffect;
      var k, more := keys[0], keys[1..];
      SettleView(cfg, b, k, now, chs[0], at, p);
      SettleRoomy(cfg, b, k, now, chs[0]);
      SettleWellFormed(cfg, b, k, now, false, chs[0]);
      var after := Settle(cfg, b, k, now, false, chs[0]);
      OthersOpen(b, after, keys);
      SettleEachView(cfg, after, now, more, chs[1..], at, p);
      KeysEffectReads(cfg, after.pending, b.pending, more, now, at, p);
      KeysEffectFirst(cfg, b.pending, keys, now, at, p, View(b, at, p));
    }
  }

  // ---------- tick ----------

  /** Pruning sees only what the rings hold. */
  lemma PruneView(cfg: Config, b: Bench, c: Bench, now: Time, at: Coin, p: Provider)
    requires View(b, at, p) == View(c, at, p)
    ensures View(Prune(cfg, b, now), at, p) == View(Prune(cfg, c, now), at, p)
  {
    hide BoardOf, Contents, Retain, WindowOf;
    var v, w := WindowOf(b.windows, at), WindowOf(c.windows, at);
    PrunedWindow(cfg, b, now, at);
    PrunedWindow(cfg, c, now, at);
    SameCohortsKept(v.cohorts, w.cohorts, now, cfg.rollingWindow);
    SameCoverageKept(v.coverage, w.coverage, now, cfg.rollingWindow);
  }

  lemma SameCohortsKept(v: Ring, w: Ring, now: Time, window: nat)
    requires Contents(v) == Contents(w)
    ensures Contents(Retain(v, now, window)) == Contents(Retain(w, now, window))
  {
    hide Contents, Retain;
    forall x: Stamped<Cohort>
      ensures Contents(Retain(v, now, window))[x] == Contents(Retain(w, now, window))[x]
    {
      ContentsRetain(v, now, window, x);
      ContentsRetain(w, now, window, x);
    }
  }

  lemma SameCoverageKept(v: CoverageRing, w: CoverageRing, now: Time, window: nat)
    requires multiset(v) == multiset(w)
    ensures multiset(Retain(v, now, window)) == multiset(Retain(w, now, window))
  {
    hide Retain;
    forall x: Stamped<Coverage>
      ensures multiset(Retain(v, now, window))[x] == multiset(Retain(w, now, window))[x]
    {
      RetainKeeps(v, now, window, x);
      RetainKeeps(w, now, window, x);
    }
  }

  lemma PrunedWindow(cfg: Config, b: Bench, now: Time, at: Coin)
    ensures WindowOf(Prune(cfg, b, now).windows, at) == PruneWindow(WindowOf(b.windows, at), now, cfg.rollingWindow)
  {
  }

  /** A tick may settle its expired bases in any order, and each base's candidates in any order: the
      counters and the ring contents come out the same. */
  lemma TickOrderIsInvisible(cfg: Config, b: Bench, c: Bench, now: Time, xs: seq<BaseKey>, xch: seq<Choice>,
                             ys: seq<BaseKey>, ych: seq<Choice>, at: Coin, p: Provider)
    requires b.pending == c.pending && View(b, at, p) == View(c, at, p)
    requires Roomy(cfg, b) && WellFormed(cfg, b) && Roomy(cfg, c) && WellFormed(cfg, c)
    requires Expired(cfg, b, now, xs) && |xch| == |xs| && AllUsable(cfg, b, now, xs, xch)
    requires Expired(cfg, c, now, ys) && |ych| == |ys| && AllUsable(cfg, c, now, ys, ych)
    ensures View(Tick(cfg, b, now, xs, xch), at, p) == View(Tick(cfg, c, now, ys, ych), at, p)
  {
    hide Roomy, WellFormed, View, KeysEffect, Effect.Plus, AllUsable, SettleEach, Prune, Distinct;
    assert forall k :: k in xs <==> Overdue(cfg, b, k, now);
    assert forall k :: k in ys <==> Overdue(cfg, c, k, now);
    assert forall k :: Overdue(cfg, b, k, now) <==> Overdue(cfg, c, k, now);
    SettleEachView(cfg, b, now, xs, xch, at, p);
    SettleEachView(cfg, c, now, ys, ych, at, p);
    KeysEffectPermutes(cfg, b.pending, xs, ys, now, at, p);
    PruneView(cfg, SettleEach(cfg, b, now, xs, xch), SettleEach(cfg, c, now, ys, ych), now, at, p);
  }
}
