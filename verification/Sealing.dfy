/** A sealed base cannot come back: while a coin has had no state eviction, every cohort in its ring
    is covered by a tombstone, and no event key is in the ring twice. */
module Sealing {
  import opened Common
  import opened Model
  import opened Windows
  import opened Cohorts
  import opened Admission

  type Bases = map<BaseKey, Time>

  /** `x` is under a tombstone no older than itself. */
  predicate Covered(bases: Bases, coin: Coin, x: Stamped<Cohort>) {
    && x.it.key.coin == coin
    && x.it.key.Base() in bases
    && x.at <= bases[x.it.key.Base()]
  }

  predicate DistinctKeys(ring: Ring) {
    forall i, j :: 0 <= i < j < |ring| ==> ring[i].it.key != ring[j].it.key
  }

  predicate RingSealed(bases: Bases, coin: Coin, ring: Ring) {
    DistinctKeys(ring) && forall x <- ring :: Covered(bases, coin, x)
  }

  predicate CoinSealed(bases: Bases, coin: Coin, w: Window) {
    w.stateEvictions == 0 ==> RingSealed(bases, coin, w.cohorts)
  }

  predicate Sealed(bases: Bases, ws: CoinWindows) {
    forall coin <- ws :: CoinSealed(bases, coin, ws[coin])
  }

  lemma EmptySealed(bases: Bases, coin: Coin)
    ensures CoinSealed(bases, coin, EMPTY_WINDOW)
  {
  }

  lemma WindowSealed(bases: Bases, ws: CoinWindows, coin: Coin)
    requires Sealed(bases, ws)
    ensures CoinSealed(bases, coin, WindowOf(ws, coin))
  {
    hide CoinSealed;
    EmptySealed(bases, coin);
  }

  // ---------- tombstones ----------

  /** A full map loses its oldest tombstone, and that coin's evictions show it. */
  lemma SealBaseKeeps(cfg: Config, b: Bench, key: BaseKey, now: Time, victim: BaseKey)
    requires Sealed(b.bases, b.windows) && key !in b.bases
    ensures Sealed(SealBase(cfg, b.bases, key, now, victim), SealBaseWindows(cfg, b.windows, b.bases, now, victim))
  {
    var bases := SealBase(cfg, b.bases, key, now, victim);
    var ws := SealBaseWindows(cfg, b.windows, b.bases, now, victim);
    forall coin <- ws
      ensures CoinSealed(bases, coin, ws[coin])
    {
      if ws[coin].stateEvictions == 0 {
        assert coin in b.windows && ws[coin] == b.windows[coin];
        assert CoinSealed(b.bases, coin, b.windows[coin]);
        forall x <- ws[coin].cohorts
          ensures Covered(bases, coin, x)
        {
          assert Covered(b.bases, coin, x);
        }
      }
    }
  }

  lemma BumpKeeps(bases: Bases, ws: CoinWindows, coin: Coin, now: Time)
    requires Sealed(bases, ws)
    ensures Sealed(bases, BumpEviction(ws, coin, now))
  {
    hide RingSealed;
  }

  // ---------- finalizing ----------

  /** Nothing of `base` has entered the coin's ring except the contents in `done`. */
  predicate OnlyDone(ring: Ring, base: BaseKey, done: seq<ContentKey>) {
    forall x <- ring :: x.it.key.Base() == base ==> exists c <- done :: x.it.key == KeyOf(base, c)
  }

  lemma InsertedFrom(ring: Ring, x: Stamped<Cohort>)
    ensures forall y <- Insert(ring, x) :: y == x || y in ring
  {
  }

  lemma InsertDistinct(ring: Ring, x: Stamped<Cohort>)
    requires DistinctKeys(ring) && forall y <- ring :: y.it.key != x.it.key
    ensures DistinctKeys(Insert(ring, x))
  {
    hide Insert;
    InsertAt(ring, x);
    var k, r := Position(ring, x.at), Insert(ring, x);
    forall i, j | 0 <= i < j < |r|
      ensures r[i].it.key != r[j].it.key
    {
      if i == k {
        assert r[j] == ring[j - 1] && ring[j - 1] in ring;
      } else if j == k {
        assert r[i] == ring[i] && ring[i] in ring;
      }
    }
  }

  lemma AdmitSealed(bases: Bases, coin: Coin, ring: Ring, x: Stamped<Cohort>, cap: nat)
    requires RingSealed(bases, coin, ring) && Covered(bases, coin, x)
    requires forall y <- ring :: y.it.key != x.it.key
    ensures RingSealed(bases, coin, Admit(ring, x, cap))
    ensures forall y <- Admit(ring, x, cap) :: y == x || y in ring
  {
    hide Covered, Insert;
    InsertDistinct(ring, x);
    InsertedFrom(ring, x);
    var r := Insert(ring, x);
    assert forall y <- Admit(ring, x, cap) :: y in r;
  }

  /** Finalizing one content of a freshly sealed base keeps its coin's ring sealed. */
  lemma FinalizeWindowSealed(cfg: Config, bases: Bases, w: Window, base: BaseKey, c: ContentKey, first: Time,
                             kept: Arrivals, strays: set<Provider>, now: Time, done: seq<ContentKey>)
    requires CoinSealed(bases, base.coin, w)
    requires w.stateEvictions == 0 ==> OnlyDone(w.cohorts, base, done)
    requires base in bases && c !in done && KeyOf(base, c).Base() == base
    requires w.stateEvictions == 0 ==> SettledAt(cfg, kept, now) <= bases[base]
    ensures var v := FinalizeWindow(cfg, w, KeyOf(base, c), first, kept, strays, now);
            && v.stateEvictions == w.stateEvictions
            && CoinSealed(bases, base.coin, v)
            && (v.stateEvictions == 0 ==> OnlyDone(v.cohorts, base, done + [c]))
  {
    hide SettledAt, Complete, RingSealed, Admit, Insert, CoverageOf, LatenciesOf;
    var at := SettledAt(cfg, kept, now);
    var v := FinalizeWindow(cfg, w, KeyOf(base, c), first, kept, strays, now);
    if w.stateEvictions == 0 {
      if Complete(cfg, kept) {
        var x := Stamped(at, Cohort(KeyOf(base, c), w.complete, base.eventMs, LatenciesOf(cfg, KeyOf(base, c), kept),
                                    Since(at, first), false));
        forall y <- w.cohorts
          ensures y.it.key != x.it.key
        {
          assert y.it.key.Base() == base ==> exists d <- done :: y.it.key == KeyOf(base, d);
        }
        AdmitSealed(bases, base.coin, w.cohorts, x, cfg.maxRolling);
        OnlyDoneStep(w.cohorts, v.cohorts, x, base, c, done);
      } else {
        OnlyDoneMore(w.cohorts, base, done, c);
      }
    }
  }

  lemma OnlyDoneMore(ring: Ring, base: BaseKey, done: seq<ContentKey>, c: ContentKey)
    requires OnlyDone(ring, base, done)
    ensures OnlyDone(ring, base, done + [c])
  {
    assert forall d <- done :: d in done + [c];
  }

  lemma OnlyDoneStep(ring: Ring, r: Ring, x: Stamped<Cohort>, base: BaseKey, c: ContentKey, done: seq<ContentKey>)
    requires OnlyDone(ring, base, done) && x.it.key == KeyOf(base, c)
    requires forall y <- r :: y == x || y in ring
    ensures OnlyDone(r, base, done + [c])
  {
    assert c in done + [c];
    assert forall d <- done :: d in done + [c];
  }

  lemma FinalizeOneSealed(cfg: Config, bases: Bases, r: Rings, base: BaseKey, c: ContentKey, first: Time,
                          kept: Arrivals, strays: set<Provider>, now: Time, victim: EventKey, done: seq<ContentKey>)
    requires Sealed(bases, r.windows)
    requires base in bases && c !in done && KeyOf(base, c).Base() == base
    requires var w := WindowOf(r.windows, base.coin);
             w.stateEvictions == 0 ==> OnlyDone(w.cohorts, base, done) && SettledAt(cfg, kept, now) <= bases[base]
    ensures var after := FinalizeOne(cfg, r, KeyOf(base, c), first, kept, strays, now, victim);
            && Sealed(bases, after.windows)
            && var w := WindowOf(after.windows, base.coin);
               w.stateEvictions == 0 ==> WindowOf(r.windows, base.coin).stateEvictions == 0
                                         && OnlyDone(w.cohorts, base, done + [c])
  {
    hide SettledAt, FinalizeWindow, CoinSealed, OnlyDone, ActiveIn, SettledFull;
    var w := WindowOf(r.windows, base.coin);
    WindowSealed(bases, r.windows, base.coin);
    FinalizeWindowSealed(cfg, bases, w, base, c, first, kept, strays, now, done);
    var v := FinalizeWindow(cfg, w, KeyOf(base, c), first, kept, strays, now);
    var ws := r.windows[base.coin := v];
    assert Sealed(bases, ws);
    BumpKeeps(bases, ws, victim.coin, SettledAt(cfg, kept, now));
  }

  /** Every candidate settles no later than `now`. */
  predicate Timely(cfg: Config, pb: PendingBase, now: Time) {
    forall c <- pb.candidates :: SettledAt(cfg, OnTime(cfg, pb, c), now) <= now
  }

  /** The coin's ring as finalizing `done` leaves it. */
  ghost predicate SealedSoFar(bases: Bases, start: Rings, r: Rings, base: BaseKey, done: seq<ContentKey>) {
    && Sealed(bases, r.windows)
    && var w := WindowOf(r.windows, base.coin);
       w.stateEvictions == 0 ==>
         WindowOf(start.windows, base.coin).stateEvictions == 0 && OnlyDone(w.cohorts, base, done)
  }

  lemma {:induction false} FinalizeAllSealed(cfg: Config, bases: Bases, r: Rings, base: BaseKey, pb: PendingBase,
                                             strays: set<Provider>, order: seq<ContentKey>, victims: seq<EventKey>,
                                             now: Time)
    requires Among(order, pb) && Distinct(order) && |victims| == |order|
    requires base in bases && bases[base] == now
    requires forall c <- pb.candidates :: KeyOf(base, c).Base() == base
    requires SealedSoFar(bases, r, r, base, [])
    requires WindowOf(r.windows, base.coin).stateEvictions == 0 ==> Timely(cfg, pb, now)
    ensures SealedSoFar(bases, r, FinalizeAll(cfg, r, base, pb, strays, order, victims, now), base, order)
    decreases |order|
  {
    hide Sealed, OnlyDone, FinalizeOne, Canonical, OnTime, SettledAt, WindowOf;
    if order != [] {
      var n := |order| - 1;
      var init, c := order[..n], order[n];
      FinalizeAllSealed(cfg, bases, r, base, pb, strays, init, victims[..n], now);
      var before := FinalizeAll(cfg, r, base, pb, strays, init, victims[..n], now);
      assert init + [c] == order;
      assert c !in init && c in pb.candidates;
      if Canonical(cfg, pb, c) {
        FinalizeOneSealed(cfg, bases, before, base, c, pb.candidates[c].first, OnTime(cfg, pb, c), strays, now,
                          victims[n], init);
      } else if WindowOf(before.windows, base.coin).stateEvictions == 0 {
        OnlyDoneMore(WindowOf(before.windows, base.coin).cohorts, base, init, c);
      }
    }
  }

  // ---------- settle, place, prune ----------

  /** A base settled at or after its deadline, or evicted, leaves every ring sealed. */
  lemma SettleSeals(cfg: Config, b: Bench, key: BaseKey, now: Time, evicted: bool, ch: Choice)
    requires WellFormed(cfg, b) && Usable(b, key, ch) && Sealed(b.bases, b.windows)
    requires !evicted ==> Timely(cfg, b.pending[key], now)
    ensures var after := Settle(cfg, b, key, now, evicted, ch); Sealed(after.bases, after.windows)
  {
    hide Sealed, OnlyDone, FinalizeAll, SettleCounters, Timely, SealBase, SealBaseWindows, Covered;
    var bases := SealBase(cfg, b.bases, key, now, ch.baseVictim);
    var ws := SealBaseWindows(cfg, b.windows, b.bases, now, ch.baseVictim);
    SealBaseKeeps(cfg, b, key, now, ch.baseVictim);
    NoneOfBase(cfg, b, key, now, ch.baseVictim);
    var marked := if evicted then BumpEviction(ws, key.coin, now) else ws;
    if evicted {
      BumpKeeps(bases, ws, key.coin, now);
      BumpShows(ws, key.coin, now);
    }
    SealBaseHas(cfg, b.bases, key, now, ch.baseVictim);
    BaseKeys(cfg, key, b.pending[key]);
    FinalizeAllSealed(cfg, bases, Rings(marked, b.settled), key, b.pending[key], Strays(cfg, b.pending[key]), ch.order,
                      ch.victims, now);
  }

  lemma BaseKeys(cfg: Config, key: BaseKey, pb: PendingBase)
    requires BaseOk(cfg, key, pb)
    ensures forall c <- pb.candidates :: KeyOf(key, c).Base() == key
  {
  }

  lemma SealBaseHas(cfg: Config, bases: Bases, key: BaseKey, now: Time, victim: BaseKey)
    ensures key in SealBase(cfg, bases, key, now, victim) && SealBase(cfg, bases, key, now, victim)[key] == now
  {
  }

  lemma BumpShows(ws: CoinWindows, coin: Coin, now: Time)
    ensures WindowOf(BumpEviction(ws, coin, now), coin).stateEvictions > 0
  {
  }

  /** A base that was open has nothing in a sealed ring. */
  lemma NoneOfBase(cfg: Config, b: Bench, key: BaseKey, now: Time, victim: BaseKey)
    requires Sealed(b.bases, b.windows) && key !in b.bases
    ensures var w := WindowOf(SealBaseWindows(cfg, b.windows, b.bases, now, victim), key.coin);
            w.stateEvictions == 0 ==> OnlyDone(w.cohorts, key, [])
  {
    hide RingSealed, Covered, BasesFull;
    var ws := SealBaseWindows(cfg, b.windows, b.bases, now, victim);
    var w := WindowOf(ws, key.coin);
    if w.stateEvictions == 0 && key.coin in b.windows {
      assert w == b.windows[key.coin];
      assert CoinSealed(b.bases, key.coin, w);
      NoneCovered(b.bases, key, w.cohorts);
    }
  }

  lemma NoneCovered(bases: Bases, key: BaseKey, ring: Ring)
    requires RingSealed(bases, key.coin, ring) && key !in bases
    ensures OnlyDone(ring, key, [])
  {
    forall x <- ring
      ensures x.it.key.Base() != key
    {
      assert Covered(bases, key.coin, x);
    }
  }

  /** Past its deadline, everything a base kept was received by now. */
  lemma OverdueTimely(cfg: Config, b: Bench, key: BaseKey, now: Time)
    requires WellFormed(cfg, b) && Overdue(cfg, b, key, now)
    ensures Timely(cfg, b.pending[key], now)
  {
    hide BaseOk, OnTime, Complete;
    var pb := b.pending[key];
    forall c <- pb.candidates
      ensures SettledAt(cfg, OnTime(cfg, pb, c), now) <= now
    {
      if Complete(cfg, OnTime(cfg, pb, c)) {
        CommitsInTime(cfg, key, pb, c, now);
      }
    }
  }

  lemma PruneSeals(cfg: Config, b: Bench, now: Time)
    requires Sealed(b.bases, b.windows)
    ensures Sealed(Prune(cfg, b, now).bases, Prune(cfg, b, now).windows)
  {
    hide RingSealed;
    var after := Prune(cfg, b, now);
    forall coin <- after.windows
      ensures CoinSealed(after.bases, coin, after.windows[coin])
    {
      assert CoinSealed(b.bases, coin, b.windows[coin]);
      if b.windows[coin].stateEvictions == 0 {
        RetainSealed(cfg, b, coin, b.windows[coin].cohorts, now);
      }
    }
  }

  /** A tombstone outlives the cohorts it covers. */
  lemma RetainSealed(cfg: Config, b: Bench, coin: Coin, ring: Ring, now: Time)
    requires RingSealed(b.bases, coin, ring)
    ensures RingSealed(Prune(cfg, b, now).bases, coin, Retain(ring, now, cfg.rollingWindow))
  {
    RetainDistinctKeys(ring, now, cfg.rollingWindow);
    forall x <- Retain(ring, now, cfg.rollingWindow)
      ensures Covered(Prune(cfg, b, now).bases, coin, x)
    {
      assert Covered(b.bases, coin, x);
    }
  }

  lemma {:induction false} RetainDistinctKeys(ring: Ring, now: Time, window: nat)
    requires DistinctKeys(ring)
    ensures DistinctKeys(Retain(ring, now, window))
    decreases |ring|
  {
    if ring != [] {
      RetainDistinctKeys(ring[1..], now, window);
      var tail := Retain(ring[1..], now, window);
      forall i | 0 <= i < |tail|
        ensures tail[i].it.key != ring[0].it.key
      {
        assert tail[i] in ring[1..];
        var j :| 0 <= j < |ring[1..]| && ring[1..][j] == tail[i];
        assert ring[j + 1] == tail[i];
      }
    }
  }
}
