/** Caps, ring order, and the visibility of everything a cap discards. */
module Bounds {
  import opened Common
  import opened Model
  import opened Windows
  import opened Cohorts
  import opened SettleLaws
  import opened Admission

  /** Rings sorted and capped, commit delays under the timeout, and no eviction without a mark. */
  ghost predicate WindowOk(cfg: Config, w: Window) {
    && Sorted(w.cohorts) && |w.cohorts| <= cfg.maxRolling
    && Sorted(w.coverage) && |w.coverage| <= cfg.maxRolling
    && (forall x <- w.cohorts :: x.it.commitDelay < cfg.cohortTimeout)
    && (w.stateEvictions + w.rollingEvictions + w.coverageEvictions > 0 ==> w.lastLoss.Some?)
  }

  ghost predicate WindowsOk(cfg: Config, ws: CoinWindows) {
    forall coin <- ws :: WindowOk(cfg, ws[coin])
  }

  lemma SetOk(cfg: Config, ws: CoinWindows, coin: Coin, w: Window)
    requires WindowsOk(cfg, ws) && WindowOk(cfg, w)
    ensures WindowsOk(cfg, ws[coin := w])
  {
    hide WindowOk;
  }

  lemma GetOk(cfg: Config, ws: CoinWindows, coin: Coin)
    requires WindowsOk(cfg, ws)
    ensures WindowOk(cfg, WindowOf(ws, coin))
  {
  }

  lemma BumpOk(cfg: Config, ws: CoinWindows, coin: Coin, now: Time)
    requires WindowsOk(cfg, ws)
    ensures WindowsOk(cfg, BumpEviction(ws, coin, now)) && WindowsOk(cfg, MarkLoss(ws, coin, now))
  {
    hide Sorted, WindowsOk;
    GetOk(cfg, ws, coin);
    var w := WindowOf(ws, coin);
    SetOk(cfg, ws, coin, w.(stateEvictions := w.stateEvictions + 1, lastLoss := Some(now)));
    SetOk(cfg, ws, coin, w.(lastLoss := Some(now)));
  }

  lemma AdmitCoverageOk(cfg: Config, w: Window, x: Stamped<Coverage>, now: Time)
    requires WindowOk(cfg, w)
    ensures WindowOk(cfg, AdmitCoverage(w, x, cfg.maxRolling, now))
  {
    hide Sorted, Insert, Admit;
    AdmitKeeps(w.coverage, x, cfg.maxRolling);
  }

  lemma AdmitCohortOk(cfg: Config, w: Window, at: Time, key: EventKey, latency: Latencies, delay: nat, now: Time)
    requires WindowOk(cfg, w) && delay < cfg.cohortTimeout
    ensures var v := AdmitCohort(w, at, key, latency, delay, cfg.maxRolling, now);
            && WindowOk(cfg, v)
            && v.complete - w.complete == |v.cohorts| - |w.cohorts| + v.rollingEvictions - w.rollingEvictions
  {
    hide Sorted, Insert, Admit;
    var x := Stamped(at, Cohort(key, w.complete, key.eventMs, latency, delay, false));
    AdmitKeeps(w.cohorts, x, cfg.maxRolling);
    AdmitSize(w.cohorts, x, cfg.maxRolling);
    AdmitMembers(w.cohorts, x, cfg.maxRolling);
  }

  lemma AdmitMembers(ring: Ring, x: Stamped<Cohort>, cap: nat)
    ensures forall y <- Admit(ring, x, cap) :: y == x || y in ring
  {
  }

  lemma AdmitSize(ring: Ring, x: Stamped<Cohort>, cap: nat)
    ensures |Admit(ring, x, cap)| == |ring| + 1 - Bit(|Insert(ring, x)| > cap)
  {
  }

  // ---------- settle ----------

  lemma FinalizeWindowOk(cfg: Config, w: Window, k: BaseKey, pb: PendingBase, c: ContentKey, strays: set<Provider>,
                         now: Time)
    requires WindowOk(cfg, w) && BaseOk(cfg, k, pb) && c in pb.candidates
    ensures WindowOk(cfg, FinalizeWindow(cfg, w, KeyOf(k, c), pb.candidates[c].first, OnTime(cfg, pb, c), strays, now))
  {
    hide WindowOk, AdmitCoverage, AdmitCohort, OnTime, SettledAt, Complete, BaseOk, LatenciesOf, CoverageOf;
    var kept := OnTime(cfg, pb, c);
    var at := SettledAt(cfg, kept, now);
    var x := Stamped(at, CoverageOf(cfg, KeyOf(k, c), kept, strays));
    AdmitCoverageOk(cfg, w, x, now);
    if Complete(cfg, kept) {
      CommitsInTime(cfg, k, pb, c, now);
      AdmitCohortOk(cfg, AdmitCoverage(w, x, cfg.maxRolling, now), at, KeyOf(k, c), LatenciesOf(cfg, KeyOf(k, c), kept),
                    Since(at, pb.candidates[c].first), now);
    }
  }

  lemma FinalizeOneOk(cfg: Config, r: Rings, k: BaseKey, pb: PendingBase, c: ContentKey, strays: set<Provider>,
                      now: Time, victim: EventKey)
    requires WindowsOk(cfg, r.windows) && BaseOk(cfg, k, pb) && c in pb.candidates
    ensures WindowsOk(cfg, FinalizeOne(cfg, r, KeyOf(k, c), pb.candidates[c].first, OnTime(cfg, pb, c), strays, now,
                                       victim).windows)
  {
    hide WindowsOk, WindowOk, FinalizeWindow, OnTime, SettledAt, BaseOk, BumpEviction;
    GetOk(cfg, r.windows, k.coin);
    var w := WindowOf(r.windows, k.coin);
    FinalizeWindowOk(cfg, w, k, pb, c, strays, now);
    var v := FinalizeWindow(cfg, w, KeyOf(k, c), pb.candidates[c].first, OnTime(cfg, pb, c), strays, now);
    SetOk(cfg, r.windows, k.coin, v);
    BumpOk(cfg, r.windows[k.coin := v], victim.coin, SettledAt(cfg, OnTime(cfg, pb, c), now));
  }

  lemma {:induction false} FinalizeAllOk(cfg: Config, r: Rings, k: BaseKey, pb: PendingBase, strays: set<Provider>,
                                         order: seq<ContentKey>, victims: seq<EventKey>, now: Time)
    requires Among(order, pb) && |victims| == |order| && WindowsOk(cfg, r.windows) && BaseOk(cfg, k, pb)
    ensures WindowsOk(cfg, FinalizeAll(cfg, r, k, pb, strays, order, victims, now).windows)
    decreases |order|
  {
    hide WindowsOk, BaseOk, FinalizeOne, OnTime, Canonical;
    if order != [] {
      var n := |order| - 1;
      FinalizeAllOk(cfg, r, k, pb, strays, order[..n], victims[..n], now);
      if Canonical(cfg, pb, order[n]) {
        FinalizeOneOk(cfg, FinalizeAll(cfg, r, k, pb, strays, order[..n], victims[..n], now), k, pb, order[n], strays,
                      now, victims[n]);
      }
    }
  }

  lemma SettleOk(cfg: Config, b: Bench, key: BaseKey, now: Time, evicted: bool, ch: Choice)
    requires WellFormed(cfg, b) && Usable(b, key, ch) && WindowsOk(cfg, b.windows)
    ensures WindowsOk(cfg, Settle(cfg, b, key, now, evicted, ch).windows)
  {
    hide WindowsOk, BaseOk, FinalizeAll, BumpEviction, SettleCounters;
    BumpOk(cfg, b.windows, ch.baseVictim.coin, now);
    var sealed := SealBaseWindows(cfg, b.windows, b.bases, now, ch.baseVictim);
    BumpOk(cfg, sealed, key.coin, now);
    var marked := if evicted then BumpEviction(sealed, key.coin, now) else sealed;
    FinalizeAllOk(cfg, Rings(marked, b.settled), key, b.pending[key], Strays(cfg, b.pending[key]), ch.order, ch.victims,
                  now);
  }

  lemma PruneOk(cfg: Config, b: Bench, now: Time)
    requires WindowsOk(cfg, b.windows)
    ensures WindowsOk(cfg, Prune(cfg, b, now).windows)
  {
    hide Sorted;
    forall coin <- b.windows
      ensures WindowOk(cfg, PruneWindow(b.windows[coin], now, cfg.rollingWindow))
    {
      assert WindowOk(cfg, b.windows[coin]);
      RetainKeepsSorted(b.windows[coin].cohorts, now, cfg.rollingWindow);
      RetainKeepsSorted(b.windows[coin].coverage, now, cfg.rollingWindow);
    }
  }

  // ---------- map sizes ----------

  /** The maps' own caps; a cap of zero still lets one entry in. */
  predicate SizesOk(cfg: Config, b: Bench) {
    && |b.pending| <= Max(1, cfg.maxPending)
    && |b.bases| <= Max(1, cfg.maxSettled)
    && |b.settled| <= Max(1, cfg.maxSettled)
  }

  lemma SizeAfterSet<K, V>(m: map<K, V>, k: K, v: V)
    ensures |m[k := v]| == |m| + Bit(k !in m)
  {
    assert m[k := v].Keys == m.Keys + {k};
  }

  lemma SizeAfterRemove<K, V>(m: map<K, V>, k: K)
    requires k in m
    ensures |m - {k}| == |m| - 1
  {
    assert m.Keys == (m - {k}).Keys + {k};
  }

  lemma SealKeySize(cfg: Config, r: Rings, key: EventKey, s: Settled, victim: EventKey)
    requires |r.settled| <= Max(1, cfg.maxSettled)
    requires SettledFull(cfg, r.settled) ==> victim in r.settled
    ensures |SealKey(cfg, r, key, s, victim).settled| <= Max(1, cfg.maxSettled)
  {
    hide BumpEviction;
    var m := r.settled;
    if SettledFull(cfg, m) {
      SizeAfterRemove(m, victim);
      SizeAfterSet(m - {victim}, key, s);
    } else {
      SizeAfterSet(m, key, s);
    }
  }

  /** The settled map evolves the same way whatever the windows hold. */
  lemma {:induction false} SettledAlone(cfg: Config, r: Rings, q: Rings, k: BaseKey, pb: PendingBase,
                                        strays: set<Provider>, order: seq<ContentKey>, victims: seq<EventKey>,
                                        now: Time)
    requires Among(order, pb) && |victims| == |order| && r.settled == q.settled
    ensures FinalizeAll(cfg, r, k, pb, strays, order, victims, now).settled
            == FinalizeAll(cfg, q, k, pb, strays, order, victims, now).settled
    decreases |order|
  {
    hide FinalizeWindow, OnTime, Canonical, SettledAt, SettledFull, BumpEviction, ActiveIn;
    if order != [] {
      var n := |order| - 1;
      SettledAlone(cfg, r, q, k, pb, strays, order[..n], victims[..n], now);
    }
  }

  /** Cap pressure always finds a victim. */
  ghost predicate VictimsHeld(cfg: Config, r: Rings, k: BaseKey, pb: PendingBase, strays: set<Provider>,
                              order: seq<ContentKey>, victims: seq<EventKey>, now: Time)
    requires Among(order, pb) && |victims| == |order|
  {
    forall n :: 0 <= n < |order| ==>
      var m := FinalizeAll(cfg, r, k, pb, strays, order[..n], victims[..n], now).settled;
      SettledFull(cfg, m) ==> victims[n] in m
  }

  lemma {:induction false} FinalizeAllSize(cfg: Config, r: Rings, k: BaseKey, pb: PendingBase, strays: set<Provider>,
                                           order: seq<ContentKey>, victims: seq<EventKey>, now: Time)
    requires Among(order, pb) && |victims| == |order| && |r.settled| <= Max(1, cfg.maxSettled)
    requires VictimsHeld(cfg, r, k, pb, strays, order, victims, now)
    ensures |FinalizeAll(cfg, r, k, pb, strays, order, victims, now).settled| <= Max(1, cfg.maxSettled)
    decreases |order|
  {
    hide FinalizeWindow, OnTime, Canonical, SettledAt, SettledFull, BumpEviction, ActiveIn, SealKey;
    if order != [] {
      var n := |order| - 1;
      forall m | 0 <= m < n
        ensures order[..n][..m] == order[..m] && victims[..n][..m] == victims[..m]
      {
      }
      FinalizeAllSize(cfg, r, k, pb, strays, order[..n], victims[..n], now);
      var before := FinalizeAll(cfg, r, k, pb, strays, order[..n], victims[..n], now);
      var c := order[n];
      var kept := OnTime(cfg, pb, c);
      var w := FinalizeWindow(cfg, WindowOf(before.windows, k.coin), KeyOf(k, c), pb.candidates[c].first, kept, strays,
                              now);
      SealKeySize(cfg, Rings(before.windows[k.coin := w], before.settled), KeyOf(k, c),
                  Settled(SettledAt(cfg, kept, now), ActiveIn(cfg, kept)), victims[n]);
    }
  }

  lemma SealBaseSize(cfg: Config, bases: map<BaseKey, Time>, key: BaseKey, now: Time, victim: BaseKey)
    requires |bases| <= Max(1, cfg.maxSettled)
    requires BasesFull(cfg, bases) ==> victim in bases
    ensures |SealBase(cfg, bases, key, now, victim)| <= Max(1, cfg.maxSettled)
  {
    if BasesFull(cfg, bases) {
      SizeAfterRemove(bases, victim);
      SizeAfterSet(bases - {victim}, key, now);
    } else {
      SizeAfterSet(bases, key, now);
    }
  }

  lemma SettleSizes(cfg: Config, b: Bench, key: BaseKey, now: Time, evicted: bool, ch: Choice)
    requires SizesOk(cfg, b) && Usable(b, key, ch) && Oldest(cfg, b, key, now, ch)
    ensures var after := Settle(cfg, b, key, now, evicted, ch);
            SizesOk(cfg, after) && |after.pending| == |b.pending| - 1
  {
    hide FinalizeAll, SettleCounters, BumpEviction, SealBase, SealBaseWindows, BasesFull, SettledFull, Enumerates;
    var pb, strays := b.pending[key], Strays(cfg, b.pending[key]);
    SealBaseSize(cfg, b.bases, key, now, ch.baseVictim);
    var sealed := SealBaseWindows(cfg, b.windows, b.bases, now, ch.baseVictim);
    var marked := if evicted then BumpEviction(sealed, key.coin, now) else sealed;
    var plain := Rings(b.windows, b.settled);
    assert Among(ch.order, pb) by { EnumeratesAmong(ch.order, pb); }
    OldestHeld(cfg, b, key, now, ch);
    FinalizeAllSize(cfg, plain, key, pb, strays, ch.order, ch.victims, now);
    SettledAlone(cfg, plain, Rings(marked, b.settled), key, pb, strays, ch.order, ch.victims, now);
    SizeAfterRemove(b.pending, key);
  }

  lemma EnumeratesAmong(order: seq<ContentKey>, pb: PendingBase)
    requires Enumerates(order, pb)
    ensures Among(order, pb)
  {
  }

  lemma OldestHeld(cfg: Config, b: Bench, key: BaseKey, now: Time, ch: Choice)
    requires Usable(b, key, ch) && Oldest(cfg, b, key, now, ch)
    ensures VictimsHeld(cfg, Rings(b.windows, b.settled), key, b.pending[key], Strays(cfg, b.pending[key]), ch.order,
                        ch.victims, now)
    ensures BasesFull(cfg, b.bases) ==> ch.baseVictim in b.bases
  {
    hide FinalizeAll, BasesFull, SettledFull;
  }

  lemma PlaceSizes(cfg: Config, b: Bench, e: MarketEvent)
    requires SizesOk(cfg, b) && !PendingFull(cfg, b, e.key.Base())
    ensures SizesOk(cfg, Place(b, e))
  {
    hide PlacedBase, PlacedCounters, JoinedBase, TooManyContents;
    SizeAfterSet(b.pending, e.key.Base(), PlacedBase(b, e));
  }

  lemma PruneSizes(cfg: Config, b: Bench, now: Time)
    requires SizesOk(cfg, b)
    ensures SizesOk(cfg, Prune(cfg, b, now))
  {
    var after := Prune(cfg, b, now);
    SmallerMap(after.bases, b.bases);
    SmallerMap(after.settled, b.settled);
  }

  lemma {:induction false} SmallerMap<K, V>(small: map<K, V>, large: map<K, V>)
    requires small.Keys <= large.Keys
    ensures |small| <= |large|
  {
    SmallerSet(small.Keys, large.Keys);
  }

  lemma {:induction false} SmallerSet<K>(a: set<K>, b: set<K>)
    requires a <= b
    ensures |a| <= |b|
    decreases a
  {
    if a != {} {
      var x :| x in a;
      SmallerSet(a - {x}, b - {x});
    }
  }

  // ---------- nothing is discarded silently ----------

  ghost predicate Shown(before: CoinWindows, after: CoinWindows, coin: Coin) {
    WindowOf(after, coin).stateEvictions > WindowOf(before, coin).stateEvictions
  }

  ghost predicate NeverFewer(before: CoinWindows, after: CoinWindows) {
    forall coin :: WindowOf(after, coin).stateEvictions >= WindowOf(before, coin).stateEvictions
  }

  lemma FinalizeWindowEvictions(cfg: Config, w: Window, key: EventKey, first: Time, kept: Arrivals,
                                strays: set<Provider>, now: Time)
    ensures FinalizeWindow(cfg, w, key, first, kept, strays, now).stateEvictions == w.stateEvictions
  {
    hide SettledAt, Complete, Admit, Insert, LatenciesOf, CoverageOf;
  }

  /** A settled key that disappears while a base is finalized shows in its coin's evictions. */
  lemma {:induction false} FinalizeAllShows(cfg: Config, r: Rings, k: BaseKey, pb: PendingBase, strays: set<Provider>,
                                            order: seq<ContentKey>, victims: seq<EventKey>, now: Time)
    requires Among(order, pb) && |victims| == |order|
    ensures var after := FinalizeAll(cfg, r, k, pb, strays, order, victims, now);
            && NeverFewer(r.windows, after.windows)
            && forall j <- r.settled :: j !in after.settled ==> Shown(r.windows, after.windows, j.coin)
    decreases |order|
  {
    hide FinalizeWindow, OnTime, Canonical, SettledAt, SettledFull, ActiveIn;
    if order != [] {
      var n := |order| - 1;
      FinalizeAllShows(cfg, r, k, pb, strays, order[..n], victims[..n], now);
      var before := FinalizeAll(cfg, r, k, pb, strays, order[..n], victims[..n], now);
      var c := order[n];
      FinalizeWindowEvictions(cfg, WindowOf(before.windows, k.coin), KeyOf(k, c), pb.candidates[c].first,
                              OnTime(cfg, pb, c), strays, now);
    }
  }

  /** Every tombstone, settled key or open base that cap pressure discards shows in the evictions of
      its coin, which never decrease. */
  lemma SettleShows(cfg: Config, b: Bench, key: BaseKey, now: Time, evicted: bool, ch: Choice)
    requires Usable(b, key, ch)
    ensures var after := Settle(cfg, b, key, now, evicted, ch);
            && NeverFewer(b.windows, after.windows)
            && (forall j <- b.bases :: j !in after.bases ==> Shown(b.windows, after.windows, j.coin))
            && (forall j <- b.settled :: j !in after.settled ==> Shown(b.windows, after.windows, j.coin))
            && (evicted ==> Shown(b.windows, after.windows, key.coin))
  {
    hide FinalizeAll, SettleCounters, BasesFull;
    var sealed := SealBaseWindows(cfg, b.windows, b.bases, now, ch.baseVictim);
    var marked := if evicted then BumpEviction(sealed, key.coin, now) else sealed;
    FinalizeAllShows(cfg, Rings(marked, b.settled), key, b.pending[key], Strays(cfg, b.pending[key]), ch.order,
                     ch.victims, now);
  }
}
