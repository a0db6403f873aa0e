/** What a tick keeps and what it lets go, `tick` and `prune` of `src/benchmark.rs`. */
module Retention {
  import opened Common
  import opened Model
  import opened Windows
  import opened Cohorts

  /** `r` is `ring` without what is older than `window`: every copy of anything younger is kept. */
  ghost predicate KeepsYounger<T(!new)>(ring: seq<Stamped<T>>, r: seq<Stamped<T>>, now: Time, window: nat) {
    && (forall x :: multiset(r)[x] == if now <= x.at + window then multiset(ring)[x] else 0)
    && (Sorted(ring) ==> Sorted(r))
  }

  lemma RetainKeepsYounger<T(!new)>(ring: seq<Stamped<T>>, now: Time, window: nat)
    ensures KeepsYounger(ring, Retain(ring, now, window), now, window)
  {
    hide Sorted, Retain;
    forall x
      ensures multiset(Retain(ring, now, window))[x] == if now <= x.at + window then multiset(ring)[x] else 0
    {
      RetainKeeps(ring, now, window, x);
    }
    if Sorted(ring) {
      RetainKeepsSorted(ring, now, window);
    }
  }

  /** After a tick each ring holds what it held once the bases due were settled, less what is older than
      the rolling window; so do the tombstones and the settled keys; and nothing else has changed. */
  lemma TickKeepsTheWindow(cfg: Config, b: Bench, now: Time, keys: seq<BaseKey>, chs: seq<Choice>, at: Coin)
    requires |chs| == |keys| && AllUsable(cfg, b, now, keys, chs)
    ensures var s, t := SettleEach(cfg, b, now, keys, chs), Tick(cfg, b, now, keys, chs);
            var v, w := WindowOf(s.windows, at), WindowOf(t.windows, at);
            && KeepsYounger(v.cohorts, w.cohorts, now, cfg.rollingWindow)
            && KeepsYounger(v.coverage, w.coverage, now, cfg.rollingWindow)
            && w.(cohorts := v.cohorts, coverage := v.coverage) == v
            && t.pending == s.pending && t.counters == s.counters && t.windows.Keys == s.windows.Keys
    ensures var s, t := SettleEach(cfg, b, now, keys, chs), Tick(cfg, b, now, keys, chs);
            && (forall k :: k in t.bases <==> k in s.bases && now <= s.bases[k] + cfg.rollingWindow)
            && (forall k <- t.bases :: t.bases[k] == s.bases[k])
            && (forall k :: k in t.settled <==> k in s.settled && now <= s.settled[k].at + cfg.rollingWindow)
            && (forall k <- t.settled :: t.settled[k] == s.settled[k])
  {
    hide AllUsable, SettleEach, Retain, KeepsYounger;
    var s := SettleEach(cfg, b, now, keys, chs);
    PrunedKeeps(cfg, s, now, at);
  }

  lemma PrunedKeeps(cfg: Config, s: Bench, now: Time, at: Coin)
    ensures var v, w := WindowOf(s.windows, at), WindowOf(Prune(cfg, s, now).windows, at);
            && KeepsYounger(v.cohorts, w.cohorts, now, cfg.rollingWindow)
            && KeepsYounger(v.coverage, w.coverage, now, cfg.rollingWindow)
            && w.(cohorts := v.cohorts, coverage := v.coverage) == v
  {
    hide Retain, KeepsYounger;
    var v := WindowOf(s.windows, at);
    RetainKeepsYounger(v.cohorts, now, cfg.rollingWindow);
    RetainKeepsYounger(v.coverage, now, cfg.rollingWindow);
    NothingRetained(now, cfg.rollingWindow);
  }

  lemma NothingRetained(now: Time, window: nat)
    ensures PruneWindow(EMPTY_WINDOW, now, window) == EMPTY_WINDOW
  {
  }

  lemma {:induction false} EachLeaves(cfg: Config, b: Bench, now: Time, keys: seq<BaseKey>, chs: seq<Choice>)
    requires |chs| == |keys| && AllUsable(cfg, b, now, keys, chs)
    ensures SettleEach(cfg, b, now, keys, chs).pending == b.pending - (set k | k in keys)
    decreases |keys|
  {
    hide Settle, Usable, Oldest;
    if keys != [] {
      SettleTakesOne(cfg, b, keys[0], now, chs[0]);
      EachLeaves(cfg, Settle(cfg, b, keys[0], now, false, chs[0]), now, keys[1..], chs[1..]);
    }
  }

  lemma SettleTakesOne(cfg: Config, b: Bench, key: BaseKey, now: Time, ch: Choice)
    requires Usable(b, key, ch)
    ensures Settle(cfg, b, key, now, false, ch).pending == b.pending - {key}
  {
    hide SettleRings, SettleCounters, SealBase;
  }

  /** A tick settles exactly the bases first seen a cohort timeout ago or more; every other stays open
      with what it holds. */
  lemma TickSettlesTheOverdue(cfg: Config, b: Bench, now: Time, keys: seq<BaseKey>, chs: seq<Choice>)
    requires Expired(cfg, b, now, keys) && |chs| == |keys| && AllUsable(cfg, b, now, keys, chs)
    ensures forall k :: k in keys <==> k in b.pending && Since(now, b.pending[k].first) >= cfg.cohortTimeout
    ensures Tick(cfg, b, now, keys, chs).pending == b.pending - (set k | k in keys)
  {
    hide AllUsable, SettleEach;
    EachLeaves(cfg, b, now, keys, chs);
    forall k
      ensures k in keys <==> k in b.pending && Since(now, b.pending[k].first) >= cfg.cohortTimeout
    {
      assert Overdue(cfg, b, k, now) <==> k in keys;
    }
  }
}
