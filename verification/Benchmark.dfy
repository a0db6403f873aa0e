/** `Benchmark` of `src/benchmark.rs` as the source has it: fields updated in place, loops over maps in
    whatever order they come. Every method is tied to the engine's functions. */
module Engine {
  import opened Common
  import opened Model
  import opened Windows
  import opened Cohorts
  import opened SettleLaws
  import opened Conservation
  import opened Admission
  import opened Bounds
  import opened Schedule

  /** `min_by_key`: some key with the least time. */
  method Earliest<K(==, !new)>(times: map<K, Time>) returns (least: K)
    requires times != map[]
    ensures least in times && forall k <- times :: times[least] <= times[k]
  {
    var order := Listed(times.Keys);
    assert times.Keys != {};
    assert order != [] by {
      ghost var k :| k in times.Keys;
      assert k in order;
    }
    least := order[0];
    assert least in times;
    for i := 1 to |order|
      invariant least in times && forall j :: 0 <= j < i ==> times[least] <= times[order[j]]
    {
      if times[order[i]] < times[least] {
        least := order[i];
      }
    }
  }

  // ---------- boards ----------

  lemma BoardsEqual(a: Board, b: Board)
    requires forall p: Provider :: a[p] == b[p]
    ensures a == b
  {
    forall i | 0 <= i < PROVIDERS
      ensures a[i] == b[i]
    {
      var p: Provider := i;
    }
  }

  lemma CreditTwice(c: Counters, coin: Coin, a: Board, b: Board)
    ensures CreditBoard(CreditBoard(c, coin, a), coin, b) == CreditBoard(c, coin, PlusBoard(a, b))
  {
    hide Tally.Plus;
    var x := BoardOf(c, coin);
    forall p: Provider
      ensures PlusBoard(PlusBoard(x, a), b)[p] == PlusBoard(x, PlusBoard(a, b))[p]
    {
      PlusAssoc(x[p], a[p], b[p]);
    }
    BoardsEqual(PlusBoard(PlusBoard(x, a), b), PlusBoard(x, PlusBoard(a, b)));
  }

  lemma PlusAssoc(a: Tally, b: Tally, c: Tally)
    ensures a.Plus(b).Plus(c) == a.Plus(b.Plus(c))
  {
  }

  lemma PlusNothing(a: Board)
    ensures PlusBoard(a, NO_BOARD) == a
  {
    hide Tally.Plus;
    forall p: Provider
      ensures PlusBoard(a, NO_BOARD)[p] == a[p]
    {
      PlusZero(a[p]);
    }
    BoardsEqual(PlusBoard(a, NO_BOARD), a);
  }

  lemma CreditNothing(c: Counters, coin: Coin)
    requires coin in c
    ensures CreditBoard(c, coin, NO_BOARD) == c
  {
    hide PlusBoard;
    PlusNothing(c[coin]);
  }

  // ---------- crediting providers one after the other ----------

  function Seen(ps: seq<Provider>): set<Provider> {
    set p | p in ps
  }

  /** `b` for the providers in `seen`, nothing for the others. */
  function Only(b: Board, seen: set<Provider>): (r: Board)
    ensures forall p: Provider :: r[p] == if p in seen then b[p] else ZERO
  {
    seq(PROVIDERS, i requires 0 <= i < PROVIDERS => if i in seen then b[i] else ZERO)
  }

  lemma SeeOne(ps: seq<Provider>, i: nat)
    requires i < |ps| && Distinct(ps)
    ensures Seen(ps[..i + 1]) == Seen(ps[..i]) + {ps[i]} && ps[i] !in Seen(ps[..i])
  {
  }

  lemma OnlyMore(b: Board, seen: set<Provider>, p: Provider)
    requires p !in seen
    ensures Only(b, seen + {p}) == PlusBoard(Only(b, seen), Marks({p}, b[p]))
    ensures b[p] == ZERO ==> Only(b, seen + {p}) == Only(b, seen)
  {
    hide Tally.Plus;
    var sum := PlusBoard(Only(b, seen), Marks({p}, b[p]));
    forall q: Provider
      ensures sum[q] == Only(b, seen + {p})[q]
    {
      PlusZero(b[q]);
      PlusZero(ZERO);
      ZeroPlus(b[q]);
    }
    BoardsEqual(sum, Only(b, seen + {p}));
    if b[p] == ZERO {
      BoardsEqual(Only(b, seen + {p}), Only(b, seen));
    }
  }

  lemma ZeroPlus(t: Tally)
    ensures ZERO.Plus(t) == t
  {
  }

  lemma OnlyAll(b: Board, seen: set<Provider>)
    requires forall p: Provider :: p !in seen ==> b[p] == ZERO
    ensures Only(b, seen) == b
  {
    BoardsEqual(Only(b, seen), b);
  }

  lemma OnlyNone(b: Board)
    ensures Only(b, {}) == NO_BOARD
  {
    BoardsEqual(Only(b, {}), NO_BOARD);
  }

  /** Crediting one more provider with its share of `b`. */
  lemma CreditOneMore(c: Counters, coin: Coin, b: Board, seen: set<Provider>, p: Provider)
    requires p !in seen
    ensures Credit(CreditBoard(c, coin, Only(b, seen)), coin, p, b[p]) == CreditBoard(c, coin, Only(b, seen + {p}))
    ensures b[p] == ZERO ==> CreditBoard(c, coin, Only(b, seen + {p})) == CreditBoard(c, coin, Only(b, seen))
  {
    hide CreditBoard, Marks, PlusBoard, Only;
    CreditTwice(c, coin, Only(b, seen), Marks({p}, b[p]));
    OnlyMore(b, seen, p);
  }

  lemma CreditStart(c: Counters, coin: Coin, b: Board)
    requires coin in c
    ensures CreditBoard(c, coin, Only(b, {})) == c
  {
    hide CreditBoard, Only;
    OnlyNone(b);
    CreditNothing(c, coin);
  }

  lemma ActiveAreSeen(cfg: Config, b: Board)
    requires forall p: Provider :: !cfg.Active(p) ==> b[p] == ZERO
    ensures Only(b, Seen(cfg.Providers())) == b
  {
    hide Only, Config.Providers;
    OnlyAll(b, Seen(cfg.Providers()));
  }

  // ---------- the phases of `settle` ----------

  lemma SharesStep(cfg: Config, pb: PendingBase, strays: set<Provider>, phase: Phase, order: seq<ContentKey>, n: nat)
    requires Among(order, pb) && n < |order|
    ensures Shares(cfg, pb, strays, phase, order[..n + 1])
            == PlusBoard(Shares(cfg, pb, strays, phase, order[..n]), Share(cfg, pb, strays, phase, order[n]))
  {
    hide PlusBoard, Share;
    assert order[..n + 1][..n] == order[..n];
  }

  /** Crediting one candidate's share takes the counters to the next prefix of the order. */
  lemma CreditShare(cfg: Config, c: Counters, coin: Coin, pb: PendingBase, strays: set<Provider>, phase: Phase,
                    order: seq<ContentKey>, n: nat)
    requires Among(order, pb) && n < |order|
    ensures CreditBoard(CreditBoard(c, coin, Shares(cfg, pb, strays, phase, order[..n])), coin,
                        Share(cfg, pb, strays, phase, order[n]))
            == CreditBoard(c, coin, Shares(cfg, pb, strays, phase, order[..n + 1]))
    ensures Share(cfg, pb, strays, phase, order[n]) == NO_BOARD ==>
              CreditBoard(c, coin, Shares(cfg, pb, strays, phase, order[..n]))
              == CreditBoard(c, coin, Shares(cfg, pb, strays, phase, order[..n + 1]))
  {
    hide PlusBoard, Share, CreditBoard, Shares;
    SharesStep(cfg, pb, strays, phase, order, n);
    CreditTwice(c, coin, Shares(cfg, pb, strays, phase, order[..n]), Share(cfg, pb, strays, phase, order[n]));
    PlusNothing(Shares(cfg, pb, strays, phase, order[..n]));
  }

  lemma CreditNone(cfg: Config, c: Counters, coin: Coin, pb: PendingBase, strays: set<Provider>, phase: Phase,
                   order: seq<ContentKey>)
    requires coin in c && Among(order, pb)
    ensures CreditBoard(c, coin, Shares(cfg, pb, strays, phase, order[..0])) == c
  {
    hide CreditBoard;
    CreditNothing(c, coin);
  }

  /** The providers that the first `n` candidates leave straying. */
  ghost function StraysIn(cfg: Config, pb: PendingBase, order: seq<ContentKey>): set<Provider>
    requires Among(order, pb)
  {
    set c, p: Provider | c in order && !Canonical(cfg, pb, c) && p in OnTime(cfg, pb, c) && cfg.Active(p) :: p
  }

  lemma StraysStep(cfg: Config, pb: PendingBase, order: seq<ContentKey>, n: nat)
    requires Among(order, pb) && n < |order|
    ensures StraysIn(cfg, pb, order[..n + 1])
            == StraysIn(cfg, pb, order[..n])
               + if Canonical(cfg, pb, order[n]) then {} else ActiveIn(cfg, OnTime(cfg, pb, order[n]))
  {
    hide Canonical, OnTime, Config.Active;
    var c := order[n];
    assert order[..n + 1] == order[..n] + [c];
    forall p: Provider
      ensures p in StraysIn(cfg, pb, order[..n + 1])
              <==> p in StraysIn(cfg, pb, order[..n])
                   || (!Canonical(cfg, pb, c) && p in ActiveIn(cfg, OnTime(cfg, pb, c)))
    {
      assert c in order[..n + 1];
    }
  }

  lemma NoStrays(cfg: Config, pb: PendingBase, order: seq<ContentKey>)
    requires Among(order, pb)
    ensures Among(order[..0], pb) && StraysIn(cfg, pb, order[..0]) == {}
  {
    hide Canonical, OnTime, Config.Active;
  }

  lemma NotYet(order: seq<ContentKey>, n: nat)
    requires Distinct(order) && n < |order|
    ensures order[n] !in order[..n]
  {
  }

  lemma StraysAll(cfg: Config, pb: PendingBase, order: seq<ContentKey>)
    requires Enumerates(order, pb)
    ensures StraysIn(cfg, pb, order) == Strays(cfg, pb)
  {
    hide Canonical, OnTime, Config.Active, Distinct;
  }

  lemma {:induction false} OldestExists(settled: map<EventKey, Settled>)
    requires settled != map[]
    ensures exists k :: OldestSettled(settled, k)
    decreases |settled|
  {
    assert settled.Keys != {};
    var k :| k in settled.Keys;
    var rest := settled - {k};
    assert forall j <- settled :: j == k || (j in rest && rest[j] == settled[j]);
    if rest == map[] {
      assert OldestSettled(settled, k);
    } else {
      OldestExists(rest);
      var m :| OldestSettled(rest, m);
      assert OldestSettled(settled, k) || OldestSettled(settled, m);
    }
  }

  ghost function OldestKey(cfg: Config, settled: map<EventKey, Settled>, default: EventKey): (k: EventKey)
    ensures SettledFull(cfg, settled) ==> OldestSettled(settled, k)
  {
    if SettledFull(cfg, settled) then
      OldestExists(settled);
      var k :| OldestSettled(settled, k);
      k
    else default
  }

  lemma NothingFinal(cfg: Config, r: Rings, base: BaseKey, pb: PendingBase, strays: set<Provider>,
                     order: seq<ContentKey>, now: Time)
    requires Among(order, pb)
    ensures Among(order[..0], pb) && FinalizeAll(cfg, r, base, pb, strays, order[..0], [], now) == r
    ensures PickedOldest(cfg, r, base, pb, strays, order[..0], [], now)
  {
  }

  /** Cap pressure picked the oldest settled key before each of the candidates in `order`. */
  ghost predicate PickedOldest(cfg: Config, r: Rings, base: BaseKey, pb: PendingBase, strays: set<Provider>,
                               order: seq<ContentKey>, victims: seq<EventKey>, now: Time)
    requires Among(order, pb) && |victims| == |order|
  {
    forall n :: 0 <= n < |order| ==>
      var m := FinalizeAll(cfg, r, base, pb, strays, order[..n], victims[..n], now).settled;
      SettledFull(cfg, m) ==> OldestSettled(m, victims[n])
  }

  lemma PickedMore(cfg: Config, r: Rings, base: BaseKey, pb: PendingBase, strays: set<Provider>, order: seq<ContentKey>,
                   victims: seq<EventKey>, now: Time, c: ContentKey, v: EventKey)
    requires Among(order + [c], pb) && |victims| == |order|
    requires PickedOldest(cfg, r, base, pb, strays, order, victims, now)
    requires var m := FinalizeAll(cfg, r, base, pb, strays, order, victims, now).settled;
             SettledFull(cfg, m) ==> OldestSettled(m, v)
    ensures PickedOldest(cfg, r, base, pb, strays, order + [c], victims + [v], now)
  {
    hide FinalizeAll, SettledFull, OldestSettled;
    var order', victims' := order + [c], victims + [v];
    forall n | 0 <= n < |order'|
      ensures var m := FinalizeAll(cfg, r, base, pb, strays, order'[..n], victims'[..n], now).settled;
              SettledFull(cfg, m) ==> OldestSettled(m, victims'[n])
    {
      assert order'[..n] == if n == |order| then order else order[..n];
      assert victims'[..n] == if n == |order| then victims else victims[..n];
    }
  }

  lemma FinalizeAllStep(cfg: Config, r: Rings, base: BaseKey, pb: PendingBase, strays: set<Provider>,
                        order: seq<ContentKey>, victims: seq<EventKey>, now: Time, c: ContentKey, v: EventKey)
    requires Among(order + [c], pb) && |victims| == |order|
    ensures var before := FinalizeAll(cfg, r, base, pb, strays, order, victims, now);
            FinalizeAll(cfg, r, base, pb, strays, order + [c], victims + [v], now)
            == if Canonical(cfg, pb, c) then
                 FinalizeOne(cfg, before, KeyOf(base, c), pb.candidates[c].first, OnTime(cfg, pb, c), strays, now, v)
               else before
  {
    hide FinalizeOne, Canonical, OnTime;
    assert (order + [c])[..|order|] == order && (victims + [v])[..|victims|] == victims;
  }

  /** The settled keys evolve the same way whatever the windows hold, so the picks fit the base too. */
  lemma PicksFit(cfg: Config, b: Bench, key: BaseKey, now: Time, marked: CoinWindows, ch: Choice)
    requires Usable(b, key, ch)
    requires BasesFull(cfg, b.bases) ==> OldestBase(b.bases, ch.baseVictim)
    requires PickedOldest(cfg, Rings(marked, b.settled), key, b.pending[key], Strays(cfg, b.pending[key]), ch.order,
                          ch.victims, now)
    ensures Oldest(cfg, b, key, now, ch)
  {
    hide FinalizeAll, SettledFull, OldestSettled, Strays, Distinct, BasesFull, OldestBase;
    var pb, strays := b.pending[key], Strays(cfg, b.pending[key]);
    forall n | 0 <= n < |ch.order|
      ensures FinalizeAll(cfg, Rings(b.windows, b.settled), key, pb, strays, ch.order[..n], ch.victims[..n],
                          now).settled
              == FinalizeAll(cfg, Rings(marked, b.settled), key, pb, strays, ch.order[..n], ch.victims[..n],
                             now).settled
    {
      SettledAlone(cfg, Rings(b.windows, b.settled), Rings(marked, b.settled), key, pb, strays, ch.order[..n],
                   ch.victims[..n], now);
    }
  }

  lemma SealsOnly(cfg: Config, b: Bench, key: BaseKey, now: Time, evicted: bool, ch: Choice, other: BaseKey)
    requires Usable(b, key, ch) && other !in b.bases && other !in b.pending
    ensures other !in Cohorts.Settle(cfg, b, key, now, evicted, ch).bases
  {
    hide SettleRings, SettleCounters, Enumerates, BasesFull;
  }

  /** Settling one more key after the others. */
  lemma {:induction false} SettleMore(cfg: Config, b: Bench, now: Time, keys: seq<BaseKey>, chs: seq<Choice>,
                                      k: BaseKey, ch: Choice)
    requires |chs| == |keys| && AllUsable(cfg, b, now, keys, chs)
    requires var after := SettleEach(cfg, b, now, keys, chs); Usable(after, k, ch) && Oldest(cfg, after, k, now, ch)
    ensures AllUsable(cfg, b, now, keys + [k], chs + [ch])
    ensures SettleEach(cfg, b, now, keys + [k], chs + [ch])
            == Cohorts.Settle(cfg, SettleEach(cfg, b, now, keys, chs), k, now, false, ch)
    decreases |keys|
  {
    hide Usable, Oldest, Cohorts.Settle;
    if keys == [] {
      assert ([] + [k])[1..] == [] && ([] + [ch])[1..] == [];
    } else {
      assert (keys + [k])[1..] == keys[1..] + [k] && (chs + [ch])[1..] == chs[1..] + [ch];
      SettleMore(cfg, Cohorts.Settle(cfg, b, keys[0], now, false, chs[0]), now, keys[1..], chs[1..], k, ch);
    }
  }

  lemma AllApart(keys: seq<BaseKey>, i: nat)
    requires Distinct(keys) && i < |keys|
    ensures forall j :: i < j < |keys| ==> keys[j] != keys[i]
  {
  }

  lemma SettlesNone(cfg: Config, b: Bench, now: Time)
    ensures AllUsable(cfg, b, now, [], []) && SettleEach(cfg, b, now, [], []) == b
  {
  }

  lemma PruneWellFormed(cfg: Config, b: Bench, now: Time)
    requires WellFormed(cfg, b)
    ensures WellFormed(cfg, Prune(cfg, b, now))
  {
    hide BaseOk;
  }

  lemma NotListed(coins: seq<Coin>, i: nat)
    requires Distinct(coins) && i < |coins|
    ensures coins[i] in coins && coins[i] !in coins[..i] && coins[..i + 1] == coins[..i] + [coins[i]]
  {
  }

  lemma WellFormedReads(cfg: Config, b: Bench, c: Bench)
    requires WellFormed(cfg, b) && c.pending == b.pending && c.bases == b.bases
    ensures WellFormed(cfg, c)
  {
    hide BaseOk;
  }

  /** The outcome counts of each coin's rows. */
  function OutcomesOf(cfg: Config, w: CoinWindows, now: Time): map<Coin, OutcomeCounts>
    requires cfg.coins <= w.Keys
  {
    map c | c in cfg.coins :: Published(cfg, w[c].cohorts, now)
  }

  datatype Report = Report(interval: Interval, outcomes: map<Coin, OutcomeCounts>)

  lemma NothingUnderflows(cfg: Config, key: BaseKey, pb: PendingBase, c: ContentKey)
    requires BaseOk(cfg, key, pb) && c in pb.candidates
    ensures var kept := OnTime(cfg, pb, c);
            forall p: Provider :: p in kept && cfg.Active(p) ==> KeyOf(key, c).eventMs <= kept[p].wall
  {
    hide BaseOk, Config.Active, OnTime;
    var kept := OnTime(cfg, pb, c);
    forall p: Provider | p in kept && cfg.Active(p)
      ensures key.eventMs <= kept[p].wall
    {
      KeptInTime(cfg, key, pb, c, p);
    }
  }

  class Benchmark {
    const cfg: Config
    var pending: map<BaseKey, PendingBase>
    var settledBases: map<BaseKey, Time>
    var settled: map<EventKey, Settled>
    var counters: Counters
    var windows: CoinWindows
    var cursor: Cursor

    ghost function State(): Bench
      reads this
    {
      Bench(pending, settledBases, settled, counters, windows)
    }

    /** Every coin in use is registered, so no lookup can panic. */
    predicate Registered()
      reads this
    {
      && cfg.coins <= counters.Keys && cfg.coins <= windows.Keys
      && (forall k <- pending :: k.coin in cfg.coins)
      && (forall k <- settledBases :: k.coin in cfg.coins)
      && (forall k <- settled :: k.coin in cfg.coins)
    }

    constructor (cfg: Config, now: Time, wall: nat)
      ensures this.cfg == cfg && Registered() && cursor == Cursor(now, wall, false, None)
      ensures State() == Bench(map[], map[], map[], map c | c in cfg.coins :: NO_BOARD,
                               map c | c in cfg.coins :: EMPTY_WINDOW)
    {
      this.cfg := cfg;
      cursor := Cursor(now, wall, false, None);
      pending, settledBases, settled := map[], map[], map[];
      counters := map c | c in cfg.coins :: NO_BOARD;
      windows := map c | c in cfg.coins :: EMPTY_WINDOW;
    }

    /** `counters_mut(provider, coin)` and one increment. */
    method Count(coin: Coin, p: Provider, t: Tally)
      requires coin in counters
      modifies `counters
      ensures counters == Credit(old(counters), coin, p, t)
      ensures counters.Keys == old(counters.Keys)
    {
      counters := Credit(counters, coin, p, t);
    }

    // ---------- settling ----------

    method InsertSettledBase(key: BaseKey, now: Time) returns (ghost victim: BaseKey)
      requires Registered() && key.coin in cfg.coins
      modifies `settledBases, `windows
      ensures Registered()
      ensures settledBases == SealBase(cfg, old(settledBases), key, now, victim)
      ensures windows == SealBaseWindows(cfg, old(windows), old(settledBases), now, victim)
      ensures BasesFull(cfg, old(settledBases)) ==> OldestBase(old(settledBases), victim)
      ensures if |old(settledBases)| < cfg.maxSettled || old(settledBases) == map[] then
                settledBases == old(settledBases)[key := now] && windows == old(windows)
              else
                && victim in old(settledBases) && settledBases == (old(settledBases) - {victim})[key := now]
                && forall k <- old(settledBases) :: old(settledBases)[victim] <= old(settledBases)[k]
    {
      victim := key;
      if |settledBases| >= cfg.maxSettled && settledBases != map[] {
        var oldest := Earliest(settledBases);
        victim := oldest;
        settledBases := settledBases - {oldest};
        var w := windows[oldest.coin];
        windows := windows[oldest.coin := w.(stateEvictions := w.stateEvictions + 1, lastLoss := Some(now))];
      }
      settledBases := settledBases[key := now];
    }

    method InsertSettled(key: EventKey, s: Settled) returns (ghost victim: EventKey)
      requires Registered() && key.coin in cfg.coins
      modifies `settled, `windows
      ensures Registered()
      ensures Rings(windows, settled) == SealKey(cfg, Rings(old(windows), old(settled)), key, s, victim)
      ensures SettledFull(cfg, old(settled)) ==> OldestSettled(old(settled), victim)
      ensures if |old(settled)| < cfg.maxSettled || old(settled) == map[] then
                settled == old(settled)[key := s] && windows == old(windows)
              else
                && victim in old(settled) && settled == (old(settled) - {victim})[key := s]
                && forall k <- old(settled) :: old(settled)[victim].at <= old(settled)[k].at
    {
      victim := key;
      if |settled| >= cfg.maxSettled && settled != map[] {
        var times := map k | k in settled :: settled[k].at;
        assert times.Keys == settled.Keys;
        var oldest := Earliest(times);
        victim := oldest;
        settled := settled - {oldest};
        var w := windows[oldest.coin];
        windows := windows[oldest.coin := w.(stateEvictions := w.stateEvictions + 1, lastLoss := Some(s.at))];
      }
      settled := settled[key := s];
    }

    /** The deadline loop of `settle` for one candidate. */
    method ClearLateArrivals(coin: Coin, pb: PendingBase, c: ContentKey) returns (kept: Arrivals)
      requires coin in counters && c in pb.candidates
      modifies `counters
      ensures kept == OnTime(cfg, pb, c)
      ensures counters == CreditBoard(old(counters), coin, Marks(LateBy(cfg, pb, c), LATE))
      ensures counters.Keys == old(counters.Keys)
    {
      hide CreditBoard, Only, Marks, Credit, Config.Providers, Late, Distinct;
      var ps := cfg.Providers();
      ConfigIsSound(cfg);
      ghost var b := Marks(LateBy(cfg, pb, c), LATE);
      kept := pb.candidates[c].arrivals;
      CreditStart(counters, coin, b);
      assert Seen(ps[..0]) == {};
      for i := 0 to |ps|
        invariant counters == CreditBoard(old(counters), coin, Only(b, Seen(ps[..i])))
        invariant counters.Keys == old(counters.Keys)
        invariant kept == pb.candidates[c].arrivals - (LateBy(cfg, pb, c) * Seen(ps[..i]))
      {
        SeeOne(ps, i);
        CreditOneMore(old(counters), coin, b, Seen(ps[..i]), ps[i]);
        assert ps[i] in ps && cfg.Active(ps[i]);
        if ps[i] in kept && Late(cfg, pb, kept[ps[i]]) {
          assert ps[i] in LateBy(cfg, pb, c);
          kept := kept - {ps[i]};
          Count(coin, ps[i], LATE);
        }
      }
      assert ps[..|ps|] == ps;
      assert LateBy(cfg, pb, c) * Seen(ps) == LateBy(cfg, pb, c);
      ActiveAreSeen(cfg, b);
    }

    /** The loop over the providers of one candidate that is not canonical. */
    method CountOrphaned(coin: Coin, kept: Arrivals, strays: set<Provider>) returns (seen: set<Provider>)
      requires coin in counters
      modifies `counters
      ensures seen == strays + ActiveIn(cfg, kept)
      ensures counters == CreditBoard(old(counters), coin, Marks(ActiveIn(cfg, kept), ORPHANED))
      ensures counters.Keys == old(counters.Keys)
    {
      hide CreditBoard, Only, Marks, Credit, Config.Providers, Distinct;
      var ps := cfg.Providers();
      ConfigIsSound(cfg);
      ghost var b := Marks(ActiveIn(cfg, kept), ORPHANED);
      seen := strays;
      CreditStart(counters, coin, b);
      assert Seen(ps[..0]) == {};
      for i := 0 to |ps|
        invariant counters == CreditBoard(old(counters), coin, Only(b, Seen(ps[..i])))
        invariant counters.Keys == old(counters.Keys)
        invariant seen == strays + (ActiveIn(cfg, kept) * Seen(ps[..i]))
      {
        SeeOne(ps, i);
        CreditOneMore(old(counters), coin, b, Seen(ps[..i]), ps[i]);
        assert ps[i] in ps && cfg.Active(ps[i]);
        if ps[i] in kept {
          seen := seen + {ps[i]};
          Count(coin, ps[i], ORPHANED);
        }
      }
      assert ps[..|ps|] == ps;
      assert ActiveIn(cfg, kept) * Seen(ps) == ActiveIn(cfg, kept);
      ActiveAreSeen(cfg, b);
    }

    /** The scoring loop of `finalize_candidate`. */
    method ScoreProviders(coin: Coin, kept: Arrivals, strays: set<Provider>)
      returns (outcomes: map<Provider, CoverageOutcome>, matched: set<Provider>)
      requires coin in counters
      modifies `counters
      ensures forall key :: CoverageOf(cfg, key, kept, strays) == Coverage(key, outcomes)
      ensures matched == ActiveIn(cfg, kept)
      ensures counters == CreditBoard(old(counters), coin, FinalShare(cfg, kept, strays))
      ensures counters.Keys == old(counters.Keys)
    {
      hide CreditBoard, Only, Credit, Config.Providers, Distinct;
      var ps := cfg.Providers();
      ConfigIsSound(cfg);
      ghost var b := FinalShare(cfg, kept, strays);
      outcomes := map[0 := Missing, 1 := Missing, 2 := Missing, 3 := Missing, 4 := Missing, 5 := Missing];
      matched := {};
      CreditStart(counters, coin, b);
      assert Seen(ps[..0]) == {};
      for i := 0 to |ps|
        invariant counters == CreditBoard(old(counters), coin, Only(b, Seen(ps[..i])))
        invariant counters.Keys == old(counters.Keys)
        invariant matched == ActiveIn(cfg, kept) * Seen(ps[..i])
        invariant forall p: Provider :: p in outcomes
        invariant forall p: Provider :: outcomes[p] == if p in Seen(ps[..i]) then OutcomeOf(cfg, kept, strays, p)
                  else Missing
      {
        SeeOne(ps, i);
        var p := ps[i];
        CreditOneMore(old(counters), coin, b, Seen(ps[..i]), p);
        assert p in ps && cfg.Active(p);
        if p in kept {
          Count(coin, p, MATCHED);
          outcomes, matched := outcomes[p := Matched], matched + {p};
        } else if p in strays {
          Count(coin, p, MISMATCHED);
          outcomes := outcomes[p := Mismatch];
        } else {
          Count(coin, p, MISSED);
        }
      }
      assert ps[..|ps|] == ps;
      assert ActiveIn(cfg, kept) * Seen(ps) == ActiveIn(cfg, kept);
      ActiveAreSeen(cfg, b);
      assert forall p: Provider :: p in Seen(ps) <==> cfg.Active(p);
      assert outcomes == map p: Provider | 0 <= p < PROVIDERS :: OutcomeOf(cfg, kept, strays, p);
    }

    /** The latency loop of `finalize_candidate`; no subtraction can underflow. */
    method ReadLatencies(key: EventKey, kept: Arrivals) returns (latency: Latencies)
      requires Complete(cfg, kept)
      requires forall p: Provider :: p in kept && cfg.Active(p) ==> key.eventMs <= kept[p].wall
      ensures latency == LatenciesOf(cfg, key, kept)
    {
      hide Config.Providers;
      var ps := cfg.Providers();
      latency := [0, 0, 0, 0, 0, 0];
      for i := 0 to |ps|
        invariant forall p: Provider :: latency[p] == if p in Seen(ps[..i]) && p in kept
                  then Since(kept[p].wall, key.eventMs) else 0
      {
        var p := ps[i];
        assert p in ps && cfg.Active(p);
        assert Seen(ps[..i + 1]) == Seen(ps[..i]) + {p};
        latency := latency[p := kept[p].wall - key.eventMs];
      }
      assert ps[..|ps|] == ps;
      var all := LatenciesOf(cfg, key, kept);
      forall i | 0 <= i < PROVIDERS
        ensures latency[i] == all[i]
      {
        var p: Provider := i;
        assert p in Seen(ps) <==> cfg.Active(p);
      }
    }

    /** The two halves of `finalize_candidate` that change the coin's window. */
    method CommitWindow(key: EventKey, first: Time, kept: Arrivals, strays: set<Provider>,
                        outcomes: map<Provider, CoverageOutcome>, at: Time, now: Time)
      requires key.coin in windows && at == SettledAt(cfg, kept, now)
      requires CoverageOf(cfg, key, kept, strays) == Coverage(key, outcomes)
      requires forall p: Provider :: p in kept && cfg.Active(p) ==> key.eventMs <= kept[p].wall
      modifies `windows
      ensures windows == old(windows)[key.coin := FinalizeWindow(cfg, old(windows)[key.coin], key, first, kept, strays,
                                                                 now)]
    {
      hide Config.Providers, Admit, Insert, SettledAt, LatenciesOf, CoverageOf;
      var complete := Complete(cfg, kept);
      var w := AdmitCoverage(windows[key.coin], Stamped(at, Coverage(key, outcomes)), cfg.maxRolling, now);
      if complete {
        var latency := ReadLatencies(key, kept);
        w := AdmitCohort(w, at, key, latency, Since(at, first), cfg.maxRolling, now);
      }
      windows := windows[key.coin := w];
    }

    method FinalizeCandidate(key: EventKey, first: Time, kept: Arrivals, strays: set<Provider>, now: Time)
      returns (ghost victim: EventKey)
      requires Registered() && key.coin in cfg.coins
      requires forall p: Provider :: p in kept && cfg.Active(p) ==> key.eventMs <= kept[p].wall
      modifies `counters, `windows, `settled
      ensures Registered()
      ensures counters == CreditBoard(old(counters), key.coin, FinalShare(cfg, kept, strays))
      ensures Rings(windows, settled)
              == FinalizeOne(cfg, Rings(old(windows), old(settled)), key, first, kept, strays, now, victim)
      ensures SettledFull(cfg, old(settled)) ==> OldestSettled(old(settled), victim)
    {
      hide Config.Providers, CreditBoard, FinalShare, FinalizeWindow, SettledAt, CoverageOf, SealKey, OldestSettled,
        SettledFull;
      var at := SettledAt(cfg, kept, now);
      var outcomes, matched := ScoreProviders(key.coin, kept, strays);
      CommitWindow(key, first, kept, strays, outcomes, at, now);
      victim := InsertSettled(key, Settled(at, matched));
    }

    /** Whether a candidate's content is canonical, from what its base kept. */
    method IsCanonical(pb: PendingBase, c: ContentKey, kept: Arrivals) returns (yes: bool)
      requires c in pb.candidates && kept == OnTime(cfg, pb, c)
      ensures yes == Canonical(cfg, pb, c)
    {
      hide OnTime, Config.Providers;
      yes := if cfg.CanonicalByAnyArrival() then exists p: Provider :: cfg.Active(p) && p in kept
             else cfg.Reference() in kept;
    }

    method ClearLateAll(coin: Coin, pb: PendingBase, order: seq<ContentKey>, ghost strays: set<Provider>)
      returns (kept: map<ContentKey, Arrivals>)
      requires coin in counters && Among(order, pb)
      modifies `counters
      ensures counters.Keys == old(counters.Keys)
      ensures forall c <- order :: c in kept && kept[c] == OnTime(cfg, pb, c)
      ensures counters == CreditBoard(old(counters), coin, Shares(cfg, pb, strays, ClearLate, order))
    {
      hide CreditBoard, Shares, OnTime, LateBy;
      kept := map[];
      CreditNone(cfg, counters, coin, pb, strays, ClearLate, order);
      for n := 0 to |order|
        invariant counters.Keys == old(counters.Keys)
        invariant forall c <- order[..n] :: c in kept && kept[c] == OnTime(cfg, pb, c)
        invariant counters == CreditBoard(old(counters), coin, Shares(cfg, pb, strays, ClearLate, order[..n]))
      {
        CreditShare(cfg, old(counters), coin, pb, strays, ClearLate, order, n);
        var mine := ClearLateArrivals(coin, pb, order[n]);
        kept := kept[order[n] := mine];
        assert order[..n + 1] == order[..n] + [order[n]];
      }
      assert order[..|order|] == order;
    }

    method CanonicalAll(pb: PendingBase, order: seq<ContentKey>, kept: map<ContentKey, Arrivals>)
      returns (canonical: set<ContentKey>)
      requires Enumerates(order, pb) && forall c <- order :: c in kept && kept[c] == OnTime(cfg, pb, c)
      ensures forall c <- pb.candidates :: c in canonical <==> Canonical(cfg, pb, c)
    {
      hide OnTime, Canonical, Distinct;
      canonical := {};
      for n := 0 to |order|
        invariant canonical <= set c | c in order[..n]
        invariant forall c <- order[..n] :: c in canonical <==> Canonical(cfg, pb, c)
      {
        assert order[n] in order;
        assert order[n] !in order[..n] by { NotYet(order, n); }
        var yes := IsCanonical(pb, order[n], kept[order[n]]);
        if yes {
          canonical := canonical + {order[n]};
        }
        assert order[..n + 1] == order[..n] + [order[n]];
      }
      assert order[..|order|] == order;
    }

    method CountOrphansAll(coin: Coin, pb: PendingBase, order: seq<ContentKey>, kept: map<ContentKey, Arrivals>,
                           canonical: set<ContentKey>, ghost strays: set<Provider>)
      returns (seen: set<Provider>)
      requires coin in counters && Enumerates(order, pb)
      requires forall c <- order :: c in kept && kept[c] == OnTime(cfg, pb, c)
      requires forall c <- pb.candidates :: c in canonical <==> Canonical(cfg, pb, c)
      modifies `counters
      ensures counters.Keys == old(counters.Keys) && seen == Strays(cfg, pb)
      ensures counters == CreditBoard(old(counters), coin, Shares(cfg, pb, strays, CountOrphans, order))
    {
      hide CreditBoard, Shares, OnTime, Canonical, Distinct, StraysIn, Strays, ActiveIn, Marks;
      seen := {};
      CreditNone(cfg, counters, coin, pb, strays, CountOrphans, order);
      NoStrays(cfg, pb, order);
      for n := 0 to |order|
        invariant counters.Keys == old(counters.Keys)
        invariant seen == StraysIn(cfg, pb, order[..n])
        invariant counters == CreditBoard(old(counters), coin, Shares(cfg, pb, strays, CountOrphans, order[..n]))
      {
        var c := order[n];
        assert c in order;
        CreditShare(cfg, old(counters), coin, pb, strays, CountOrphans, order, n);
        StraysStep(cfg, pb, order, n);
        if c !in canonical {
          seen := CountOrphaned(coin, kept[c], seen);
        }
      }
      assert order[..|order|] == order;
      StraysAll(cfg, pb, order);
    }

    method FinalizeEach(key: BaseKey, pb: PendingBase, order: seq<ContentKey>, kept: map<ContentKey, Arrivals>,
                        canonical: set<ContentKey>, strays: set<Provider>, now: Time)
      returns (ghost victims: seq<EventKey>)
      requires Registered() && key.coin in cfg.coins && Enumerates(order, pb) && BaseOk(cfg, key, pb)
      requires forall c <- order :: c in kept && kept[c] == OnTime(cfg, pb, c)
      requires forall c <- pb.candidates :: c in canonical <==> Canonical(cfg, pb, c)
      modifies `counters, `windows, `settled
      ensures Registered() && |victims| == |order|
      ensures counters == CreditBoard(old(counters), key.coin, Shares(cfg, pb, strays, Finalize, order))
      ensures Rings(windows, settled)
              == FinalizeAll(cfg, Rings(old(windows), old(settled)), key, pb, strays, order, victims, now)
      ensures PickedOldest(cfg, Rings(old(windows), old(settled)), key, pb, strays, order, victims, now)
    {
      hide CreditBoard, Shares, OnTime, Canonical, Distinct, FinalizeAll, FinalizeOne, FinalShare, BaseOk, SettledFull,
        OldestSettled, PickedOldest;
      ghost var r := Rings(windows, settled);
      victims := [];
      CreditNone(cfg, counters, key.coin, pb, strays, Finalize, order);
      NothingFinal(cfg, r, key, pb, strays, order, now);
      for n := 0 to |order|
        invariant Registered() && |victims| == n
        invariant counters == CreditBoard(old(counters), key.coin, Shares(cfg, pb, strays, Finalize, order[..n]))
        invariant Rings(windows, settled) == FinalizeAll(cfg, r, key, pb, strays, order[..n], victims, now)
        invariant PickedOldest(cfg, r, key, pb, strays, order[..n], victims, now)
      {
        var c := order[n];
        assert c in order && c in pb.candidates;
        CreditShare(cfg, old(counters), key.coin, pb, strays, Finalize, order, n);
        assert order[..n + 1] == order[..n] + [c];
        ghost var v: EventKey;
        if c in canonical {
          NothingUnderflows(cfg, key, pb, c);
          v := FinalizeCandidate(KeyOf(key, c), pb.candidates[c].first, kept[c], strays, now);
        } else {
          v := OldestKey(cfg, settled, KeyOf(key, c));
        }
        PickedMore(cfg, r, key, pb, strays, order[..n], victims, now, c, v);
        FinalizeAllStep(cfg, r, key, pb, strays, order[..n], victims, now, c, v);
        victims := victims + [v];
      }
      assert order[..|order|] == order;
    }

    method MarkEvicted(coin: Coin, now: Time)
      requires Registered() && coin in cfg.coins
      modifies `windows
      ensures Registered() && windows == BumpEviction(old(windows), coin, now)
    {
      var w := windows[coin];
      windows := windows[coin := w.(stateEvictions := w.stateEvictions + 1, lastLoss := Some(now))];
    }

    /** The three phases over the candidates of a base that has left `pending`. */
    method SettleCandidates(key: BaseKey, pb: PendingBase, now: Time)
      returns (ghost order: seq<ContentKey>, ghost victims: seq<EventKey>)
      requires Registered() && key.coin in cfg.coins && BaseOk(cfg, key, pb)
      modifies `counters, `windows, `settled
      ensures Registered() && Enumerates(order, pb) && |victims| == |order|
      ensures counters == SettleCounters(cfg, old(counters), key.coin, pb, order)
      ensures Rings(windows, settled)
              == FinalizeAll(cfg, Rings(old(windows), old(settled)), key, pb, Strays(cfg, pb), order, victims, now)
      ensures PickedOldest(cfg, Rings(old(windows), old(settled)), key, pb, Strays(cfg, pb), order, victims, now)
    {
      hide CreditBoard, Shares, OnTime, Canonical, FinalizeAll, BaseOk, PickedOldest, Strays, Distinct;
      var visited := Listed(pb.candidates.Keys);
      order := visited;
      ghost var strays := Strays(cfg, pb);
      var kept := ClearLateAll(key.coin, pb, visited, strays);
      var canonical := CanonicalAll(pb, visited, kept);
      var seen := CountOrphansAll(key.coin, pb, visited, kept, canonical, strays);
      victims := FinalizeEach(key, pb, visited, kept, canonical, seen, now);
    }

    method Settle(key: BaseKey, now: Time, evicted: bool) returns (ghost ch: Choice)
      requires Registered() && WellFormed(cfg, State())
      modifies `pending, `settledBases, `counters, `windows, `settled
      ensures Registered()
      ensures key !in old(pending) ==> State() == old(State())
      ensures key in old(pending) ==>
                && Usable(old(State()), key, ch) && Oldest(cfg, old(State()), key, now, ch)
                && State() == Cohorts.Settle(cfg, old(State()), key, now, evicted, ch)
    {
      hide SettleCounters, FinalizeAll, BaseOk, PickedOldest, Strays, Enumerates, SealBase, SealBaseWindows,
        BumpEviction, BasesFull, OldestBase, Oldest;
      ch := Choice([], [], key);
      if key !in pending {
        return;
      }
      ghost var b := State();
      var pb := pending[key];
      pending := pending - {key};
      ghost var victim := InsertSettledBase(key, now);
      if evicted {
        MarkEvicted(key.coin, now);
      }
      ghost var marked := windows;
      ghost var order, victims := SettleCandidates(key, pb, now);
      ch := Choice(order, victims, victim);
      PicksFit(cfg, b, key, now, marked, ch);
    }

    // ---------- recording ----------

    method MarkIntegrityLoss(coin: Coin, now: Time)
      requires Registered() && coin in cfg.coins
      modifies `windows
      ensures Registered() && windows == MarkLoss(old(windows), coin, now)
    {
      windows := windows[coin := windows[coin].(lastLoss := Some(now))];
    }

    method SettleIfOverdue(e: MarketEvent) returns (ghost ch: Choice)
      requires Registered() && WellFormed(cfg, State())
      modifies `pending, `settledBases, `counters, `windows, `settled
      ensures Registered() && WellFormed(cfg, State())
      ensures Overdue(cfg, old(State()), e.key.Base(), e.received) ==>
                Usable(old(State()), e.key.Base(), ch) && Oldest(cfg, old(State()), e.key.Base(), e.received, ch)
      ensures State() == SettleOverdue(cfg, old(State()), e, ch)
    {
      hide WellFormed, Usable, Oldest, Cohorts.Settle, EventKey.Base, Registered;
      ghost var b := State();
      var base := e.key.Base();
      ch := Choice([], [], base);
      if base in pending && Since(e.received, pending[base].first) >= cfg.cohortTimeout {
        ch := Settle(base, e.received, false);
        SettleWellFormed(cfg, b, base, e.received, false, ch);
      }
    }

    /** Settle the oldest base when a new one finds no room. */
    method MakeRoom(e: MarketEvent) returns (ghost oldest: BaseKey, ghost ch: Choice)
      requires Registered() && WellFormed(cfg, State()) && e.key.Base() !in settledBases
      modifies `pending, `settledBases, `counters, `windows, `settled
      ensures Registered() && WellFormed(cfg, State()) && e.key.Base() !in settledBases
      ensures PendingFull(cfg, old(State()), e.key.Base()) ==>
                && OldestPending(old(State()).pending, oldest)
                && Usable(old(State()), oldest, ch) && Oldest(cfg, old(State()), oldest, e.received, ch)
      ensures State() == if PendingFull(cfg, old(State()), e.key.Base())
                         then Cohorts.Settle(cfg, old(State()), oldest, e.received, true, ch) else old(State())
    {
      hide WellFormed, Usable, Oldest, Cohorts.Settle, EventKey.Base, Registered;
      ghost var b := State();
      var base := e.key.Base();
      oldest, ch := base, Choice([], [], base);
      if base !in pending && |pending| >= cfg.maxPending && pending != map[] {
        var times := map k | k in pending :: pending[k].first;
        assert times.Keys == pending.Keys;
        var first := Earliest(times);
        oldest := first;
        ch := Settle(first, e.received, true);
        SettleWellFormed(cfg, b, oldest, e.received, true, ch);
        SealsOnly(cfg, b, oldest, e.received, true, ch, base);
      }
    }

    method PlaceEvent(e: MarketEvent) returns (placed: bool)
      requires Registered() && e.key.coin in cfg.coins
      modifies `pending, `counters, `windows
      ensures Registered()
      ensures State() == Place(old(State()), e) && placed == Placed(old(State()), e)
    {
      hide Credit, JoinedCandidate, MarkLoss;
      var base := e.key.Base();
      var cohort := if base in pending then pending[base] else PendingBase(e.received, map[]);
      cohort := cohort.(first := Min(cohort.first, e.received));
      assert cohort == JoinedBase(old(State()), e);
      if e.key.content !in cohort.candidates && |cohort.candidates| >= MAX_SIGNATURES_PER_BASE {
        pending := pending[base := cohort];
        Count(e.key.coin, e.provider, OVERFLOW);
        MarkIntegrityLoss(e.key.coin, e.received);
        return false;
      }
      var candidate;
      candidate, placed := JoinCandidate(cohort, e);
      if !placed {
        Count(e.key.coin, e.provider, DUPLICATE);
      }
      pending := pending[base := cohort.(candidates := cohort.candidates[e.key.content := candidate])];
    }

    /** The event's candidate with its arrival, unless its provider was there before. */
    method JoinCandidate(cohort: PendingBase, e: MarketEvent) returns (candidate: Candidate, placed: bool)
      ensures var c := JoinedCandidate(cohort, e);
              && placed == (e.provider !in c.arrivals)
              && candidate.first == c.first
              && candidate.arrivals == if placed then c.arrivals[e.provider := Obs(e.received, e.wall)] else c.arrivals
    {
      candidate := if e.key.content in cohort.candidates then cohort.candidates[e.key.content]
        else Candidate(e.received, map[]);
      candidate := candidate.(first := Min(candidate.first, e.received));
      placed := e.provider !in candidate.arrivals;
      if placed {
        candidate := candidate.(arrivals := candidate.arrivals[e.provider := Obs(e.received, e.wall)]);
      }
    }

    method RefuseEvent(e: MarketEvent)
      requires Registered() && WellFormed(cfg, State()) && e.key.coin in cfg.coins && Refused(e)
      modifies `counters, `windows
      ensures Registered() && WellFormed(cfg, State())
      ensures State() == Refuse(old(State()), e)
    {
      hide Credit, BaseOk;
      if e.key.eventMs == 0 || e.key.eventMs - e.wall > MAX_FUTURE_SKEW_MS {
        Count(e.key.coin, e.provider, FUTURE);
      } else {
        Count(e.key.coin, e.provider, NEGATIVE);
      }
      MarkIntegrityLoss(e.key.coin, e.received);
    }

    /** An event for a base already sealed. */
    method CountSealedEvent(e: MarketEvent)
      requires Registered() && WellFormed(cfg, State()) && e.key.coin in cfg.coins
      modifies `counters
      ensures Registered() && WellFormed(cfg, State())
      ensures State() == CountSealed(old(State()), e)
    {
      hide Credit, BaseOk;
      if e.key in settled && e.provider in settled[e.key].matched {
        Count(e.key.coin, e.provider, DUPLICATE);
      } else {
        Count(e.key.coin, e.provider, LATE);
      }
    }

    /** The last part of `record_market`: the event joins its base. */
    method JoinBase(e: MarketEvent) returns (ghost ch: Choice)
      requires Registered() && WellFormed(cfg, State()) && e.key.coin in cfg.coins
      requires cfg.Active(e.provider) && !Refused(e) && e.key.Base() !in settledBases
      modifies `pending, `settledBases, `counters, `windows, `settled
      ensures Registered() && WellFormed(cfg, State())
      ensures SettlesAtOnce(cfg, old(State()), e) ==>
                && Usable(Place(old(State()), e), e.key.Base(), ch)
                && Oldest(cfg, Place(old(State()), e), e.key.Base(), e.received, ch)
      ensures State() == PlaceAndSettle(cfg, old(State()), e, ch)
    {
      hide WellFormed, Usable, Oldest, Cohorts.Settle, EventKey.Base, Registered, Config.Active, Config.Providers,
        Refused, Place, Placed;
      ch := Choice([], [], e.key.Base());
      PlaceWellFormed(cfg, State(), e);
      var placed := PlaceEvent(e);
      ghost var b := State();
      if placed && |cfg.Providers()| == 1 {
        ch := Settle(e.key.Base(), e.received, false);
        SettleWellFormed(cfg, b, e.key.Base(), e.received, false, ch);
      }
    }

    /** Recording an event does what the engine's function says, for the order in which the maps
        happened to be visited, and looks up no coin that is not registered. */
    method RecordMarket(e: MarketEvent) returns (ghost ch: EventChoice)
      requires Registered() && WellFormed(cfg, State()) && (cfg.Active(e.provider) ==> e.key.coin in cfg.coins)
      modifies `pending, `settledBases, `counters, `windows, `settled
      ensures Registered() && WellFormed(cfg, State())
      ensures EventUsable(cfg, old(State()), e, ch) && State() == Record(cfg, old(State()), e, ch)
    {
      hide WellFormed, Usable, Oldest, Cohorts.Settle, EventKey.Base, Config.Active, Config.Providers, Refused, Place,
        Placed, Credit, Registered, Refuse, CountSealed, SettleOverdue, Overdue, PendingFull, SettlesAtOnce,
        PlaceAndSettle, OldestPending;
      ghost var none := Choice([], [], e.key.Base());
      ch := EventChoice(none, e.key.Base(), none, none);
      if !cfg.Active(e.provider) {
        return;
      }
      if Refused(e) {
        RefuseEvent(e);
        return;
      }
      CountObserved(e);
      ghost var overdue := SettleIfOverdue(e);
      if e.key.Base() in settledBases {
        CountSealedEvent(e);
        ch := EventChoice(overdue, e.key.Base(), none, none);
        return;
      }
      ghost var oldest, evict := MakeRoom(e);
      ghost var single := JoinBase(e);
      ch := EventChoice(overdue, oldest, evict, single);
    }

    method CountObserved(e: MarketEvent)
      requires Registered() && WellFormed(cfg, State()) && e.key.coin in cfg.coins
      modifies `counters
      ensures Registered() && WellFormed(cfg, State())
      ensures State() == CreditEvent(old(State()), e, OBSERVED)
    {
      hide Credit, BaseOk;
      Count(e.key.coin, e.provider, OBSERVED);
    }

    // ---------- maintenance and publication ----------

    method PruneState(now: Time)
      requires Registered() && WellFormed(cfg, State())
      modifies `settledBases, `windows, `settled
      ensures Registered() && WellFormed(cfg, State())
      ensures State() == Prune(cfg, old(State()), now)
    {
      hide WellFormed, Retain, PruneWindow, Since;
      PruneWellFormed(cfg, State(), now);
      PruneTombstones(now);
      PruneWindows(now);
    }

    method PruneTombstones(now: Time)
      requires (forall k <- settledBases :: k.coin in cfg.coins) && (forall k <- settled :: k.coin in cfg.coins)
      modifies `settledBases, `settled
      ensures settledBases == map k | k in old(settledBases) && Since(now, old(settledBases)[k]) <= cfg.rollingWindow
                                :: old(settledBases)[k]
      ensures settled == map k | k in old(settled) && Since(now, old(settled)[k].at) <= cfg.rollingWindow ::
              old(settled)[k]
      ensures (forall k <- settledBases :: k.coin in cfg.coins) && (forall k <- settled :: k.coin in cfg.coins)
    {
      hide Since;
      settledBases := map k | k in settledBases && Since(now, settledBases[k]) <= cfg.rollingWindow :: settledBases[k];
      settled := map k | k in settled && Since(now, settled[k].at) <= cfg.rollingWindow :: settled[k];
    }

    method PruneWindows(now: Time)
      modifies `windows
      ensures windows == map c | c in old(windows) :: PruneWindow(old(windows)[c], now, cfg.rollingWindow)
    {
      hide PruneWindow, Distinct;
      var coins := Listed(windows.Keys);
      for i := 0 to |coins|
        invariant windows.Keys == old(windows.Keys)
        invariant forall c <- coins[..i] ::
                  c in windows && windows[c] == PruneWindow(old(windows)[c], now, cfg.rollingWindow)
        invariant forall c <- windows :: c !in coins[..i] ==> windows[c] == old(windows)[c]
      {
        var c := coins[i];
        NotListed(coins, i);
        windows := windows[c := PruneWindow(windows[c], now, cfg.rollingWindow)];
      }
      assert coins[..|coins|] == coins;
    }

    /** The bases whose deadline has passed. */
    method ExpiredBases(now: Time) returns (keys: seq<BaseKey>)
      ensures Expired(cfg, State(), now, keys)
    {
      keys := Listed(set k | k in pending && Since(now, pending[k].first) >= cfg.cohortTimeout);
    }

    method SettleAll(now: Time, keys: seq<BaseKey>) returns (ghost chs: seq<Choice>)
      requires Registered() && WellFormed(cfg, State()) && Distinct(keys) && forall k <- keys :: k in pending
      modifies `pending, `settledBases, `counters, `windows, `settled
      ensures Registered() && WellFormed(cfg, State())
      ensures |chs| == |keys| && AllUsable(cfg, old(State()), now, keys, chs)
      ensures State() == SettleEach(cfg, old(State()), now, keys, chs)
    {
      hide WellFormed, Usable, Oldest, Cohorts.Settle, Registered, AllUsable, SettleEach, Distinct;
      ghost var b := State();
      chs := [];
      SettlesNone(cfg, b, now);
      assert keys[..0] == [];
      for i := 0 to |keys|
        invariant Registered() && WellFormed(cfg, State())
        invariant |chs| == i && AllUsable(cfg, b, now, keys[..i], chs)
        invariant State() == SettleEach(cfg, b, now, keys[..i], chs)
        invariant forall j :: i <= j < |keys| ==> keys[j] in pending
      {
        ghost var before := State();
        ghost var ch := Settle(keys[i], now, false);
        SettleMore(cfg, b, now, keys[..i], chs, keys[i], ch);
        SettleWellFormed(cfg, before, keys[i], now, false, ch);
        assert keys[..i + 1] == keys[..i] + [keys[i]];
        AllApart(keys, i);
        chs := chs + [ch];
      }
      assert keys[..|keys|] == keys;
    }

    method Tick(now: Time) returns (ghost keys: seq<BaseKey>, ghost chs: seq<Choice>)
      requires Registered() && WellFormed(cfg, State())
      modifies `pending, `settledBases, `counters, `windows, `settled
      ensures Registered() && WellFormed(cfg, State())
      ensures Expired(cfg, old(State()), now, keys)
      ensures |chs| == |keys| && AllUsable(cfg, old(State()), now, keys, chs)
      ensures State() == Cohorts.Tick(cfg, old(State()), now, keys, chs)
    {
      hide WellFormed, Registered, AllUsable, SettleEach, Prune;
      var expired := ExpiredBases(now);
      keys := expired;
      chs := SettleAll(now, expired);
      PruneState(now);
    }

    /** The interval and outcome part of `window_events`; nothing is returned, and nothing prepared,
        unless both clocks have moved past the cursor. */
    method WindowEvents(now: Time, wall: nat)
      returns (r: Option<Report>, ghost keys: seq<BaseKey>, ghost chs: seq<Choice>)
      requires Registered() && WellFormed(cfg, State()) && cfg.publishInterval > 0
      modifies this
      ensures Registered() && WellFormed(cfg, State())
      ensures Expired(cfg, old(State()), now, keys)
      ensures |chs| == |keys| && AllUsable(cfg, old(State()), now, keys, chs)
      ensures State() == Cohorts.Tick(cfg, old(State()), now, keys, chs)
      ensures cursor == Prepare(old(cursor), now, wall, cfg.publishInterval)
      ensures r.Some? <==> wall - wall % cfg.publishInterval > old(cursor).wall && now > old(cursor).at
      ensures r.None? ==> cursor == old(cursor).(prepared := None)
      ensures r.Some? ==>
                && r.value.interval.start == old(cursor).wall
                && r.value.interval.end == wall - wall % cfg.publishInterval
                && (r.value.interval.onSchedule <==> old(cursor).published
                                                     && r.value.interval.end - old(cursor).wall == cfg.publishInterval)
                && cursor == old(cursor).(prepared := Some(Prepared(now, r.value.interval.end)))
      ensures r.Some? ==> r.value.interval == IntervalOf(old(cursor), now, wall, cfg.publishInterval)
                          && r.value.outcomes == OutcomesOf(cfg, windows, now)
    {
      hide WellFormed, AllUsable, Cohorts.Tick, Expired, Unreported, Config.Providers, Config.HasComparison;
      cursor := cursor.(prepared := None);
      keys, chs := Tick(now);
      var end := Aligned(wall, cfg.publishInterval);
      if end <= cursor.wall || now <= cursor.at {
        return None, keys, chs;
      }
      var interval := Interval(cursor.wall, end, cursor.published && end - cursor.wall == cfg.publishInterval);
      var outcomes := CountOutcomes(now);
      cursor := cursor.(prepared := Some(Prepared(now, end)));
      r := Some(Report(interval, outcomes));
    }

    method CountOutcomes(now: Time) returns (outcomes: map<Coin, OutcomeCounts>)
      requires Registered()
      ensures outcomes == OutcomesOf(cfg, windows, now)
    {
      hide Unreported, Config.Providers, Config.HasComparison;
      ConfigIsSound(cfg);
      outcomes := map[];
      var coins := Listed(cfg.coins);
      for i := 0 to |coins|
        invariant forall c :: c in outcomes <==> c in coins[..i]
        invariant forall c <- outcomes :: c in cfg.coins && outcomes[c] == OutcomesOf(cfg, windows, now)[c]
      {
        var c := coins[i];
        assert c in coins && coins[..i + 1] == coins[..i] + [c];
        var counts := NO_OUTCOMES;
        if cfg.HasComparison() {
          counts := UnreportedOutcomes(windows[c].cohorts, now, cfg.Providers());
        }
        outcomes := outcomes[c := counts];
      }
      assert coins[..|coins|] == coins;
    }

    /** Outcome state moves only here, after the rows are durable. */
    method CommitPreparedPublication() returns (done: bool)
      requires Registered() && WellFormed(cfg, State())
      modifies `cursor, `windows
      ensures Registered() && WellFormed(cfg, State())
      ensures done == Commits(old(cursor)) && cursor == Commit(old(cursor))
      ensures done <==> var p := old(cursor).prepared;
                p.Some? && p.value.endWall > old(cursor).wall && p.value.end > old(cursor).at
      ensures cursor == if done then
                          Cursor(old(cursor).prepared.value.end, old(cursor).prepared.value.endWall, true, None)
                        else old(cursor).(prepared := None)
      ensures windows == if done then MarkAll(old(windows), old(cursor).prepared.value.end) else old(windows)
    {
      hide WellFormed, Mark, MarkAll;
      var prepared := cursor.prepared;
      cursor := cursor.(prepared := None);
      WellFormedReads(cfg, old(State()), State());
      if prepared.None? || prepared.value.endWall <= cursor.wall || prepared.value.end <= cursor.at {
        return false;
      }
      MarkWindows(prepared.value.end);
      cursor := Cursor(prepared.value.end, prepared.value.endWall, true, None);
      WellFormedReads(cfg, old(State()), State());
      done := true;
    }

    method MarkWindows(through: Time)
      modifies `windows
      ensures windows == MarkAll(old(windows), through) && windows.Keys == old(windows.Keys)
    {
      hide Mark, Distinct;
      var coins := Listed(windows.Keys);
      for i := 0 to |coins|
        invariant windows.Keys == old(windows.Keys)
        invariant forall c <- coins[..i] :: c in windows && windows[c] == MarkAll(old(windows), through)[c]
        invariant forall c <- windows :: c !in coins[..i] ==> windows[c] == old(windows)[c]
      {
        var c := coins[i];
        NotListed(coins, i);
        var marked := MarkOutcomesReported(windows[c].cohorts, through);
        windows := windows[c := windows[c].(cohorts := marked)];
      }
      assert coins[..|coins|] == coins;
    }

    method RejectPreparedPublication()
      modifies `cursor
      ensures cursor == Reject(old(cursor))
    {
      cursor := cursor.(prepared := None);
    }
  }
}
