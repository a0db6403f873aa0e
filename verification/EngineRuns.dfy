/** What the cohort engine keeps over every run of events and ticks. */
module EngineRuns {
  import opened Common
  import opened Model
  import opened Windows
  import opened Cohorts
  import opened SettleLaws
  import opened Conservation
  import opened Admission
  import opened Sealing
  import opened Bounds

  // ---------- the counters of one coin ----------

  /** Every active provider is scored on the same number of cohorts, a mismatch is a missing cohort,
      and a provider that decides what is canonical misses nothing. */
  ghost predicate Even(cfg: Config, b: Board) {
    && (forall p: Provider, q: Provider :: cfg.Active(p) && cfg.Active(q) ==> Scored(b[p]) == Scored(b[q]))
    && (forall p: Provider :: b[p].mismatch <= b[p].missing)
    && (forall p: Provider :: Decides(cfg, p) ==> b[p].missing == 0)
  }

  ghost predicate AllEven(cfg: Config, c: Counters) {
    forall coin :: Even(cfg, BoardOf(c, coin))
  }

  lemma CreditEven(cfg: Config, c: Counters, coin: Coin, q: Provider, t: Tally)
    requires AllEven(cfg, c) && Scored(t) == 0 && t.mismatch == 0
    ensures AllEven(cfg, Credit(c, coin, q, t))
  {
    hide Even, BoardOf, Credit;
    forall at
      ensures Even(cfg, BoardOf(Credit(c, coin, q, t), at))
    {
      assert Even(cfg, BoardOf(c, at));
      forall p: Provider
        ensures BoardOf(Credit(c, coin, q, t), at)[p]
                == if at == coin && p == q then BoardOf(c, at)[p].Plus(t) else BoardOf(c, at)[p]
      {
        CreditAt(c, coin, q, t, at, p);
      }
      BumpedEven(cfg, BoardOf(c, at), BoardOf(Credit(c, coin, q, t), at), t);
    }
  }

  lemma BumpedEven(cfg: Config, x: Board, y: Board, t: Tally)
    requires Even(cfg, x) && Scored(t) == 0 && t.mismatch == 0
    requires forall p: Provider :: y[p] == x[p] || y[p] == x[p].Plus(t)
    ensures Even(cfg, y)
  {
    hide Config.Active, Decides;
  }

  /** Recording an event scores no one. */
  lemma Unscored(t: Tally)
    requires t in {OBSERVED, DUPLICATE, LATE, OVERFLOW, FUTURE, NEGATIVE}
    ensures Scored(t) == 0 && t.mismatch == 0
  {
  }

  lemma SettleEven(cfg: Config, c: Counters, coin: Coin, pb: PendingBase, order: seq<ContentKey>)
    requires AllEven(cfg, c) && Enumerates(order, pb) && OnlyActive(cfg, pb)
    ensures AllEven(cfg, SettleCounters(cfg, c, coin, pb, order))
  {
    hide Even, BoardOf, SettleCounters, Out, Scored, OnlyActive, CanonicalCount, Distinct;
    forall at
      ensures Even(cfg, BoardOf(SettleCounters(cfg, c, coin, pb, order), at))
    {
      assert Even(cfg, BoardOf(c, at));
      forall p: Provider
        ensures SettledTally(cfg, c, coin, pb, order, at, p)
      {
        SettleTally(cfg, c, coin, pb, order, at, p);
      }
      SettledEven(cfg, c, coin, pb, order, at);
    }
  }

  lemma SettledEven(cfg: Config, c: Counters, coin: Coin, pb: PendingBase, order: seq<ContentKey>, at: Coin)
    requires Enumerates(order, pb) && Even(cfg, BoardOf(c, at))
    requires forall p: Provider :: SettledTally(cfg, c, coin, pb, order, at, p)
    ensures Even(cfg, BoardOf(SettleCounters(cfg, c, coin, pb, order), at))
  {
    hide Config.Active, Decides, BoardOf, SettleCounters, Scored, CanonicalCount, Distinct;
    var y := BoardOf(SettleCounters(cfg, c, coin, pb, order), at);
    forall p: Provider, q: Provider | cfg.Active(p) && cfg.Active(q)
      ensures Scored(y[p]) == Scored(y[q])
    {
      assert SettledTally(cfg, c, coin, pb, order, at, p) && SettledTally(cfg, c, coin, pb, order, at, q);
    }
    forall p: Provider
      ensures y[p].mismatch <= y[p].missing && (Decides(cfg, p) ==> y[p].missing == 0)
    {
      assert SettledTally(cfg, c, coin, pb, order, at, p);
    }
  }

  ghost predicate SettledTally(cfg: Config, c: Counters, coin: Coin, pb: PendingBase, order: seq<ContentKey>, at: Coin,
                               p: Provider)
    requires Enumerates(order, pb)
  {
    var x, y := BoardOf(c, at)[p], BoardOf(SettleCounters(cfg, c, coin, pb, order), at)[p];
    && (cfg.Active(p) ==> Scored(y) == Scored(x) + (if at == coin then CanonicalCount(cfg, pb, order) else 0))
    && (x.mismatch <= x.missing ==> y.mismatch <= y.missing)
    && (Decides(cfg, p) ==> y.missing == x.missing)
  }

  // ---------- the invariant ----------

  ghost predicate Core(cfg: Config, b: Bench) {
    && WellFormed(cfg, b)
    && Sealed(b.bases, b.windows)
    && WindowsOk(cfg, b.windows)
    && SizesOk(cfg, b)
    && AllEven(cfg, b.counters)
  }

  /** Every observation of every provider and coin is accounted for exactly once. */
  ghost predicate Accounted(b: Bench) {
    forall coin, p: Provider :: Debt(b, coin, p) == 0
  }

  /** What holds between any two inputs. */
  ghost predicate Inv(cfg: Config, b: Bench) {
    Core(cfg, b) && NothingWaits(cfg, b) && Accounted(b)
  }

  lemma CreditCore(cfg: Config, b: Bench, e: MarketEvent, t: Tally)
    requires Core(cfg, b) && Scored(t) == 0 && t.mismatch == 0
    ensures Core(cfg, CreditEvent(b, e, t))
  {
    hide WellFormed, Sealed, WindowsOk, SizesOk, AllEven, Credit, Scored;
    var after := CreditEvent(b, e, t);
    CreditEven(cfg, b.counters, e.key.coin, e.provider, t);
    CoreParts(cfg, b, after);
  }

  /** The parts of the invariant that do not read the counters. */
  lemma CoreParts(cfg: Config, b: Bench, after: Bench)
    requires WellFormed(cfg, b) && SizesOk(cfg, b)
    requires after.pending == b.pending && after.bases == b.bases && after.settled == b.settled
    ensures WellFormed(cfg, after) && SizesOk(cfg, after)
  {
    hide BaseOk;
  }

  lemma SettleCore(cfg: Config, b: Bench, key: BaseKey, now: Time, evicted: bool, ch: Choice)
    requires Core(cfg, b) && Usable(b, key, ch) && Oldest(cfg, b, key, now, ch)
    requires !evicted ==> Timely(cfg, b.pending[key], now)
    ensures Core(cfg, Settle(cfg, b, key, now, evicted, ch))
  {
    hide WellFormed, Sealed, WindowsOk, SizesOk, AllEven, SettleRings, SettleCounters, SealBase, Oldest, Timely,
      Enumerates;
    SettleWellFormed(cfg, b, key, now, evicted, ch);
    SettleSeals(cfg, b, key, now, evicted, ch);
    SettleOk(cfg, b, key, now, evicted, ch);
    SettleSizes(cfg, b, key, now, evicted, ch);
    OpenIsActive(cfg, b, key);
    SettleEven(cfg, b.counters, key.coin, b.pending[key], ch.order);
  }

  lemma OpenIsActive(cfg: Config, b: Bench, key: BaseKey)
    requires WellFormed(cfg, b) && key in b.pending
    ensures OnlyActive(cfg, b.pending[key])
  {
    hide OnlyActive;
    BaseOkActive(cfg, key, b.pending[key]);
  }

  lemma PlaceCore(cfg: Config, b: Bench, e: MarketEvent)
    requires Core(cfg, b) && cfg.Active(e.provider) && !Refused(e)
    requires e.key.Base() !in b.bases && !PendingFull(cfg, b, e.key.Base())
    ensures Core(cfg, Place(b, e))
  {
    hide WellFormed, Sealed, WindowsOk, SizesOk, AllEven, PlacedBase, PendingFull, Config.Active, MarkLoss, Credit,
      JoinedBase, TooManyContents, Placed, Refused;
    PlaceWellFormed(cfg, b, e);
    PlaceSizes(cfg, b, e);
    LossKeeps(cfg, b, e.key.coin, e.received);
    PlaceEven(cfg, b, e);
  }

  lemma PlaceEven(cfg: Config, b: Bench, e: MarketEvent)
    requires AllEven(cfg, b.counters)
    ensures AllEven(cfg, PlacedCounters(b, e))
  {
    hide AllEven, Credit, JoinedBase, TooManyContents, Placed, Scored;
    if !Placed(b, e) {
      var t := if TooManyContents(JoinedBase(b, e), e.key.content) then OVERFLOW else DUPLICATE;
      Unscored(t);
      CreditEven(cfg, b.counters, e.key.coin, e.provider, t);
    }
  }

  lemma LossKeeps(cfg: Config, b: Bench, coin: Coin, now: Time)
    requires Sealed(b.bases, b.windows) && WindowsOk(cfg, b.windows)
    ensures Sealed(b.bases, MarkLoss(b.windows, coin, now)) && WindowsOk(cfg, MarkLoss(b.windows, coin, now))
  {
    hide RingSealed, WindowsOk;
    BumpOk(cfg, b.windows, coin, now);
    WindowSealed(b.bases, b.windows, coin);
  }

  // ---------- one event ----------

  /** The account of the event's provider and coin is off by `n`; every other one is settled. */
  ghost predicate Owes(b: Bench, e: MarketEvent, n: int) {
    forall coin, p: Provider :: Debt(b, coin, p) == if coin == e.key.coin && p == e.provider then n else 0
  }

  lemma CreditOwes(b: Bench, e: MarketEvent, t: Tally, n: int)
    requires Owes(b, e, n)
    ensures Owes(CreditEvent(b, e, t), e, n + t.observed - Out(t))
  {
    hide Debt, Out, CreditEvent;
    forall coin, p: Provider
      ensures Debt(CreditEvent(b, e, t), coin, p)
              == if coin == e.key.coin && p == e.provider then n + t.observed - Out(t) else 0
    {
      CreditDebt(b, e, t, coin, p);
      assert Debt(b, coin, p) == if coin == e.key.coin && p == e.provider then n else 0;
    }
  }

  lemma RefuseInv(cfg: Config, b: Bench, e: MarketEvent)
    requires Inv(cfg, b) && Refused(e)
    ensures Inv(cfg, Refuse(b, e))
  {
    hide WellFormed, Sealed, WindowsOk, SizesOk, AllEven, MarkLoss, Credit, Debt, Scored, Out;
    var t := if e.key.eventMs == 0 || e.key.eventMs - e.wall > MAX_FUTURE_SKEW_MS then FUTURE else NEGATIVE;
    Unscored(t);
    CreditEven(cfg, b.counters, e.key.coin, e.provider, t);
    LossKeeps(cfg, b, e.key.coin, e.received);
    CoreParts(cfg, b, Refuse(b, e));
    RefusePays(b, e, t);
  }

  lemma RefusePays(b: Bench, e: MarketEvent, t: Tally)
    requires Accounted(b) && Refused(e) && (t == FUTURE || t == NEGATIVE)
    requires Refuse(b, e).counters == CreditEvent(b, e, t).counters
    ensures Accounted(Refuse(b, e))
  {
    hide Debt, Out, Credit, MarkLoss;
    CreditAmounts(t);
    CreditOwes(b, e, t, 0);
    forall coin, p: Provider
      ensures Debt(Refuse(b, e), coin, p) == 0
    {
      DebtReads(CreditEvent(b, e, t), Refuse(b, e), coin, p);
    }
  }

  lemma DebtReads(b: Bench, after: Bench, coin: Coin, p: Provider)
    requires after.pending == b.pending && after.counters == b.counters
    ensures Debt(after, coin, p) == Debt(b, coin, p)
  {
  }

  /** An observed event is owed an account. */
  lemma ObserveOwes(cfg: Config, b: Bench, e: MarketEvent)
    requires Core(cfg, b) && Accounted(b)
    ensures Core(cfg, CreditEvent(b, e, OBSERVED)) && Owes(CreditEvent(b, e, OBSERVED), e, 1)
  {
    hide Core, Debt, Scored, CreditEvent, Out;
    var t := OBSERVED;
    Unscored(t);
    CreditCore(cfg, b, e, t);
    CreditAmounts(t);
    CreditOwes(b, e, t, 0);
  }

  lemma SettleOwes(cfg: Config, b: Bench, key: BaseKey, now: Time, evicted: bool, ch: Choice, e: MarketEvent)
    requires WellFormed(cfg, b) && Usable(b, key, ch) && Owes(b, e, 1)
    ensures Owes(Settle(cfg, b, key, now, evicted, ch), e, 1)
  {
    hide WellFormed, Debt, Settle, Enumerates;
    OpenIsActive(cfg, b, key);
    forall coin, p: Provider
      ensures Debt(Settle(cfg, b, key, now, evicted, ch), coin, p) == Debt(b, coin, p)
    {
      SettleDebt(cfg, b, key, now, evicted, ch, coin, p);
    }
  }

  lemma SettleAccounted(cfg: Config, b: Bench, key: BaseKey, now: Time, evicted: bool, ch: Choice)
    requires WellFormed(cfg, b) && Usable(b, key, ch) && Accounted(b)
    ensures Accounted(Settle(cfg, b, key, now, evicted, ch))
  {
    hide WellFormed, Debt, Settle, Enumerates;
    OpenIsActive(cfg, b, key);
    forall coin, p: Provider
      ensures Debt(Settle(cfg, b, key, now, evicted, ch), coin, p) == Debt(b, coin, p)
    {
      SettleDebt(cfg, b, key, now, evicted, ch, coin, p);
    }
  }

  lemma CountSealedPays(cfg: Config, b: Bench, e: MarketEvent)
    requires Core(cfg, b) && Owes(b, e, 1)
    ensures Core(cfg, CountSealed(b, e)) && Accounted(CountSealed(b, e))
    ensures CountSealed(b, e).pending == b.pending
  {
    hide Core, Debt, Scored, Credit, Out;
    var t := if e.key in b.settled && e.provider in b.settled[e.key].matched then DUPLICATE else LATE;
    Unscored(t);
    CreditCore(cfg, b, e, t);
    CreditAmounts(t);
    CreditOwes(b, e, t, 1);
  }

  lemma PlacePays(b: Bench, e: MarketEvent)
    requires Owes(b, e, 1)
    ensures Accounted(Place(b, e))
  {
    hide Debt, Place;
    forall coin, p: Provider
      ensures Debt(Place(b, e), coin, p) == 0
    {
      PlaceDebt(b, e, coin, p);
    }
  }

  // ---------- record ----------

  /** With one provider, the event's base holds that arrival alone. */
  lemma SingleTimely(cfg: Config, b: Bench, e: MarketEvent)
    requires |cfg.Providers()| == 1 && cfg.Active(e.provider) && b.pending == map[]
    ensures Placed(b, e)
    ensures Timely(cfg, PlacedBase(b, e), e.received)
  {
    var pb := PlacedBase(b, e);
    var c := e.key.content;
    assert pb.candidates == map[c := Candidate(e.received, map[e.provider := Obs(e.received, e.wall)])];
    OneArrivalTimely(cfg, pb, c, e.provider, Obs(e.received, e.wall));
  }

  lemma OneArrivalTimely(cfg: Config, pb: PendingBase, c: ContentKey, p: Provider, o: Obs)
    requires pb.candidates == map[c := Candidate(o.received, map[p := o])]
    ensures Timely(cfg, pb, o.received)
  {
    hide Config.Active, Late;
    forall d <- pb.candidates
      ensures SettledAt(cfg, OnTime(cfg, pb, d), o.received) <= o.received
    {
      var kept := OnTime(cfg, pb, d);
      assert forall q: Provider :: q in kept ==> kept[q] == o;
      AtOneOf(cfg, kept, o);
    }
  }

  lemma AtOneOf(cfg: Config, kept: Arrivals, o: Obs)
    requires forall q: Provider :: q in kept ==> kept[q] == o
    ensures SettledAt(cfg, kept, o.received) <= o.received
  {
    hide Config.Providers;
    if Complete(cfg, kept) {
      ConfigIsSound(cfg);
      CompleteKept(cfg, kept);
      var t := Latest(kept, cfg.Providers());
      var q: Provider :| q in cfg.Providers() && kept[q].received == t;
    }
  }

  lemma OverdueStep(cfg: Config, b: Bench, e: MarketEvent, ch: Choice)
    requires Core(cfg, b) && Owes(b, e, 1)
    requires Overdue(cfg, b, e.key.Base(), e.received) ==>
               Usable(b, e.key.Base(), ch) && Oldest(cfg, b, e.key.Base(), e.received, ch)
    ensures var after := SettleOverdue(cfg, b, e, ch);
            Core(cfg, after) && Owes(after, e, 1) && after.pending.Keys <= b.pending.Keys
  {
    hide Owes, Oldest, Settle, Timely, Overdue, Usable;
    var k := e.key.Base();
    if Overdue(cfg, b, k, e.received) {
      CoreWellFormed(cfg, b);
      OverdueTimely(cfg, b, k, e.received);
      SettleCore(cfg, b, k, e.received, false, ch);
      SettleOwes(cfg, b, k, e.received, false, ch, e);
      SettleWellFormed(cfg, b, k, e.received, false, ch);
    }
  }

  lemma CoreWellFormed(cfg: Config, b: Bench)
    requires Core(cfg, b)
    ensures WellFormed(cfg, b)
  {
  }

  lemma EvictStep(cfg: Config, b: Bench, e: MarketEvent, ch: EventChoice)
    requires Core(cfg, b) && Owes(b, e, 1) && e.key.Base() !in b.bases
    requires PendingFull(cfg, b, e.key.Base()) ==>
               Usable(b, ch.oldest, ch.evict) && Oldest(cfg, b, ch.oldest, e.received, ch.evict)
    ensures var after := Evict(cfg, b, e, ch);
            && Core(cfg, after) && Owes(after, e, 1) && after.pending.Keys <= b.pending.Keys
            && e.key.Base() !in after.bases && !PendingFull(cfg, after, e.key.Base())
  {
    hide Core, Owes, Oldest, Usable, PendingFull;
    var k := e.key.Base();
    if PendingFull(cfg, b, k) {
      CoreWellFormed(cfg, b);
      SettleCore(cfg, b, ch.oldest, e.received, true, ch.evict);
      SettleOwes(cfg, b, ch.oldest, e.received, true, ch.evict, e);
      SettleWellFormed(cfg, b, ch.oldest, e.received, true, ch.evict);
      RoomMade(cfg, b, k, e.received, ch.oldest, ch.evict);
    }
  }

  lemma RoomMade(cfg: Config, b: Bench, k: BaseKey, now: Time, oldest: BaseKey, ch: Choice)
    requires Core(cfg, b) && PendingFull(cfg, b, k) && Usable(b, oldest, ch) && k !in b.bases
    ensures var after := Settle(cfg, b, oldest, now, true, ch);
            k !in after.bases && !PendingFull(cfg, after, k)
  {
    hide WellFormed, Sealed, WindowsOk, AllEven, SettleRings, SettleCounters, Enumerates, BasesFull;
    SizeAfterRemove(b.pending, oldest);
    EmptyPending(b.pending - {oldest});
  }

  lemma EmptyPending(m: map<BaseKey, PendingBase>)
    ensures |m| == 0 ==> m == map[]
  {
  }

  lemma PlaceStep(cfg: Config, b: Bench, e: MarketEvent, ch: Choice)
    requires Core(cfg, b) && Owes(b, e, 1) && cfg.Active(e.provider) && !Refused(e)
    requires e.key.Base() !in b.bases && !PendingFull(cfg, b, e.key.Base())
    requires NothingWaits(cfg, b)
    requires SettlesAtOnce(cfg, b, e) ==>
               Usable(Place(b, e), e.key.Base(), ch) && Oldest(cfg, Place(b, e), e.key.Base(), e.received, ch)
    ensures Inv(cfg, PlaceAndSettle(cfg, b, e, ch))
  {
    hide Core, Owes, Oldest, Usable, PendingFull, Refused, Accounted, Settle, Timely, Placed, PlacedBase,
      PlacedCounters, Config.Active, MarkLoss, TooManyContents, JoinedBase;
    var k := e.key.Base();
    var placed := Place(b, e);
    PlaceCore(cfg, b, e);
    PlacePays(b, e);
    if |cfg.Providers()| == 1 {
      SingleTimely(cfg, b, e);
      CoreWellFormed(cfg, placed);
      SettleCore(cfg, placed, k, e.received, false, ch);
      SettleAccounted(cfg, placed, k, e.received, false, ch);
      SettleWellFormed(cfg, placed, k, e.received, false, ch);
      assert placed.pending - {k} == map[];
    }
  }

  /** Whatever the HashMap order, recording an event keeps the invariant. */
  lemma RecordKeeps(cfg: Config, b: Bench, e: MarketEvent, ch: EventChoice)
    requires Inv(cfg, b) && EventUsable(cfg, b, e, ch)
    ensures Inv(cfg, Record(cfg, b, e, ch))
  {
    hide Core, Owes, Oldest, Usable, PendingFull, Refused, Accounted, Settle, SettlesAtOnce, CreditEvent, Overdue,
      Place, Config.Active, SettleOverdue, Evict, PlaceAndSettle, CountSealed;
    if cfg.Active(e.provider) {
      if Refused(e) {
        RefuseInv(cfg, b, e);
      } else {
        var seen := CreditEvent(b, e, OBSERVED);
        ObserveOwes(cfg, b, e);
        ObserveWaits(cfg, b, e);
        OverdueStep(cfg, seen, e, ch.overdue);
        var settled := SettleOverdue(cfg, seen, e, ch.overdue);
        FewerWait(cfg, seen, settled);
        if e.key.Base() in settled.bases {
          CountSealedPays(cfg, settled, e);
        } else {
          EvictStep(cfg, settled, e, ch);
          FewerWait(cfg, settled, Evict(cfg, settled, e, ch));
          PlaceStep(cfg, Evict(cfg, settled, e, ch), e, ch.single);
        }
      }
    }
  }

  lemma ObserveWaits(cfg: Config, b: Bench, e: MarketEvent)
    requires NothingWaits(cfg, b)
    ensures NothingWaits(cfg, CreditEvent(b, e, OBSERVED))
  {
  }

  lemma FewerWait(cfg: Config, b: Bench, after: Bench)
    requires NothingWaits(cfg, b) && after.pending.Keys <= b.pending.Keys
    ensures NothingWaits(cfg, after)
  {
    assert after.pending.Keys == {} ==> after.pending == map[];
  }

  // ---------- tick ----------

  /** Settling a base whose deadline has passed keeps the invariant, and takes nothing else away. */
  lemma SettleDueKeeps(cfg: Config, b: Bench, now: Time, k: BaseKey, ch: Choice)
    requires Inv(cfg, b) && Overdue(cfg, b, k, now) && Usable(b, k, ch) && Oldest(cfg, b, k, now, ch)
    ensures Inv(cfg, Settle(cfg, b, k, now, false, ch))
    ensures Settle(cfg, b, k, now, false, ch).pending == b.pending - {k}
  {
    hide Core, Accounted, Settle, Oldest, Usable, Timely, NothingWaits, Overdue;
    CoreWellFormed(cfg, b);
    OverdueTimely(cfg, b, k, now);
    SettleCore(cfg, b, k, now, false, ch);
    SettleAccounted(cfg, b, k, now, false, ch);
    SettleWellFormed(cfg, b, k, now, false, ch);
    FewerWait(cfg, b, Settle(cfg, b, k, now, false, ch));
  }

  lemma StillDue(cfg: Config, b: Bench, after: Bench, now: Time, keys: seq<BaseKey>)
    requires keys != [] && Distinct(keys) && after.pending == b.pending - {keys[0]}
    requires forall k <- keys :: Overdue(cfg, b, k, now)
    ensures Distinct(keys[1..]) && forall k <- keys[1..] :: Overdue(cfg, after, k, now)
  {
    forall k <- keys[1..]
      ensures Overdue(cfg, after, k, now)
    {
      assert k in keys && k != keys[0] && Overdue(cfg, b, k, now);
    }
  }

  lemma {:induction false} SettleEachKeeps(cfg: Config, b: Bench, now: Time, keys: seq<BaseKey>, chs: seq<Choice>)
    requires |chs| == |keys| && AllUsable(cfg, b, now, keys, chs) && Inv(cfg, b)
    requires Distinct(keys) && forall k <- keys :: Overdue(cfg, b, k, now)
    ensures Inv(cfg, SettleEach(cfg, b, now, keys, chs))
    decreases |keys|
  {
    hide Inv, Settle, Oldest, Usable, Overdue, Distinct;
    if keys != [] {
      var after := Settle(cfg, b, keys[0], now, false, chs[0]);
      assert keys[0] in keys;
      SettleDueKeeps(cfg, b, now, keys[0], chs[0]);
      StillDue(cfg, b, after, now, keys);
      SettleEachKeeps(cfg, after, now, keys[1..], chs[1..]);
    }
  }

  lemma PruneKeeps(cfg: Config, b: Bench, now: Time)
    requires Inv(cfg, b)
    ensures Inv(cfg, Prune(cfg, b, now))
  {
    hide Sealed, WindowsOk, AllEven, BaseOk, Debt, SizesOk;
    PruneSeals(cfg, b, now);
    PruneOk(cfg, b, now);
    PruneSizes(cfg, b, now);
    var after := Prune(cfg, b, now);
    forall coin, p: Provider
      ensures Debt(after, coin, p) == 0
    {
      DebtReads(b, after, coin, p);
      assert Debt(b, coin, p) == 0;
    }
  }

  /** Marking what has been published touches nothing else. */
  lemma MarkKeeps(cfg: Config, b: Bench, through: Time)
    requires Inv(cfg, b)
    ensures Inv(cfg, b.(windows := MarkAll(b.windows, through)))
  {
    hide WellFormed, Sealed, WindowsOk, AllEven, Debt, SizesOk, MarkAll;
    var after := b.(windows := MarkAll(b.windows, through));
    MarkAllOk(cfg, b.bases, b.windows, through);
    CoreParts(cfg, b, after);
    forall coin, p: Provider
      ensures Debt(after, coin, p) == 0
    {
      DebtReads(b, after, coin, p);
      assert Debt(b, coin, p) == 0;
    }
  }

  lemma MarkAllOk(cfg: Config, bases: Bases, ws: CoinWindows, through: Time)
    requires Sealed(bases, ws) && WindowsOk(cfg, ws)
    ensures Sealed(bases, MarkAll(ws, through)) && WindowsOk(cfg, MarkAll(ws, through))
  {
    hide CoinSealed, WindowOk, Mark;
    forall coin <- ws
      ensures CoinSealed(bases, coin, ws[coin].(cohorts := Mark(ws[coin].cohorts, through)))
      ensures WindowOk(cfg, ws[coin].(cohorts := Mark(ws[coin].cohorts, through)))
    {
      assert CoinSealed(bases, coin, ws[coin]) && WindowOk(cfg, ws[coin]);
      MarkOneSealed(bases, coin, ws[coin], through);
      MarkOneOk(cfg, ws[coin], through);
    }
  }

  lemma MarkOneSealed(bases: Bases, coin: Coin, w: Window, through: Time)
    requires CoinSealed(bases, coin, w)
    ensures CoinSealed(bases, coin, w.(cohorts := Mark(w.cohorts, through)))
  {
    hide Covered, EventKey.Base;
    var r := Mark(w.cohorts, through);
    if w.stateEvictions == 0 {
      assert forall i :: 0 <= i < |r| ==> r[i].it.key == w.cohorts[i].it.key && r[i].at == w.cohorts[i].at;
      forall x <- r
        ensures Covered(bases, coin, x)
      {
        var i :| 0 <= i < |r| && r[i] == x;
        assert w.cohorts[i] in w.cohorts;
        SameCovered(bases, coin, w.cohorts[i], x);
      }
    }
  }

  lemma SameCovered(bases: Bases, coin: Coin, x: Stamped<Cohort>, y: Stamped<Cohort>)
    requires Covered(bases, coin, x) && y.at == x.at && y.it.key == x.it.key
    ensures Covered(bases, coin, y)
  {
  }

  lemma MarkOneOk(cfg: Config, w: Window, through: Time)
    requires WindowOk(cfg, w)
    ensures WindowOk(cfg, w.(cohorts := Mark(w.cohorts, through)))
  {
    var r := Mark(w.cohorts, through);
    assert forall i :: 0 <= i < |r| ==>
             r[i].at == w.cohorts[i].at && r[i].it.commitDelay == w.cohorts[i].it.commitDelay;
    forall x <- r
      ensures x.it.commitDelay < cfg.cohortTimeout
    {
      var i :| 0 <= i < |r| && r[i] == x;
      assert w.cohorts[i] in w.cohorts;
    }
  }

  // ---------- runs ----------

  datatype Input =
    | Event(e: MarketEvent, ch: EventChoice)
    | TickAt(now: Time, keys: seq<BaseKey>, chs: seq<Choice>)
    | Published(through: Time)

  /** A new engine: every configured coin registered, nothing recorded. */
  function Start(cfg: Config): Bench {
    Bench(map[], map[], map[], map c | c in cfg.coins :: NO_BOARD, map c | c in cfg.coins :: EMPTY_WINDOW)
  }

  ghost predicate InputUsable(cfg: Config, b: Bench, i: Input) {
    match i
    case Event(e, ch) => EventUsable(cfg, b, e, ch)
    case TickAt(now, keys, chs) => Expired(cfg, b, now, keys) && |chs| == |keys| && AllUsable(cfg, b, now, keys, chs)
    case Published(_) => true
  }

  ghost function StepInput(cfg: Config, b: Bench, i: Input): Bench
    requires InputUsable(cfg, b, i)
  {
    match i
    case Event(e, ch) => Record(cfg, b, e, ch)
    case TickAt(now, keys, chs) => Tick(cfg, b, now, keys, chs)
    case Published(through) => b.(windows := MarkAll(b.windows, through))
  }

  /** The states of a run, one per input after the first. */
  ghost predicate Run(cfg: Config, inputs: seq<Input>, states: seq<Bench>) {
    && |states| == |inputs| + 1 && states[0] == Start(cfg)
    && forall i :: 0 <= i < |inputs| ==>
         InputUsable(cfg, states[i], inputs[i]) && states[i + 1] == StepInput(cfg, states[i], inputs[i])
  }

  lemma StartKeeps(cfg: Config)
    ensures Inv(cfg, Start(cfg))
  {
    hide Debt, Even, SizesOk, Sealed, WindowsOk, WellFormed, BoardOf;
    forall coin, p: Provider
      ensures Debt(Start(cfg), coin, p) == 0
    {
      StartOwesNothing(cfg, coin, p);
    }
    forall coin
      ensures Even(cfg, BoardOf(Start(cfg).counters, coin))
    {
      StartBlank(cfg, coin);
      BlankEven(cfg, BoardOf(Start(cfg).counters, coin));
    }
    StartShape(cfg);
  }

  lemma StartBlank(cfg: Config, coin: Coin)
    ensures BoardOf(Start(cfg).counters, coin) == NO_BOARD
  {
  }

  lemma StartShape(cfg: Config)
    ensures WellFormed(cfg, Start(cfg)) && Sealed(Start(cfg).bases, Start(cfg).windows)
    ensures WindowsOk(cfg, Start(cfg).windows) && SizesOk(cfg, Start(cfg))
  {
    hide BaseOk, CoinSealed, WindowOk;
    var ws := Start(cfg).windows;
    forall coin <- ws
      ensures CoinSealed(map[], coin, ws[coin]) && WindowOk(cfg, ws[coin])
    {
      EmptySealed(map[], coin);
      EmptyOk(cfg);
    }
  }

  lemma EmptyOk(cfg: Config)
    ensures WindowOk(cfg, EMPTY_WINDOW)
  {
  }

  lemma StartOwesNothing(cfg: Config, coin: Coin, p: Provider)
    ensures Debt(Start(cfg), coin, p) == 0
  {
    hide BoardOf;
    StartBlank(cfg, coin);
    var t := BoardOf(Start(cfg).counters, coin)[p];
    assert t == ZERO;
    assert Waiting(Start(cfg).pending, coin, p) == 0;
  }

  lemma BlankEven(cfg: Config, b: Board)
    requires b == NO_BOARD
    ensures Even(cfg, b)
  {
    hide Config.Active, Decides;
    assert forall p: Provider :: b[p] == ZERO;
  }

  /** In every state a run of the engine can reach, under any iteration order, receipt order and cap
      pressure: observations are conserved, providers are scored evenly, sealed bases stay sealed,
      rings are sorted and capped, and nothing was discarded without a mark. */
  lemma {:induction false} EngineKeepsInvariant(cfg: Config, inputs: seq<Input>, states: seq<Bench>, n: nat)
    requires Run(cfg, inputs, states) && n < |states|
    ensures Inv(cfg, states[n])
    decreases n
  {
    hide Inv, Record, SettleEach, Prune, AllUsable, EventUsable;
    if n == 0 {
      StartKeeps(cfg);
    } else {
      EngineKeepsInvariant(cfg, inputs, states, n - 1);
      var b := states[n - 1];
      match inputs[n - 1]
      case Event(e, ch) => RecordKeeps(cfg, b, e, ch);
      case TickAt(now, keys, chs) =>
        SettleEachKeeps(cfg, b, now, keys, chs);
        PruneKeeps(cfg, SettleEach(cfg, b, now, keys, chs), now);
      case Published(through) => MarkKeeps(cfg, b, through);
    }
  }

  // ---------- what that means ----------

  /** Every observation of a provider on a coin is matched, orphaned, late, a duplicate, one content
      too many, or still waiting, and exactly one of these. */
  lemma ObservationsConserved(cfg: Config, inputs: seq<Input>, states: seq<Bench>, n: nat, coin: Coin, p: Provider)
    requires Run(cfg, inputs, states) && n < |states|
    ensures var t := BoardOf(states[n].counters, coin)[p];
            t.observed == t.matched + t.orphaned + t.late + t.duplicate + t.overflow
                + Waiting(states[n].pending, coin, p)
  {
    hide Run, Core, Waiting, BoardOf;
    EngineKeepsInvariant(cfg, inputs, states, n);
    assert Debt(states[n], coin, p) == 0;
  }

  /** Every active provider of a coin is scored on the same cohorts; a mismatch is one of its missing
      cohorts; and where the reference decides what is canonical, the reference misses nothing. */
  lemma ScoredEvenly(cfg: Config, inputs: seq<Input>, states: seq<Bench>, n: nat, coin: Coin, p: Provider, q: Provider)
    requires Run(cfg, inputs, states) && n < |states| && cfg.Active(p) && cfg.Active(q)
    ensures var t, u := BoardOf(states[n].counters, coin)[p], BoardOf(states[n].counters, coin)[q];
            && t.matched + t.missing == u.matched + u.missing
            && t.mismatch <= t.missing
            && (!cfg.CanonicalByAnyArrival() && p == cfg.Reference() ==> t.missing == 0)
  {
    hide Run, WellFormed, Sealed, WindowsOk, SizesOk, BoardOf, Config.Active, Config.CanonicalByAnyArrival,
      Config.Reference, Accounted;
    EngineKeepsInvariant(cfg, inputs, states, n);
    assert Even(cfg, BoardOf(states[n].counters, coin));
    assert Decides(cfg, p) ==> BoardOf(states[n].counters, coin)[p].missing == 0;
  }

  /** No event key is both open and sealed, and a coin whose state was never evicted has each event
      key at most once in its ring, each under a tombstone at least as young. */
  lemma NoEventTwice(cfg: Config, inputs: seq<Input>, states: seq<Bench>, n: nat, coin: Coin)
    requires Run(cfg, inputs, states) && n < |states|
    ensures var b, w := states[n], WindowOf(states[n].windows, coin);
            && b.pending.Keys !! b.bases.Keys
            && (w.stateEvictions == 0 ==>
                  (forall i, j :: 0 <= i < j < |w.cohorts| ==> w.cohorts[i].it.key != w.cohorts[j].it.key)
                  && (forall x <- w.cohorts :: x.it.key.Base() in b.bases && x.at <= b.bases[x.it.key.Base()]))
  {
    hide Run, BaseOk, WindowsOk, SizesOk, AllEven, Accounted, WindowOf, Sealed;
    EngineKeepsInvariant(cfg, inputs, states, n);
    WindowSealed(states[n].bases, states[n].windows, coin);
    var w := WindowOf(states[n].windows, coin);
    if w.stateEvictions == 0 {
      forall x <- w.cohorts
        ensures x.it.key.Base() in states[n].bases && x.at <= states[n].bases[x.it.key.Base()]
      {
        assert Covered(states[n].bases, coin, x);
      }
    }
  }

  /** Rings stay in commit order and within their caps, every delay is under the cohort timeout, and
      whatever a cap discarded left a mark. */
  lemma RingsStayInBounds(cfg: Config, inputs: seq<Input>, states: seq<Bench>, n: nat, coin: Coin)
    requires Run(cfg, inputs, states) && n < |states|
    ensures var b, w := states[n], WindowOf(states[n].windows, coin);
            && (forall x <- w.cohorts :: x.at <= w.cohorts[|w.cohorts| - 1].at && x.it.commitDelay < cfg.cohortTimeout)
            && |w.cohorts| <= cfg.maxRolling && |w.coverage| <= cfg.maxRolling
            && |b.pending| <= Max(1, cfg.maxPending)
            && |b.bases| <= Max(1, cfg.maxSettled) && |b.settled| <= Max(1, cfg.maxSettled)
            && (w.stateEvictions + w.rollingEvictions + w.coverageEvictions > 0 ==> w.lastLoss.Some?)
  {
    hide Run, WellFormed, Sealed, AllEven, Accounted, WindowsOk, WindowOf;
    EngineKeepsInvariant(cfg, inputs, states, n);
    GetOk(cfg, states[n].windows, coin);
  }
}
