/** What recording an event means, told from the state it meets: what its provider is credited with, where
    the event goes, and where what is remembered of settled contents came from. */
module RecordMeaning {
  import opened Common
  import opened Model
  import opened Windows
  import opened Cohorts
  import opened SettleLaws
  import opened EngineRuns
  import opened SettleMeaning

  /** One more of some counter for the event's provider and coin, and every other counter as it was. */
  ghost predicate Credited(before: Counters, after: Counters, e: MarketEvent, t: Tally) {
    forall at: Coin, p: Provider ::
      BoardOf(after, at)[p]
      == if at == e.key.coin && p == e.provider then BoardOf(before, at)[p].Plus(t) else BoardOf(before, at)[p]
  }

  lemma CreditIs(c: Counters, e: MarketEvent, t: Tally)
    ensures Credited(c, Credit(c, e.key.coin, e.provider, t), e, t)
  {
    hide Tally.Plus, BoardOf, CreditBoard;
    forall at: Coin, p: Provider
      ensures BoardOf(Credit(c, e.key.coin, e.provider, t), at)[p]
              == if at == e.key.coin && p == e.provider then BoardOf(c, at)[p].Plus(t) else BoardOf(c, at)[p]
    {
      CreditBoardAt(c, e.key.coin, Marks({e.provider}, t), at, p);
      Nothing(BoardOf(c, at)[p]);
    }
  }

  lemma Nothing(t: Tally)
    ensures t.Plus(ZERO) == t
  {
  }

  // one of each, by name of the counter
  const AS_FUTURE: Tally := ZERO.(future := 1)
  const AS_NEGATIVE: Tally := ZERO.(negative := 1)
  const AS_OBSERVED: Tally := ZERO.(observed := 1)
  const AS_DUPLICATE: Tally := ZERO.(duplicate := 1)
  const AS_LATE: Tally := ZERO.(late := 1)
  const AS_OVERFLOW: Tally := ZERO.(overflow := 1)

  /** Nothing but the counters and the coin's integrity mark has changed. */
  predicate OnlyMarked(before: Bench, after: Bench, coin: Coin, now: Time) {
    && after.pending == before.pending && after.bases == before.bases && after.settled == before.settled
    && after.windows.Keys == before.windows.Keys + {coin}
    && forall c <- after.windows ::
         after.windows[c] == if c == coin then WindowOf(before.windows, c).(lastLoss := Some(now))
                             else WindowOf(before.windows, c)
  }

  /** An event without a time, or more than MAX_FUTURE_SKEW_MS ahead of its receipt, is a future one; one
      that is ahead by no more is a negative latency; both mark the window and go nowhere. An event of a
      provider the process does not run changes nothing. */
  lemma RefusedMeans(cfg: Config, b: Bench, e: MarketEvent, ch: EventChoice)
    requires EventUsable(cfg, b, e, ch)
    ensures !cfg.Active(e.provider) ==> Record(cfg, b, e, ch) == b
    ensures cfg.Active(e.provider) && (e.key.eventMs == 0 || e.key.eventMs > e.wall + MAX_FUTURE_SKEW_MS) ==>
              Credited(b.counters, Record(cfg, b, e, ch).counters, e, AS_FUTURE)
              && OnlyMarked(b, Record(cfg, b, e, ch), e.key.coin, e.received)
    ensures cfg.Active(e.provider) && 0 < e.key.eventMs && e.wall < e.key.eventMs <= e.wall + MAX_FUTURE_SKEW_MS ==>
              Credited(b.counters, Record(cfg, b, e, ch).counters, e, AS_NEGATIVE)
              && OnlyMarked(b, Record(cfg, b, e, ch), e.key.coin, e.received)
  {
    hide EventUsable, Credited, Credit, Config.Active, Usable, Settle;
    CreditIs(b.counters, e, AS_FUTURE);
    CreditIs(b.counters, e, AS_NEGATIVE);
  }

  /** The event is looked at: its provider is active and its time is set and not after its receipt. */
  predicate LookedAt(cfg: Config, e: MarketEvent) {
    cfg.Active(e.provider) && 0 < e.key.eventMs <= e.wall
  }

  /** The state in which the event is placed: it is counted as observed, and its base is settled first
      when its deadline has passed. */
  ghost function Seen(cfg: Config, b: Bench, e: MarketEvent, ch: EventChoice): Bench
    requires EventUsable(cfg, b, e, ch) && LookedAt(cfg, e)
  {
    SettleOverdue(cfg, CreditEvent(b, e, OBSERVED), e, ch.overdue)
  }

  lemma SeenMeans(cfg: Config, b: Bench, e: MarketEvent, ch: EventChoice)
    requires EventUsable(cfg, b, e, ch) && LookedAt(cfg, e)
    ensures var s, key := Seen(cfg, b, e, ch), e.key.Base();
            if key in b.pending && Since(e.received, b.pending[key].first) >= cfg.cohortTimeout then
              exists o: Bench :: Credited(b.counters, o.counters, e, AS_OBSERVED) && o.(counters := b.counters) == b
                && Usable(o, key, ch.overdue) && s == Settle(cfg, o, key, e.received, false, ch.overdue)
            else
              Credited(b.counters, s.counters, e, AS_OBSERVED) && s.(counters := b.counters) == b
  {
    hide Credited, Credit, Usable, Settle, Oldest, Evict, Place, SettlesAtOnce, PendingFull, Config.Active;
    CreditIs(b.counters, e, AS_OBSERVED);
    var o := CreditEvent(b, e, OBSERVED);
    assert Credited(b.counters, o.counters, e, AS_OBSERVED) && o.(counters := b.counters) == b;
  }

  /** An event for a sealed base is a duplicate if and only if the content is still remembered with its
      provider among those that delivered it in time; else it is late. It changes nothing else. */
  lemma SealedMeans(cfg: Config, b: Bench, e: MarketEvent, ch: EventChoice)
    requires EventUsable(cfg, b, e, ch) && LookedAt(cfg, e) && e.key.Base() in Seen(cfg, b, e, ch).bases
    ensures var s, after := Seen(cfg, b, e, ch), Record(cfg, b, e, ch);
            && after.(counters := s.counters) == s
            && Credited(s.counters, after.counters, e,
                        if e.key in s.settled && e.provider in s.settled[e.key].matched then AS_DUPLICATE else AS_LATE)
  {
    hide Credited, Credit, Usable, Settle, Oldest, Evict, Place, SettlesAtOnce, PendingFull, Config.Active,
      SettleOverdue;
    var s := Seen(cfg, b, e, ch);
    CreditIs(s.counters, e, AS_DUPLICATE);
    CreditIs(s.counters, e, AS_LATE);
  }

  // ---------- an open base ----------

  /** What the open base holds of the event's content before the event comes. */
  function Held(b: Bench, e: MarketEvent): Arrivals {
    var key := e.key.Base();
    if key in b.pending && e.key.content in b.pending[key].candidates then
      b.pending[key].candidates[e.key.content].arrivals
    else map[]
  }

  /** The base is at its limit of contents and does not have this one. */
  predicate OneTooMany(b: Bench, e: MarketEvent) {
    var key := e.key.Base();
    && key in b.pending && e.key.content !in b.pending[key].candidates
    && |b.pending[key].candidates| >= MAX_SIGNATURES_PER_BASE
  }

  /** The earlier of the event's receipt and what there was. */
  function Earliest(known: Option<Time>, at: Time): Time {
    match known case None => at case Some(t) => Min(t, at)
  }

  function FirstOf(b: Bench, key: BaseKey): Option<Time> {
    if key in b.pending then Some(b.pending[key].first) else None
  }

  function ContentFirst(b: Bench, e: MarketEvent): Option<Time> {
    var key := e.key.Base();
    if key in b.pending && e.key.content in b.pending[key].candidates then
      Some(b.pending[key].candidates[e.key.content].first)
    else None
  }

  /** `base` is the event's base first seen at its earliest receipt, with every other content as it was. */
  ghost predicate SameOthers(b: Bench, e: MarketEvent, base: PendingBase) {
    var key, c := e.key.Base(), e.key.content;
    && base.first == Earliest(FirstOf(b, key), e.received)
    && (forall d :: d != c ==> (d in base.candidates <==> key in b.pending && d in b.pending[key].candidates))
    && (forall d <- base.candidates :: d != c ==> base.candidates[d] == b.pending[key].candidates[d])
  }

  lemma PlacedOthers(b: Bench, e: MarketEvent)
    ensures SameOthers(b, e, PlacedBase(b, e))
  {
    hide EventKey.Base;
  }

  /** Placing an event in its open base leaves every other base and every other content as it was. */
  lemma PlaceKeepsOthers(b: Bench, e: MarketEvent)
    ensures var after, key := Place(b, e), e.key.Base();
            && after.bases == b.bases && after.settled == b.settled
            && after.pending.Keys == b.pending.Keys + {key}
            && (forall k <- b.pending :: k != key ==> after.pending[k] == b.pending[k])
            && SameOthers(b, e, after.pending[key])
  {
    hide PlacedCounters, MarkLoss, PlacedBase, SameOthers, EventKey.Base;
    PlacedOthers(b, e);
  }

  /** One content too many is not placed; any other becomes its provider's arrival of that content, with
      its own receipt and wall time, unless there is one already; the content is first seen at its
      earliest receipt. */
  lemma PlaceMeans(b: Bench, e: MarketEvent)
    ensures var key, c := e.key.Base(), e.key.content;
            var base := Place(b, e).pending[key];
            if OneTooMany(b, e) then c !in base.candidates
            else
              && c in base.candidates
              && base.candidates[c].first == Earliest(ContentFirst(b, e), e.received)
              && base.candidates[c].arrivals
                 == (if e.provider in Held(b, e) then Held(b, e) else Held(b, e)[e.provider := Obs(e.received, e.wall)])
  {
    hide PlacedCounters, MarkLoss;
  }

  /** One content too many is counted as an overflow, a second copy from one provider as a duplicate, and
      an event that is placed is counted nowhere yet. */
  lemma PlaceCounts(b: Bench, e: MarketEvent)
    ensures var after := Place(b, e);
            if OneTooMany(b, e) then Credited(b.counters, after.counters, e, AS_OVERFLOW)
            else if e.provider in Held(b, e) then Credited(b.counters, after.counters, e, AS_DUPLICATE)
            else after.counters == b.counters
  {
    hide Credited, Credit, MarkLoss, PlacedBase;
    CreditIs(b.counters, e, AS_OVERFLOW);
    CreditIs(b.counters, e, AS_DUPLICATE);
  }

  /** And one content too many marks the coin's window. */
  lemma PlaceMarks(b: Bench, e: MarketEvent)
    ensures var after, coin := Place(b, e), e.key.coin;
            if !OneTooMany(b, e) then after.windows == b.windows
            else OnlyMarked(b.(pending := after.pending), after.(settled := b.settled), coin, e.received)
  {
    hide PlacedCounters, PlacedBase, EventKey.Base;
    TooManyIff(b, e);
  }

  lemma TooManyIff(b: Bench, e: MarketEvent)
    ensures TooManyContents(JoinedBase(b, e), e.key.content) <==> OneTooMany(b, e)
  {
  }

  /** An event for an open base is placed there, once room has been made when there are too many bases,
      and with a single provider that base is settled at once. */
  lemma OpenMeans(cfg: Config, b: Bench, e: MarketEvent, ch: EventChoice)
    requires EventUsable(cfg, b, e, ch) && LookedAt(cfg, e) && e.key.Base() !in Seen(cfg, b, e, ch).bases
    ensures var s, key := Seen(cfg, b, e, ch), e.key.Base();
            exists room: Bench ::
              && (if key !in s.pending && |s.pending| >= cfg.maxPending && s.pending != map[] then
                    Usable(s, ch.oldest, ch.evict)
                    && (forall k <- s.pending :: s.pending[ch.oldest].first <= s.pending[k].first)
                    && room == Settle(cfg, s, ch.oldest, e.received, true, ch.evict)
                  else room == s)
              && (if |cfg.Providers()| == 1 && !OneTooMany(room, e) && e.provider !in Held(room, e) then
                    Usable(Place(room, e), key, ch.single)
                    && Record(cfg, b, e, ch) == Settle(cfg, Place(room, e), key, e.received, false, ch.single)
                  else Record(cfg, b, e, ch) == Place(room, e))
  {
    hide Credit, Usable, Settle, Oldest, Place, Config.Active, Config.Providers, SettleOverdue, Distinct;
    var s := Seen(cfg, b, e, ch);
    var room := Evict(cfg, s, e, ch);
    PlacedIff(room, e);
  }

  lemma PlacedIff(b: Bench, e: MarketEvent)
    ensures Placed(b, e) <==> !OneTooMany(b, e) && e.provider !in Held(b, e)
  {
  }

  // ---------- where what is remembered came from ----------

  /** The input may settle `base` with the arrivals `pb`: those it was open with, or those an event made. */
  predicate SettlesIn(b: Bench, i: Input, base: BaseKey, pb: PendingBase) {
    || (base in b.pending && pb == b.pending[base])
    || (i.Event? && base == i.e.key.Base() && pb == PlacedBase(b, i.e))
  }

  /** What `k` is remembered with was there before, or comes from a base the input may settle. */
  ghost predicate Sourced(cfg: Config, b: Bench, i: Input, after: Bench, k: EventKey) {
    k in after.settled ==>
      (k in b.settled && after.settled[k] == b.settled[k])
      || exists base, pb :: SettlesIn(b, i, base, pb) && Remembers(cfg, base, pb, k, after.settled[k])
  }

  lemma SettleSourced(cfg: Config, b: Bench, i: Input, s: Bench, key: BaseKey, now: Time, evicted: bool, ch: Choice,
                      k: EventKey)
    requires Usable(s, key, ch) && SettlesIn(b, i, key, s.pending[key])
    requires Sourced(cfg, b, i, s, k)
    ensures Sourced(cfg, b, i, Settle(cfg, s, key, now, evicted, ch), k)
  {
    hide Settle, Usable, Remembers, SettlesIn;
    UsableOpen(s, key, ch);
    SettleRemembers(cfg, s, key, now, evicted, ch, k);
  }

  lemma UsableOpen(b: Bench, key: BaseKey, ch: Choice)
    requires Usable(b, key, ch)
    ensures key in b.pending
  {
  }

  lemma SettleLeaves(cfg: Config, b: Bench, key: BaseKey, now: Time, evicted: bool, ch: Choice)
    requires Usable(b, key, ch)
    ensures Settle(cfg, b, key, now, evicted, ch).pending == b.pending - {key}
  {
    hide SettleRings, SettleCounters, SealBase;
  }

  lemma {:induction false} EachSourced(cfg: Config, b: Bench, i: Input, s: Bench, now: Time, keys: seq<BaseKey>,
                                       chs: seq<Choice>, k: EventKey)
    requires |chs| == |keys| && AllUsable(cfg, s, now, keys, chs)
    requires forall j <- s.pending :: j in b.pending && s.pending[j] == b.pending[j]
    requires Sourced(cfg, b, i, s, k)
    ensures Sourced(cfg, b, i, SettleEach(cfg, s, now, keys, chs), k)
    decreases |keys|
  {
    hide Settle, Usable, Oldest, Sourced;
    if keys != [] {
      UsableOpen(s, keys[0], chs[0]);
      SettleSourced(cfg, b, i, s, keys[0], now, false, chs[0], k);
      SettleLeaves(cfg, s, keys[0], now, false, chs[0]);
      EachSourced(cfg, b, i, Settle(cfg, s, keys[0], now, false, chs[0]), now, keys[1..], chs[1..], k);
    }
  }

  lemma SeenSourced(cfg: Config, b: Bench, e: MarketEvent, ch: EventChoice, k: EventKey)
    requires EventUsable(cfg, b, e, ch) && LookedAt(cfg, e)
    ensures Sourced(cfg, b, Event(e, ch), Seen(cfg, b, e, ch), k)
    ensures Seen(cfg, b, e, ch).pending == b.pending - (if e.key.Base() in Seen(cfg, b, e, ch).pending then {}
                                                        else {e.key.Base()})
  {
    hide Credit, Usable, Settle, Oldest, Evict, Place, SettlesAtOnce, PendingFull, Config.Active, Remembers;
    var o, key := CreditEvent(b, e, OBSERVED), e.key.Base();
    if Overdue(cfg, o, key, e.received) {
      SettleSourced(cfg, b, Event(e, ch), o, key, e.received, false, ch.overdue, k);
      SettleLeaves(cfg, o, key, e.received, false, ch.overdue);
    }
  }

  /** A base just settled is sealed. */
  lemma SettleSealsBase(cfg: Config, b: Bench, key: BaseKey, now: Time, evicted: bool, ch: Choice)
    requires Usable(b, key, ch)
    ensures key in Settle(cfg, b, key, now, evicted, ch).bases
  {
    hide SettleRings, SettleCounters, BasesFull;
  }

  lemma SeenKeepsOpen(cfg: Config, b: Bench, e: MarketEvent, ch: EventChoice)
    requires EventUsable(cfg, b, e, ch) && LookedAt(cfg, e) && e.key.Base() !in Seen(cfg, b, e, ch).bases
    ensures Seen(cfg, b, e, ch).pending == b.pending
  {
    hide Credit, Usable, Settle, Oldest, Evict, Place, SettlesAtOnce, PendingFull, Config.Active;
    var o, key := CreditEvent(b, e, OBSERVED), e.key.Base();
    if Overdue(cfg, o, key, e.received) {
      SettleSealsBase(cfg, o, key, e.received, false, ch.overdue);
    }
  }

  lemma PlacedAlike(b: Bench, room: Bench, e: MarketEvent)
    requires e.key.Base() in room.pending <==> e.key.Base() in b.pending
    requires e.key.Base() in b.pending ==> room.pending[e.key.Base()] == b.pending[e.key.Base()]
    ensures PlacedBase(room, e) == PlacedBase(b, e)
    ensures Place(room, e).pending[e.key.Base()] == PlacedBase(b, e) && Place(room, e).settled == room.settled
  {
    hide PlacedCounters, MarkLoss;
  }

  lemma OpenSourced(cfg: Config, b: Bench, e: MarketEvent, ch: EventChoice, k: EventKey)
    requires EventUsable(cfg, b, e, ch) && LookedAt(cfg, e) && e.key.Base() !in Seen(cfg, b, e, ch).bases
    ensures Sourced(cfg, b, Event(e, ch), Record(cfg, b, e, ch), k)
  {
    hide Credit, Usable, Settle, Oldest, Place, Config.Active, Config.Providers, SettleOverdue, Distinct, Sourced,
      PlacedBase, Placed;
    var s, key := Seen(cfg, b, e, ch), e.key.Base();
    SeenSourced(cfg, b, e, ch, k);
    SeenKeepsOpen(cfg, b, e, ch);
    if PendingFull(cfg, s, key) {
      UsableOpen(s, ch.oldest, ch.evict);
      SettleSourced(cfg, b, Event(e, ch), s, ch.oldest, e.received, true, ch.evict, k);
      SettleLeaves(cfg, s, ch.oldest, e.received, true, ch.evict);
    }
    var room := Evict(cfg, s, e, ch);
    PlacedAlike(b, room, e);
    SameSource(cfg, b, Event(e, ch), room, Place(room, e), k);
    if SettlesAtOnce(cfg, room, e) {
      UsableOpen(Place(room, e), key, ch.single);
      SettleSourced(cfg, b, Event(e, ch), Place(room, e), key, e.received, false, ch.single, k);
    }
  }

  lemma SameSource(cfg: Config, b: Bench, i: Input, s: Bench, t: Bench, k: EventKey)
    requires Sourced(cfg, b, i, s, k) && t.settled == s.settled
    ensures Sourced(cfg, b, i, t, k)
  {
    hide Remembers, SettlesIn;
  }

  lemma EventSourced(cfg: Config, b: Bench, e: MarketEvent, ch: EventChoice, k: EventKey)
    requires EventUsable(cfg, b, e, ch)
    ensures Sourced(cfg, b, Event(e, ch), Record(cfg, b, e, ch), k)
  {
    hide EventUsable, Config.Active, Remembers, Sourced;
    if !LookedAt(cfg, e) {
      RefusedMeans(cfg, b, e, ch);
      SameSource(cfg, b, Event(e, ch), b, Record(cfg, b, e, ch), k) by { NoNewSource(cfg, b, Event(e, ch), k); }
    } else if e.key.Base() in Seen(cfg, b, e, ch).bases {
      SeenSourced(cfg, b, e, ch, k);
      SealedMeans(cfg, b, e, ch);
      SameSource(cfg, b, Event(e, ch), Seen(cfg, b, e, ch), Record(cfg, b, e, ch), k);
    } else {
      OpenSourced(cfg, b, e, ch, k);
    }
  }

  lemma NoNewSource(cfg: Config, b: Bench, i: Input, k: EventKey)
    ensures Sourced(cfg, b, i, b, k)
  {
  }

  lemma StepSourced(cfg: Config, b: Bench, i: Input, k: EventKey)
    requires InputUsable(cfg, b, i)
    ensures Sourced(cfg, b, i, StepInput(cfg, b, i), k)
  {
    hide EventUsable, AllUsable, Expired, Record, Settle, SettleEach, Remembers, SettlesIn, MarkAll;
    match i
    case Event(e, ch) => EventSourced(cfg, b, e, ch, k);
    case TickAt(now, keys, chs) =>
      NoNewSource(cfg, b, i, k);
      EachSourced(cfg, b, i, b, now, keys, chs, k);
    case Published(_) => NoNewSource(cfg, b, i, k);
  }

  /** Some input up to the `n`-th may have settled a base whose arrivals are what `k` is remembered with. */
  ghost predicate FromSome(cfg: Config, inputs: seq<Input>, states: seq<Bench>, n: nat, k: EventKey, s: Settled)
    requires n <= |inputs| && |states| == |inputs| + 1
  {
    exists m, base, pb :: FromTurn(cfg, inputs, states, n, k, s, m, base, pb)
  }

  ghost predicate FromTurn(cfg: Config, inputs: seq<Input>, states: seq<Bench>, n: nat, k: EventKey, s: Settled, m: int,
                           base: BaseKey, pb: PendingBase)
    requires n <= |inputs| && |states| == |inputs| + 1
  {
    0 <= m < n && SettlesIn(states[m], inputs[m], base, pb) && Remembers(cfg, base, pb, k, s)
  }

  lemma FromMore(cfg: Config, inputs: seq<Input>, states: seq<Bench>, n: nat, k: EventKey, s: Settled)
    requires n < |inputs| && |states| == |inputs| + 1 && FromSome(cfg, inputs, states, n, k, s)
    ensures FromSome(cfg, inputs, states, n + 1, k, s)
  {
    hide SettlesIn, Remembers;
    var m, base, pb :| FromTurn(cfg, inputs, states, n, k, s, m, base, pb);
    assert FromTurn(cfg, inputs, states, n + 1, k, s, m, base, pb);
  }

  lemma FromHere(cfg: Config, inputs: seq<Input>, states: seq<Bench>, n: nat, after: Bench, k: EventKey)
    requires n < |inputs| && |states| == |inputs| + 1 && Sourced(cfg, states[n], inputs[n], after, k)
    requires k in states[n].settled ==> FromSome(cfg, inputs, states, n, k, states[n].settled[k])
    ensures k in after.settled ==> FromSome(cfg, inputs, states, n + 1, k, after.settled[k])
  {
    hide SettlesIn, Remembers;
    if k in after.settled {
      if k in states[n].settled && after.settled[k] == states[n].settled[k] {
        FromMore(cfg, inputs, states, n, k, after.settled[k]);
      } else {
        var base, pb :| SettlesIn(states[n], inputs[n], base, pb) && Remembers(cfg, base, pb, k, after.settled[k]);
        assert FromTurn(cfg, inputs, states, n + 1, k, after.settled[k], n, base, pb);
      }
    }
  }

  /** In every state a run can reach, what is remembered of a settled content is the set of providers that
      had delivered it in time to some base settled before. */
  lemma {:induction false} RememberedWasMatched(cfg: Config, inputs: seq<Input>, states: seq<Bench>, n: nat,
                                                k: EventKey)
    requires Run(cfg, inputs, states) && n < |states|
    ensures |states| == |inputs| + 1
    ensures k in states[n].settled ==> FromSome(cfg, inputs, states, n, k, states[n].settled[k])
    decreases n
  {
    hide InputUsable, StepInput, FromSome, Sourced;
    if n > 0 {
      RememberedWasMatched(cfg, inputs, states, n - 1, k);
      StepSourced(cfg, states[n - 1], inputs[n - 1], k);
      FromHere(cfg, inputs, states, n - 1, states[n], k);
    }
  }

  /** And the provider had delivered it in time to that base. */
  ghost predicate MatchedBefore(cfg: Config, inputs: seq<Input>, states: seq<Bench>, n: nat, k: EventKey, s: Settled,
                                p: Provider)
    requires n <= |inputs| && |states| == |inputs| + 1
  {
    exists m, base, pb :: FromTurn(cfg, inputs, states, n, k, s, m, base, pb) && InTime(cfg, pb, k.content, p)
  }

  /** Over every run: an event for a sealed base is counted as a duplicate if and only if its content is
      remembered with its provider, and then that provider had delivered the content in time to a base
      settled by then; otherwise it is counted as late. */
  lemma DuplicateIff(cfg: Config, inputs: seq<Input>, states: seq<Bench>, n: nat)
    requires Run(cfg, inputs, states) && n < |inputs| && inputs[n].Event?
    requires |states| == |inputs| + 1 && InputUsable(cfg, states[n], inputs[n]) && LookedAt(cfg, inputs[n].e)
    requires var e, ch := inputs[n].e, inputs[n].ch; e.key.Base() in Seen(cfg, states[n], e, ch).bases
    ensures var e, ch := inputs[n].e, inputs[n].ch;
            var s := Seen(cfg, states[n], e, ch);
            var again := e.key in s.settled && e.provider in s.settled[e.key].matched;
            && Credited(s.counters, states[n + 1].counters, e, if again then AS_DUPLICATE else AS_LATE)
            && (again ==> MatchedBefore(cfg, inputs, states, n + 1, e.key, s.settled[e.key], e.provider))
  {
    hide EventUsable, Record, Seen, Credited, Remembers, SettlesIn, Config.Active;
    var e, ch := inputs[n].e, inputs[n].ch;
    var s := Seen(cfg, states[n], e, ch);
    assert states[n + 1] == StepInput(cfg, states[n], inputs[n]);
    SealedMeans(cfg, states[n], e, ch);
    RememberedWasMatched(cfg, inputs, states, n, e.key);
    SeenSourced(cfg, states[n], e, ch, e.key);
    if e.key in s.settled && e.provider in s.settled[e.key].matched {
      assert Sourced(cfg, states[n], inputs[n], s, e.key);
      FromHere(cfg, inputs, states, n, s, e.key);
      var m, base, pb :| FromTurn(cfg, inputs, states, n + 1, e.key, s.settled[e.key], m, base, pb);
      RemembersInTime(cfg, base, pb, e.key, s.settled[e.key], e.provider);
    }
  }

  lemma RemembersInTime(cfg: Config, base: BaseKey, pb: PendingBase, k: EventKey, s: Settled, p: Provider)
    requires Remembers(cfg, base, pb, k, s)
    ensures p in s.matched <==> InTime(cfg, pb, k.content, p)
  {
  }
}
