/** The cohort engine of `src/benchmark.rs` as functions on values. Wherever the source iterates a
    HashMap or breaks a tie by its order, the function takes the choice as an argument, so every
    statement about it holds whatever the order was. */
module Cohorts {
  import opened Common
  import opened Model
  import opened Windows

  const MAX_FUTURE_SKEW_MS: nat := 5000
  const MAX_SIGNATURES_PER_BASE: nat := 4

  // ---------- counters ----------

  datatype Tally = Tally(observed: nat, matched: nat, missing: nat, mismatch: nat, duplicate: nat, late: nat,
                         orphaned: nat, negative: nat, future: nat, overflow: nat)
  {
    function Plus(o: Tally): Tally {
      Tally(observed + o.observed, matched + o.matched, missing + o.missing, mismatch + o.mismatch,
            duplicate + o.duplicate, late + o.late, orphaned + o.orphaned, negative + o.negative,
            future + o.future, overflow + o.overflow)
    }
  }

  const ZERO: Tally := Tally(0, 0, 0, 0, 0, 0, 0, 0, 0, 0)

  // one observation's worth of each counter; a mismatch is also a missing cohort
  const OBSERVED: Tally := Tally(1, 0, 0, 0, 0, 0, 0, 0, 0, 0)
  const MATCHED: Tally := Tally(0, 1, 0, 0, 0, 0, 0, 0, 0, 0)
  const MISSED: Tally := Tally(0, 0, 1, 0, 0, 0, 0, 0, 0, 0)
  const DUPLICATE: Tally := Tally(0, 0, 0, 0, 1, 0, 0, 0, 0, 0)
  const LATE: Tally := Tally(0, 0, 0, 0, 0, 1, 0, 0, 0, 0)
  const ORPHANED: Tally := Tally(0, 0, 0, 0, 0, 0, 1, 0, 0, 0)
  const NEGATIVE: Tally := Tally(0, 0, 0, 0, 0, 0, 0, 1, 0, 0)
  const FUTURE: Tally := Tally(0, 0, 0, 0, 0, 0, 0, 0, 1, 0)
  const OVERFLOW: Tally := Tally(0, 0, 0, 0, 0, 0, 0, 0, 0, 1)
  const MISMATCHED: Tally := Tally(0, 0, 1, 1, 0, 0, 0, 0, 0, 0)

  /** One coin's counters, by provider index. */
  type Board = b: seq<Tally> | |b| == PROVIDERS witness [ZERO, ZERO, ZERO, ZERO, ZERO, ZERO]

  const NO_BOARD: Board := [ZERO, ZERO, ZERO, ZERO, ZERO, ZERO]

  function PlusBoard(a: Board, b: Board): (r: Board)
    ensures forall p: Provider :: r[p] == a[p].Plus(b[p])
  {
    seq(PROVIDERS, i requires 0 <= i < PROVIDERS => a[i].Plus(b[i]))
  }

  /** `t` for the providers in `ps`, nothing for the others. */
  function Marks(ps: set<Provider>, t: Tally): (r: Board)
    ensures forall p: Provider :: r[p] == if p in ps then t else ZERO
  {
    seq(PROVIDERS, i requires 0 <= i < PROVIDERS => if i in ps then t else ZERO)
  }

  type Counters = map<Coin, Board>

  function BoardOf(c: Counters, coin: Coin): Board {
    if coin in c then c[coin] else NO_BOARD
  }

  function CreditBoard(c: Counters, coin: Coin, b: Board): Counters {
    c[coin := PlusBoard(BoardOf(c, coin), b)]
  }

  function Credit(c: Counters, coin: Coin, p: Provider, t: Tally): Counters {
    CreditBoard(c, coin, Marks({p}, t))
  }

  // ---------- state ----------

  datatype Obs = Obs(received: Time, wall: nat)

  type Arrivals = map<Provider, Obs>

  datatype Candidate = Candidate(first: Time, arrivals: Arrivals)

  datatype PendingBase = PendingBase(first: Time, candidates: map<ContentKey, Candidate>)

  /** A settled event key: when, and which providers matched it. */
  datatype Settled = Settled(at: Time, matched: set<Provider>)

  type CoinWindows = map<Coin, Window>

  datatype Bench = Bench(pending: map<BaseKey, PendingBase>, bases: map<BaseKey, Time>,
                         settled: map<EventKey, Settled>, counters: Counters, windows: CoinWindows)

  function WindowOf(w: CoinWindows, coin: Coin): Window {
    if coin in w then w[coin] else EMPTY_WINDOW
  }

  /** A tombstone was evicted under cap pressure: it shows. */
  function BumpEviction(w: CoinWindows, coin: Coin, now: Time): CoinWindows {
    w[coin := WindowOf(w, coin).(stateEvictions := WindowOf(w, coin).stateEvictions + 1, lastLoss := Some(now))]
  }

  function MarkLoss(w: CoinWindows, coin: Coin, now: Time): CoinWindows {
    w[coin := WindowOf(w, coin).(lastLoss := Some(now))]
  }

  // ---------- one candidate of a base that is being settled ----------

  predicate Late(cfg: Config, pb: PendingBase, o: Obs) {
    Since(o.received, pb.first) >= cfg.cohortTimeout
  }

  function LateBy(cfg: Config, pb: PendingBase, c: ContentKey): set<Provider>
    requires c in pb.candidates
  {
    var a := pb.candidates[c].arrivals;
    set p: Provider | p in a && cfg.Active(p) && Late(cfg, pb, a[p])
  }

  /** The candidate's arrivals once those past the deadline are cleared. */
  function OnTime(cfg: Config, pb: PendingBase, c: ContentKey): Arrivals
    requires c in pb.candidates
  {
    pb.candidates[c].arrivals - LateBy(cfg, pb, c)
  }

  function ActiveIn(cfg: Config, kept: Arrivals): set<Provider> {
    set p: Provider | p in kept && cfg.Active(p)
  }

  predicate Canonical(cfg: Config, pb: PendingBase, c: ContentKey)
    requires c in pb.candidates
  {
    if cfg.CanonicalByAnyArrival() then exists p: Provider :: cfg.Active(p) && p in OnTime(cfg, pb, c)
    else cfg.Reference() in OnTime(cfg, pb, c)
  }

  /** Providers that delivered some content that is not canonical. */
  ghost function Strays(cfg: Config, pb: PendingBase): set<Provider> {
    set c, p: Provider | c in pb.candidates && !Canonical(cfg, pb, c) && p in OnTime(cfg, pb, c) && cfg.Active(p) :: p
  }

  datatype Phase = ClearLate | CountOrphans | Finalize

  /** What one candidate adds to each provider's counters in one phase of `settle`. */
  function Share(cfg: Config, pb: PendingBase, strays: set<Provider>, phase: Phase, c: ContentKey): (r: Board)
    requires c in pb.candidates
  {
    var kept := OnTime(cfg, pb, c);
    match phase
    case ClearLate => Marks(LateBy(cfg, pb, c), LATE)
    case CountOrphans =>
      if Canonical(cfg, pb, c) then NO_BOARD
      else Marks(ActiveIn(cfg, kept), ORPHANED)
    case Finalize => if Canonical(cfg, pb, c) then FinalShare(cfg, kept, strays) else NO_BOARD
  }

  function FinalTally(cfg: Config, kept: Arrivals, strays: set<Provider>, p: Provider): Tally {
    if !cfg.Active(p) then ZERO
    else if p in kept then MATCHED
    else if p in strays then MISMATCHED
    else MISSED
  }

  function FinalShare(cfg: Config, kept: Arrivals, strays: set<Provider>): (r: Board)
    ensures forall p: Provider :: r[p] == FinalTally(cfg, kept, strays, p)
  {
    seq(PROVIDERS, i requires 0 <= i < PROVIDERS => FinalTally(cfg, kept, strays, i))
  }

  predicate Among(order: seq<ContentKey>, pb: PendingBase) {
    forall c <- order :: c in pb.candidates
  }

  /** One phase over the candidates in iteration order. */
  function Shares(cfg: Config, pb: PendingBase, strays: set<Provider>, phase: Phase, order: seq<ContentKey>): Board
    requires Among(order, pb)
    decreases |order|
  {
    if order == [] then NO_BOARD
    else PlusBoard(Shares(cfg, pb, strays, phase, order[..|order| - 1]),
                   Share(cfg, pb, strays, phase, order[|order| - 1]))
  }

  // ---------- tombstones ----------

  predicate OldestBase(bases: map<BaseKey, Time>, k: BaseKey) {
    k in bases && forall j <- bases :: bases[k] <= bases[j]
  }

  predicate OldestSettled(settled: map<EventKey, Settled>, k: EventKey) {
    k in settled && forall j <- settled :: settled[k].at <= settled[j].at
  }

  predicate BasesFull(cfg: Config, bases: map<BaseKey, Time>) {
    |bases| >= cfg.maxSettled && bases != map[]
  }

  predicate SettledFull(cfg: Config, settled: map<EventKey, Settled>) {
    |settled| >= cfg.maxSettled && settled != map[]
  }

  /** `insert_settled_base`; `victim` is the oldest tombstone when the map is full. */
  function SealBase(cfg: Config, bases: map<BaseKey, Time>, key: BaseKey, now: Time,
                    victim: BaseKey): map<BaseKey, Time> {
    (if BasesFull(cfg, bases) then bases - {victim} else bases)[key := now]
  }

  function SealBaseWindows(cfg: Config, w: CoinWindows, bases: map<BaseKey, Time>, now: Time,
                           victim: BaseKey): CoinWindows {
    if BasesFull(cfg, bases) then BumpEviction(w, victim.coin, now) else w
  }

  // ---------- finalize_candidate ----------

  /** The rings and settled keys, which `finalize_candidate` changes beside the counters. */
  datatype Rings = Rings(windows: CoinWindows, settled: map<EventKey, Settled>)

  predicate Complete(cfg: Config, kept: Arrivals) {
    forall p: Provider :: cfg.Active(p) ==> p in kept
  }

  /** The latest receipt among the active providers of a complete candidate. */
  function Latest(kept: Arrivals, providers: seq<Provider>): (t: Time)
    requires providers != [] && forall p <- providers :: p in kept
    ensures exists p: Provider :: p in providers && kept[p].received == t
    ensures forall p: Provider :: p in providers ==> kept[p].received <= t
  {
    if |providers| == 1 then assert providers[0] in providers; kept[providers[0]].received
    else
      assert forall p: Provider :: p in providers <==> p == providers[0] || p in providers[1..];
      Max(kept[providers[0]].received, Latest(kept, providers[1..]))
  }

  function SettledAt(cfg: Config, kept: Arrivals, now: Time): Time {
    if Complete(cfg, kept) then
      ConfigIsSound(cfg);
      assert forall p <- cfg.Providers() :: cfg.Active(p);
      Latest(kept, cfg.Providers())
    else now
  }

  function OutcomeOf(cfg: Config, kept: Arrivals, strays: set<Provider>, p: Provider): CoverageOutcome {
    if !cfg.Active(p) then Missing
    else if p in kept then Matched
    else if p in strays then Mismatch
    else Missing
  }

  function CoverageOf(cfg: Config, key: EventKey, kept: Arrivals, strays: set<Provider>): Coverage {
    Coverage(key, map p: Provider | 0 <= p < PROVIDERS :: OutcomeOf(cfg, kept, strays, p))
  }

  function LatenciesOf(cfg: Config, key: EventKey, kept: Arrivals): Latencies {
    seq(PROVIDERS, i requires 0 <= i < PROVIDERS =>
      if cfg.Active(i) && i in kept then Since(kept[i].wall, key.eventMs) else 0)
  }

  function FinalizeWindow(cfg: Config, w: Window, key: EventKey, first: Time, kept: Arrivals, strays: set<Provider>,
                          now: Time): Window
  {
    var at := SettledAt(cfg, kept, now);
    var covered := AdmitCoverage(w, Stamped(at, CoverageOf(cfg, key, kept, strays)), cfg.maxRolling, now);
    if Complete(cfg, kept) then
      AdmitCohort(covered, at, key, LatenciesOf(cfg, key, kept), Since(at, first), cfg.maxRolling, now)
    else covered
  }

  /** `insert_settled`; `victim` is the oldest settled key when the map is full. */
  function SealKey(cfg: Config, r: Rings, key: EventKey, s: Settled, victim: EventKey): Rings {
    if SettledFull(cfg, r.settled) then
      Rings(BumpEviction(r.windows, victim.coin, s.at), (r.settled - {victim})[key := s])
    else Rings(r.windows, r.settled[key := s])
  }

  function FinalizeOne(cfg: Config, r: Rings, key: EventKey, first: Time, kept: Arrivals, strays: set<Provider>,
                       now: Time, victim: EventKey): Rings
  {
    var w := FinalizeWindow(cfg, WindowOf(r.windows, key.coin), key, first, kept, strays, now);
    SealKey(cfg, Rings(r.windows[key.coin := w], r.settled), key,
            Settled(SettledAt(cfg, kept, now), ActiveIn(cfg, kept)), victim)
  }

  function KeyOf(base: BaseKey, c: ContentKey): EventKey {
    EventKey(base.coin, base.eventMs, c)
  }

  /** Finalize every canonical candidate in iteration order. */
  function FinalizeAll(cfg: Config, r: Rings, base: BaseKey, pb: PendingBase, strays: set<Provider>,
                       order: seq<ContentKey>, victims: seq<EventKey>, now: Time): Rings
    requires Among(order, pb) && |victims| == |order|
    decreases |order|
  {
    if order == [] then r
    else
      var n := |order| - 1;
      var c := order[n];
      var before := FinalizeAll(cfg, r, base, pb, strays, order[..n], victims[..n], now);
      if Canonical(cfg, pb, c) then
        FinalizeOne(cfg, before, KeyOf(base, c), pb.candidates[c].first, OnTime(cfg, pb, c), strays, now, victims[n])
      else before
  }

  // ---------- settle ----------

  /** The order a base's candidates are visited in, and what cap pressure evicts. */
  datatype Choice = Choice(order: seq<ContentKey>, victims: seq<EventKey>, baseVictim: BaseKey)

  predicate Enumerates(order: seq<ContentKey>, pb: PendingBase) {
    Distinct(order) && Among(order, pb) && forall c <- pb.candidates :: c in order
  }

  predicate Usable(b: Bench, key: BaseKey, ch: Choice) {
    && key in b.pending
    && Enumerates(ch.order, b.pending[key])
    && |ch.victims| == |ch.order|
  }

  ghost function SettleCounters(cfg: Config, c: Counters, coin: Coin, pb: PendingBase, order: seq<ContentKey>): Counters
    requires Among(order, pb)
  {
    var strays := Strays(cfg, pb);
    var late := CreditBoard(c, coin, Shares(cfg, pb, strays, ClearLate, order));
    var orphans := CreditBoard(late, coin, Shares(cfg, pb, strays, CountOrphans, order));
    CreditBoard(orphans, coin, Shares(cfg, pb, strays, Finalize, order))
  }

  ghost function SettleRings(cfg: Config, b: Bench, key: BaseKey, now: Time, evicted: bool, ch: Choice): Rings
    requires Usable(b, key, ch)
  {
    var sealed := SealBaseWindows(cfg, b.windows, b.bases, now, ch.baseVictim);
    var marked := if evicted then BumpEviction(sealed, key.coin, now) else sealed;
    FinalizeAll(cfg, Rings(marked, b.settled), key, b.pending[key], Strays(cfg, b.pending[key]), ch.order, ch.victims,
                now)
  }

  ghost function Settle(cfg: Config, b: Bench, key: BaseKey, now: Time, evicted: bool, ch: Choice): Bench
    requires Usable(b, key, ch)
  {
    var r := SettleRings(cfg, b, key, now, evicted, ch);
    Bench(b.pending - {key}, SealBase(cfg, b.bases, key, now, ch.baseVictim), r.settled,
          SettleCounters(cfg, b.counters, key.coin, b.pending[key], ch.order), r.windows)
  }

  // ---------- record_market ----------

  datatype MarketEvent = MarketEvent(provider: Provider, key: EventKey, received: Time, wall: nat)

  /** The event's timestamp is unset or ahead of the receipt: it is counted and marks the window. */
  predicate Refused(e: MarketEvent) {
    e.key.eventMs == 0 || e.key.eventMs > e.wall
  }

  function Refuse(b: Bench, e: MarketEvent): Bench
    requires Refused(e)
  {
    var skewed := e.key.eventMs == 0 || e.key.eventMs - e.wall > MAX_FUTURE_SKEW_MS;
    b.(counters := Credit(b.counters, e.key.coin, e.provider,
                          if skewed then FUTURE else NEGATIVE),
       windows := MarkLoss(b.windows, e.key.coin, e.received))
  }

  function CreditEvent(b: Bench, e: MarketEvent, t: Tally): Bench {
    b.(counters := Credit(b.counters, e.key.coin, e.provider, t))
  }

  predicate Overdue(cfg: Config, b: Bench, key: BaseKey, now: Time) {
    key in b.pending && Since(now, b.pending[key].first) >= cfg.cohortTimeout
  }

  /** A base whose deadline has passed is settled before the event is looked at. */
  ghost function SettleOverdue(cfg: Config, b: Bench, e: MarketEvent, ch: Choice): Bench
    requires Overdue(cfg, b, e.key.Base(), e.received) ==> Usable(b, e.key.Base(), ch)
  {
    if Overdue(cfg, b, e.key.Base(), e.received) then Settle(cfg, b, e.key.Base(), e.received, false, ch) else b
  }

  /** An event for a sealed base: a duplicate of a match, or late. */
  function CountSealed(b: Bench, e: MarketEvent): Bench {
    var again := e.key in b.settled && e.provider in b.settled[e.key].matched;
    CreditEvent(b, e, if again then DUPLICATE else LATE)
  }

  predicate OldestPending(pending: map<BaseKey, PendingBase>, k: BaseKey) {
    k in pending && forall j <- pending :: pending[k].first <= pending[j].first
  }

  predicate PendingFull(cfg: Config, b: Bench, key: BaseKey) {
    key !in b.pending && |b.pending| >= cfg.maxPending && b.pending != map[]
  }

  /** The base an event joins, with the earliest receipt seen for it. */
  function JoinedBase(b: Bench, e: MarketEvent): PendingBase {
    var pb := if e.key.Base() in b.pending then b.pending[e.key.Base()] else PendingBase(e.received, map[]);
    pb.(first := Min(pb.first, e.received))
  }

  function JoinedCandidate(pb: PendingBase, e: MarketEvent): Candidate {
    var c := if e.key.content in pb.candidates then pb.candidates[e.key.content] else Candidate(e.received, map[]);
    c.(first := Min(c.first, e.received))
  }

  predicate TooManyContents(pb: PendingBase, c: ContentKey) {
    c !in pb.candidates && |pb.candidates| >= MAX_SIGNATURES_PER_BASE
  }

  /** The event was given a place among the arrivals. */
  predicate Placed(b: Bench, e: MarketEvent) {
    var pb := JoinedBase(b, e);
    !TooManyContents(pb, e.key.content) && e.provider !in JoinedCandidate(pb, e).arrivals
  }

  /** The base once the event has its place, if there is one for it. */
  function PlacedBase(b: Bench, e: MarketEvent): PendingBase {
    var pb := JoinedBase(b, e);
    if TooManyContents(pb, e.key.content) then pb
    else
      var c := JoinedCandidate(pb, e);
      var arrivals := if e.provider in c.arrivals then c.arrivals
                      else c.arrivals[e.provider := Obs(e.received, e.wall)];
      pb.(candidates := pb.candidates[e.key.content := Candidate(c.first, arrivals)])
  }

  function PlacedCounters(b: Bench, e: MarketEvent): Counters {
    if Placed(b, e) then b.counters
    else Credit(b.counters, e.key.coin, e.provider,
                if TooManyContents(JoinedBase(b, e), e.key.content) then OVERFLOW else DUPLICATE)
  }

  /** Place an event in its open base: an arrival, a duplicate, or one content too many. */
  function Place(b: Bench, e: MarketEvent): Bench {
    b.(pending := b.pending[e.key.Base() := PlacedBase(b, e)],
       counters := PlacedCounters(b, e),
       windows := if TooManyContents(JoinedBase(b, e), e.key.content) then MarkLoss(b.windows, e.key.coin, e.received)
                  else b.windows)
  }

  /** Every choice one event can call for. */
  datatype EventChoice = EventChoice(overdue: Choice, oldest: BaseKey, evict: Choice, single: Choice)

  /** Make room, place the event, and settle at once when there is no one to wait for. */
  ghost function Evict(cfg: Config, b: Bench, e: MarketEvent, ch: EventChoice): Bench
    requires PendingFull(cfg, b, e.key.Base()) ==> Usable(b, ch.oldest, ch.evict)
  {
    if PendingFull(cfg, b, e.key.Base()) then Settle(cfg, b, ch.oldest, e.received, true, ch.evict) else b
  }

  predicate SettlesAtOnce(cfg: Config, b: Bench, e: MarketEvent) {
    |cfg.Providers()| == 1 && Placed(b, e)
  }

  ghost function PlaceAndSettle(cfg: Config, b: Bench, e: MarketEvent, ch: Choice): Bench
    requires SettlesAtOnce(cfg, b, e) ==> Usable(Place(b, e), e.key.Base(), ch)
  {
    if SettlesAtOnce(cfg, b, e) then Settle(cfg, Place(b, e), e.key.Base(), e.received, false, ch) else Place(b, e)
  }

  /** The choices fit every settle the event causes, and pick what the source picks. */
  ghost predicate EventUsable(cfg: Config, b: Bench, e: MarketEvent, ch: EventChoice) {
    if !cfg.Active(e.provider) || Refused(e) then true
    else
      var key := e.key.Base();
      var seen := CreditEvent(b, e, OBSERVED);
      && (Overdue(cfg, seen, key, e.received)
          ==> Usable(seen, key, ch.overdue) && Oldest(cfg, seen, key, e.received, ch.overdue))
      && var settled := SettleOverdue(cfg, seen, e, ch.overdue);
         key in settled.bases ||
         ( && (PendingFull(cfg, settled, key) ==>
                 Usable(settled, ch.oldest, ch.evict) && OldestPending(settled.pending, ch.oldest)
                 && Oldest(cfg, settled, ch.oldest, e.received, ch.evict))
           && var room := Evict(cfg, settled, e, ch);
              SettlesAtOnce(cfg, room, e) ==>
                Usable(Place(room, e), key, ch.single) && Oldest(cfg, Place(room, e), key, e.received, ch.single))
  }

  ghost function Record(cfg: Config, b: Bench, e: MarketEvent, ch: EventChoice): Bench
    requires EventUsable(cfg, b, e, ch)
  {
    if !cfg.Active(e.provider) then b
    else if Refused(e) then Refuse(b, e)
    else
      var seen := CreditEvent(b, e, OBSERVED);
      var settled := SettleOverdue(cfg, seen, e, ch.overdue);
      if e.key.Base() in settled.bases then CountSealed(settled, e)
      else PlaceAndSettle(cfg, Evict(cfg, settled, e, ch), e, ch.single)
  }

  /** Cap pressure evicts the oldest: the base tombstone, and before each insertion the settled key. */
  ghost predicate Oldest(cfg: Config, b: Bench, key: BaseKey, now: Time, ch: Choice)
    requires Usable(b, key, ch)
  {
    && (BasesFull(cfg, b.bases) ==> OldestBase(b.bases, ch.baseVictim))
    && forall n :: 0 <= n < |ch.order| ==>
         var before := FinalizeAll(cfg, Rings(b.windows, b.settled), key, b.pending[key], Strays(cfg, b.pending[key]),
                                   ch.order[..n], ch.victims[..n], now);
         SettledFull(cfg, before.settled) ==> OldestSettled(before.settled, ch.victims[n])
  }

  // ---------- tick ----------

  ghost predicate Expired(cfg: Config, b: Bench, now: Time, keys: seq<BaseKey>) {
    Distinct(keys) && forall k :: k in keys <==> Overdue(cfg, b, k, now)
  }

  ghost predicate AllUsable(cfg: Config, b: Bench, now: Time, keys: seq<BaseKey>, chs: seq<Choice>)
    requires |chs| == |keys|
    decreases |keys|
  {
    keys == [] ||
    (&& Usable(b, keys[0], chs[0]) && Oldest(cfg, b, keys[0], now, chs[0])
     && AllUsable(cfg, Settle(cfg, b, keys[0], now, false, chs[0]), now, keys[1..], chs[1..]))
  }

  ghost function SettleEach(cfg: Config, b: Bench, now: Time, keys: seq<BaseKey>, chs: seq<Choice>): Bench
    requires |chs| == |keys| && AllUsable(cfg, b, now, keys, chs)
    decreases |keys|
  {
    if keys == [] then b
    else SettleEach(cfg, Settle(cfg, b, keys[0], now, false, chs[0]), now, keys[1..], chs[1..])
  }

  function Prune(cfg: Config, b: Bench, now: Time): Bench {
    b.(bases := map k | k in b.bases && Since(now, b.bases[k]) <= cfg.rollingWindow :: b.bases[k],
       settled := map k | k in b.settled && Since(now, b.settled[k].at) <= cfg.rollingWindow :: b.settled[k],
       windows := map c | c in b.windows :: PruneWindow(b.windows[c], now, cfg.rollingWindow))
  }

  /** A committed publication marks every coin's cohorts up to its end. */
  function MarkAll(w: CoinWindows, through: Time): CoinWindows {
    map c | c in w :: w[c].(cohorts := Mark(w[c].cohorts, through))
  }

  ghost function Tick(cfg: Config, b: Bench, now: Time, keys: seq<BaseKey>, chs: seq<Choice>): Bench
    requires |chs| == |keys| && AllUsable(cfg, b, now, keys, chs)
  {
    Prune(cfg, SettleEach(cfg, b, now, keys, chs), now)
  }
}
