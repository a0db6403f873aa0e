/** The two-leg mempool join of `src/vpc_mempool.rs`. */
module VpcMempool {
  import opened Common
  import opened Model
  import Cohorts

  const JOIN_DEADLINE: nat := 5_000
  const DONE_RETAIN: nat := 120_000

  type Hash = string

  datatype Leg = Leg(received: Time, wall: nat)

  datatype Input =
    | BundleLine(hash: Hash, firstRecv: nat, leg: Leg)
    | GrpcMessage(hash: Hash, leg: Leg)

  datatype Entry = Entry(firstRecv: Option<nat>, vpc: Option<Leg>, grpc: Option<Leg>, firstSeen: Option<Time>)
  {
    predicate Complete() { vpc.Some? && grpc.Some? }
  }

  const NO_ENTRY: Entry := Entry(None, None, None, None)

  // ---------- one entry ----------

  function Least(a: Option<nat>, b: Option<nat>): Option<nat> {
    if a.None? then b else if b.None? then a else Some(Min(a.value, b.value))
  }

  function WallOf(leg: Option<Leg>): Option<nat> {
    if leg.Some? then Some(leg.value.wall) else None
  }

  /** The box's first sight of the bundle. */
  function ReferenceMs(e: Entry): nat {
    Least(e.firstRecv, Least(WallOf(e.vpc), WallOf(e.grpc))).GetOr(0)
  }

  function EventOf(coin: Coin, hash: Hash, e: Entry, p: Provider, leg: Leg): Cohorts.MarketEvent {
    Cohorts.MarketEvent(p, EventKey(coin, ReferenceMs(e), ContentKey.Mempool(hash)), leg.received, leg.wall)
  }

  function EventsOf(coin: Coin, hash: Hash, e: Entry): seq<Cohorts.MarketEvent> {
    (if e.grpc.Some? then [EventOf(coin, hash, e, QUICKNODE_GRPC, e.grpc.value)] else [])
    + (if e.vpc.Some? then [EventOf(coin, hash, e, QUICKNODE_VPC, e.vpc.value)] else [])
  }

  /** All legs of an entry share one key, and none of them is before its time: the engine never counts
      a negative latency for them, and refuses one only when that time is unset. */
  lemma LegsShareOneReference(coin: Coin, hash: Hash, e: Entry)
    ensures var events := EventsOf(coin, hash, e);
            && |events| == (if e.grpc.Some? then 1 else 0) + (if e.vpc.Some? then 1 else 0)
            && (forall x <- events :: x.key == EventKey(coin, ReferenceMs(e), ContentKey.Mempool(hash)))
            && (forall x <- events :: x.key.eventMs <= x.wall && (Cohorts.Refused(x) <==> ReferenceMs(e) == 0))
            && (forall i, j :: 0 <= i < j < |events| ==> events[i].provider != events[j].provider)
            && (e.firstRecv.Some? ==> ReferenceMs(e) <= e.firstRecv.value)
  {
  }

  // ---------- the join ----------

  datatype Join = Join(open: map<Hash, Entry>, done: map<Hash, Time>)

  function EntryAt(j: Join, hash: Hash): Entry {
    if hash in j.open then j.open[hash] else NO_ENTRY
  }

  /** The entry with the input's leg; the first copy of a leg wins. */
  function WithLeg(e: Entry, input: Input, now: Time): Entry {
    var seen := e.(firstSeen := if e.firstSeen.Some? then e.firstSeen else Some(now));
    match input
    case BundleLine(_, firstRecv, leg) => if seen.vpc.Some? then seen
      else seen.(vpc := Some(leg), firstRecv := Some(firstRecv))
    case GrpcMessage(_, leg) => if seen.grpc.Some? then seen else seen.(grpc := Some(leg))
  }

  function HashOf(input: Input): Hash {
    Lower(input.hash)
  }

  /** The entry that `offer` emits, if this leg completes it. */
  function Offered(j: Join, input: Input, now: Time): Option<Entry> {
    if HashOf(input) in j.done then None
    else
      var e := WithLeg(EntryAt(j, HashOf(input)), input, now);
      if e.Complete() then Some(e) else None
  }

  function AfterOffer(j: Join, input: Input, now: Time): Join {
    var hash := HashOf(input);
    if hash in j.done then j
    else
      var e := WithLeg(EntryAt(j, hash), input, now);
      if e.Complete() then Join(j.open - {hash}, j.done[hash := now]) else j.(open := j.open[hash := e])
  }

  predicate Expired(e: Entry, now: Time) {
    e.firstSeen.Some? && Since(now, e.firstSeen.value) >= JOIN_DEADLINE
  }

  function ExpiredIn(j: Join, now: Time): set<Hash> {
    set h | h in j.open && Expired(j.open[h], now)
  }

  function AfterExpire(j: Join, now: Time): Join {
    var gone := ExpiredIn(j, now);
    Join(j.open - gone,
         (map h | h in j.done && h !in gone && Since(now, j.done[h]) < DONE_RETAIN :: j.done[h])
         + (map h | h in gone :: now))
  }

  /** What is charged to the box's own node: bundles the endpoint delivered and it never saw. */
  function VpcGaps(j: Join, now: Time): set<Hash> {
    set h | h in ExpiredIn(j, now) && j.open[h].vpc.None?
  }

  // ---------- runs ----------

  datatype Act =
    | OfferAt(input: Input, now: Time)
    | ExpireAt(now: Time, order: seq<Hash>)

  datatype Emission = Emission(hash: Hash, at: Time, entry: Entry)

  /** The join, the last clock reading, every emission so far, and the gaps reported. */
  datatype Log = Log(j: Join, clock: Time, emitted: seq<Emission>, gaps: nat)

  const EMPTY: Log := Log(Join(map[], map[]), 0, [], 0)

  ghost predicate Enabled(l: Log, act: Act) {
    match act
    case OfferAt(_, now) => now >= l.clock
    case ExpireAt(now, order) =>
      now >= l.clock && Distinct(order) && forall h :: h in order <==> h in ExpiredIn(l.j, now)
  }

  function Emissions(j: Join, order: seq<Hash>, now: Time): seq<Emission>
    requires forall h <- order :: h in j.open
  {
    seq(|order|, i requires 0 <= i < |order| => assert order[i] in order; Emission(order[i], now, j.open[order[i]]))
  }

  ghost function Step(l: Log, act: Act): Log
    requires Enabled(l, act)
  {
    match act
    case OfferAt(input, now) =>
      var o := Offered(l.j, input, now);
      Log(AfterOffer(l.j, input, now), now,
          l.emitted + (if o.Some? then [Emission(HashOf(input), now, o.value)] else []), l.gaps)
    case ExpireAt(now, order) =>
      Log(AfterExpire(l.j, now), now, l.emitted + Emissions(l.j, order, now), l.gaps + |VpcGaps(l.j, now)|)
  }

  ghost predicate Run(acts: seq<Act>, logs: seq<Log>) {
    && |logs| == |acts| + 1 && logs[0] == EMPTY
    && forall i :: 0 <= i < |acts| ==> Enabled(logs[i], acts[i]) && logs[i + 1] == Step(logs[i], acts[i])
  }

  /** An open entry has exactly one leg, and is not remembered as done. */
  predicate JoinOk(j: Join) {
    && j.open.Keys !! j.done.Keys
    && forall h <- j.open :: var e := j.open[h]; (e.vpc.Some? <==> e.grpc.None?) && (e.vpc.Some? <==> e.firstRecv.Some?)
                                                 && e.firstSeen.Some?
  }

  /** An emission is remembered until it is old. */
  predicate Remembered(l: Log, e: Emission) {
    e.at <= l.clock && (l.clock - e.at >= DONE_RETAIN || (e.hash in l.j.done && l.j.done[e.hash] >= e.at))
  }

  predicate LegOf(e: Emission) {
    e.entry.vpc.Some? || e.entry.grpc.Some?
  }

  ghost predicate Inv(l: Log) {
    && JoinOk(l.j)
    && (forall h <- l.j.done :: l.j.done[h] <= l.clock)
    && (forall e <- l.emitted :: Remembered(l, e) && LegOf(e))
    && (forall i, j :: 0 <= i < j < |l.emitted| && l.emitted[i].hash == l.emitted[j].hash ==>
          l.emitted[j].at - l.emitted[i].at >= DONE_RETAIN)
  }

  lemma OfferKeeps(l: Log, input: Input, now: Time)
    requires Inv(l) && now >= l.clock
    ensures Inv(Step(l, OfferAt(input, now)))
  {
    hide Lower;
    var s := Step(l, OfferAt(input, now));
    var hash := HashOf(input);
    if hash !in l.j.done {
      JoinOkOffer(l.j, input, now);
      Aged(l, hash, now);
      var o := Offered(l.j, input, now);
      if o.Some? {
        EmitOne(l, s, Emission(hash, now, o.value));
      } else {
        SameDone(l, s);
      }
    } else {
      SameDone(l, s);
    }
  }

  lemma JoinOkOffer(j: Join, input: Input, now: Time)
    requires JoinOk(j)
    ensures JoinOk(AfterOffer(j, input, now))
  {
    hide Lower;
  }

  /** What is no longer remembered is old. */
  lemma Aged(l: Log, hash: Hash, now: Time)
    requires Inv(l) && now >= l.clock && hash !in l.j.done
    ensures forall e <- l.emitted :: e.hash == hash ==> now - e.at >= DONE_RETAIN
  {
  }

  lemma SameDone(l: Log, s: Log)
    requires Inv(l) && JoinOk(s.j) && s.j.done == l.j.done && s.clock >= l.clock && s.emitted == l.emitted
    ensures Inv(s)
  {
    hide JoinOk;
  }

  lemma EmitOne(l: Log, s: Log, e: Emission)
    requires Inv(l) && JoinOk(s.j) && s.clock >= l.clock && e.at == s.clock && LegOf(e)
    requires s.j.done == l.j.done[e.hash := e.at] && s.emitted == l.emitted + [e]
    requires forall x <- l.emitted :: x.hash == e.hash ==> e.at - x.at >= DONE_RETAIN
    ensures Inv(s)
  {
    hide JoinOk;
    forall x <- s.emitted
      ensures Remembered(s, x) && LegOf(x)
    {
      assert x == e || x in l.emitted;
    }
    forall i, j | 0 <= i < j < |s.emitted| && s.emitted[i].hash == s.emitted[j].hash
      ensures s.emitted[j].at - s.emitted[i].at >= DONE_RETAIN
    {
      assert s.emitted[i] == l.emitted[i];
      assert l.emitted[i] in l.emitted;
    }
  }

  lemma ExpireJoinOk(j: Join, now: Time)
    requires JoinOk(j)
    ensures JoinOk(AfterExpire(j, now))
  {
  }

  lemma ExpireKeeps(l: Log, now: Time, order: seq<Hash>)
    requires Inv(l) && Enabled(l, ExpireAt(now, order))
    ensures Inv(Step(l, ExpireAt(now, order)))
  {
    var s := Step(l, ExpireAt(now, order));
    var added := Emissions(l.j, order, now);
    ExpireJoinOk(l.j, now);
    forall e <- s.emitted
      ensures Remembered(s, e) && LegOf(e)
    {
      if e in l.emitted {
        StaysRemembered(l, now, e);
      } else {
        var i :| 0 <= i < |added| && added[i] == e;
        assert order[i] in order;
      }
    }
    forall i, j | 0 <= i < j < |s.emitted| && s.emitted[i].hash == s.emitted[j].hash
      ensures s.emitted[j].at - s.emitted[i].at >= DONE_RETAIN
    {
      ExpireApart(l, now, order, i, j);
    }
  }

  lemma StaysRemembered(l: Log, now: Time, e: Emission)
    requires Inv(l) && now >= l.clock && e in l.emitted
    ensures e.at <= now
    ensures now - e.at >= DONE_RETAIN
            || (e.hash in AfterExpire(l.j, now).done && AfterExpire(l.j, now).done[e.hash] >= e.at)
  {
    assert Remembered(l, e);
  }

  lemma ExpireApart(l: Log, now: Time, order: seq<Hash>, i: nat, j: nat)
    requires Inv(l) && Enabled(l, ExpireAt(now, order))
    requires i < j < |l.emitted + Emissions(l.j, order, now)|
    ensures var all := l.emitted + Emissions(l.j, order, now);
            all[i].hash == all[j].hash ==> all[j].at - all[i].at >= DONE_RETAIN
  {
    var n := |l.emitted|;
    if j >= n {
      assert order[j - n] in order && order[j - n] !in l.j.done;
      if i >= n {
        assert order[i - n] != order[j - n];
      } else {
        assert l.emitted[i] in l.emitted;
      }
    }
  }

  lemma {:induction false} JoinKeeps(acts: seq<Act>, logs: seq<Log>, n: nat)
    requires Run(acts, logs) && n < |logs|
    ensures Inv(logs[n])
    decreases n
  {
    hide Inv, Step, Enabled;
    if n == 0 {
      EmptyOk();
    } else {
      JoinKeeps(acts, logs, n - 1);
      assert Enabled(logs[n - 1], acts[n - 1]);
      match acts[n - 1]
      case OfferAt(input, now) =>
        ClockMoves(logs[n - 1], acts[n - 1]);
        OfferKeeps(logs[n - 1], input, now);
      case ExpireAt(now, order) => ExpireKeeps(logs[n - 1], now, order);
    }
  }

  lemma ClockMoves(l: Log, act: Act)
    requires Enabled(l, act)
    ensures act.now >= l.clock
  {
  }

  lemma EmptyOk()
    ensures Inv(EMPTY)
  {
  }

  /** Over every run a hash is never both open and done, every emission has a leg, and two emissions of
      one hash are at least the retention apart. */
  lemma EmittedOnceWhileRemembered(acts: seq<Act>, logs: seq<Log>, n: nat)
    requires Run(acts, logs) && n < |logs|
    ensures var l := logs[n];
            && l.j.open.Keys !! l.j.done.Keys
            && (forall e <- l.emitted :: e.entry.vpc.Some? || e.entry.grpc.Some?)
            && (forall i, j :: 0 <= i < j < |l.emitted| && l.emitted[i].hash == l.emitted[j].hash ==>
                  l.emitted[j].at - l.emitted[i].at >= DONE_RETAIN)
  {
    hide Run;
    JoinKeeps(acts, logs, n);
  }

  /** The emissions without a leg from the box's own node. */
  ghost function Unseen(es: seq<Emission>): set<nat> {
    set i | 0 <= i < |es| && es[i].entry.vpc.None?
  }

  /** The gaps charged to the box's node are exactly the emissions it had no leg in. */
  lemma {:induction false} GapsAreUnseen(acts: seq<Act>, logs: seq<Log>, n: nat)
    requires Run(acts, logs) && n < |logs|
    ensures logs[n].gaps == |Unseen(logs[n].emitted)|
    decreases n
  {
    hide Inv, Step, Enabled;
    if n == 0 {
      assert Unseen([]) == {};
    } else {
      GapsAreUnseen(acts, logs, n - 1);
      assert Enabled(logs[n - 1], acts[n - 1]);
      StepCountsGaps(logs[n - 1], acts[n - 1]);
    }
  }

  lemma StepCountsGaps(l: Log, act: Act)
    requires Enabled(l, act) && l.gaps == |Unseen(l.emitted)|
    ensures Step(l, act).gaps == |Unseen(Step(l, act).emitted)|
  {
    hide Lower, AfterOffer, AfterExpire;
    match act
    case OfferAt(input, now) =>
      var o := Offered(l.j, input, now);
      var more := l.emitted + (if o.Some? then [Emission(HashOf(input), now, o.value)] else []);
      assert Unseen(more) == Unseen(l.emitted);
    case ExpireAt(now, order) =>
      UnseenJoin(l.emitted, Emissions(l.j, order, now));
      UnseenOf(l.j, order, now);
  }

  lemma {:induction false} UnseenJoin(a: seq<Emission>, b: seq<Emission>)
    ensures |Unseen(a + b)| == |Unseen(a)| + |Unseen(b)|
    decreases |b|
  {
    if b == [] {
      assert a + b == a && Unseen(b) == {};
    } else {
      var n := |b| - 1;
      UnseenJoin(a, b[..n]);
      UnseenLast(a + b[..n], b[n]);
      UnseenLast(b[..n], b[n]);
      assert a + b[..n] + [b[n]] == a + b && b[..n] + [b[n]] == b;
    }
  }

  lemma UnseenLast(a: seq<Emission>, e: Emission)
    ensures |Unseen(a + [e])| == |Unseen(a)| + if e.entry.vpc.None? then 1 else 0
  {
    var more: set<nat> := if e.entry.vpc.None? then {|a|} else {};
    assert Unseen(a + [e]) == Unseen(a) + more;
  }

  lemma UnseenOf(j: Join, order: seq<Hash>, now: Time)
    requires Distinct(order) && forall h :: h in order <==> h in ExpiredIn(j, now)
    ensures |Unseen(Emissions(j, order, now))| == |VpcGaps(j, now)|
  {
    var es := Emissions(j, order, now);
    forall h <- VpcGaps(j, now)
      ensures exists i <- Unseen(es) :: i < |order| && order[i] == h
    {
      var i: nat :| i < |order| && order[i] == h;
      assert i in Unseen(es);
    }
    SameCount(Unseen(es), VpcGaps(j, now), order);
  }

  /** Positions and members of a list without repetition count the same. */
  lemma {:induction false} SameCount(positions: set<nat>, hashes: set<Hash>, order: seq<Hash>)
    requires Distinct(order)
    requires forall i <- positions :: i < |order| && order[i] in hashes
    requires forall h <- hashes :: exists i <- positions :: i < |order| && order[i] == h
    ensures |positions| == |hashes|
    decreases positions
  {
    if positions == {} {
      assert hashes == {};
    } else {
      var x :| x in positions;
      var h := order[x];
      forall g <- hashes - {h}
        ensures exists i <- positions - {x} :: i < |order| && order[i] == g
      {
        var i :| i in positions && i < |order| && order[i] == g;
        assert i in positions - {x};
      }
      SameCount(positions - {x}, hashes - {h}, order);
    }
  }

  // ---------- the join as the source has it ----------

  function EventsOfAll(coin: Coin, j: Join, order: seq<Hash>): seq<Cohorts.MarketEvent>
    requires forall h <- order :: h in j.open
    decreases |order|
  {
    if order == [] then []
    else
      assert order[|order| - 1] in order;
      EventsOfAll(coin, j, order[..|order| - 1]) + EventsOf(coin, order[|order| - 1], j.open[order[|order| - 1]])
  }

  // the join once the first entries of `order` have been emitted
  function OpenAfter(j: Join, order: seq<Hash>): map<Hash, Entry> {
    j.open - (set h | h in order)
  }

  function DoneAfter(j: Join, order: seq<Hash>, now: Time): map<Hash, Time> {
    j.done + (map h | h in order :: now)
  }

  function UnseenIn(j: Join, order: seq<Hash>): set<Hash> {
    set h | h in order && h in j.open && j.open[h].vpc.None?
  }

  lemma EmitStep(j: Join, now: Time, order: seq<Hash>, n: nat)
    requires n < |order| && Distinct(order) && forall h <- order :: h in j.open
    ensures order[n] in OpenAfter(j, order[..n]) && OpenAfter(j, order[..n])[order[n]] == j.open[order[n]]
    ensures OpenAfter(j, order[..n + 1]) == OpenAfter(j, order[..n]) - {order[n]}
    ensures DoneAfter(j, order[..n + 1], now) == DoneAfter(j, order[..n], now)[order[n] := now]
    ensures |UnseenIn(j, order[..n + 1])| == |UnseenIn(j, order[..n])| + if j.open[order[n]].vpc.None? then 1 else 0
  {
    hide *;
    NextListed(order, n);
    assert order[..n + 1] == order[..n] + [order[n]];
    OpenStep(j, order[..n], order[n]);
    DoneStep(j, order[..n], order[n], now);
    UnseenStep(j, order[..n], order[n]);
  }

  lemma NextListed(order: seq<Hash>, n: nat)
    requires n < |order| && Distinct(order)
    ensures order[n] in order && order[n] !in order[..n]
  {
  }

  lemma OpenStep(j: Join, before: seq<Hash>, h: Hash)
    requires h in j.open && h !in before
    ensures h in OpenAfter(j, before) && OpenAfter(j, before)[h] == j.open[h]
    ensures OpenAfter(j, before + [h]) == OpenAfter(j, before) - {h}
  {
  }

  lemma DoneStep(j: Join, before: seq<Hash>, h: Hash, now: Time)
    ensures DoneAfter(j, before + [h], now) == DoneAfter(j, before, now)[h := now]
  {
  }

  lemma UnseenStep(j: Join, before: seq<Hash>, h: Hash)
    requires h in j.open && h !in before
    ensures |UnseenIn(j, before + [h])| == |UnseenIn(j, before)| + if j.open[h].vpc.None? then 1 else 0
  {
    var it: set<Hash> := if j.open[h].vpc.None? then {h} else {};
    assert UnseenIn(j, before + [h]) == UnseenIn(j, before) + it;
  }

  lemma EmitNone(j: Join, now: Time)
    ensures OpenAfter(j, []) == j.open && DoneAfter(j, [], now) == j.done && UnseenIn(j, []) == {}
  {
  }

  lemma EventsStep(coin: Coin, j: Join, order: seq<Hash>, n: nat)
    requires n < |order| && forall h <- order :: h in j.open
    ensures order[n] in order
    ensures EventsOfAll(coin, j, order[..n + 1])
            == EventsOfAll(coin, j, order[..n]) + EventsOf(coin, order[n], j.open[order[n]])
  {
    hide EventsOf;
    assert order[..n + 1][..n] == order[..n] && order[n] in order;
  }

  lemma ExpireIs(j: Join, now: Time, order: seq<Hash>)
    requires j.open.Keys !! j.done.Keys && forall h :: h in order <==> h in ExpiredIn(j, now)
    ensures AfterExpire(j, now).open == OpenAfter(j, order)
    ensures AfterExpire(j, now).done == Recent(DoneAfter(j, order, now), now)
    ensures UnseenIn(j, order) == VpcGaps(j, now)
  {
    hide Expired;
    var gone := ExpiredIn(j, now);
    assert (set h | h in order) == gone;
    assert forall h <- gone :: h in j.open;
  }

  /** `done.retain(..)`. */
  function Recent(done: map<Hash, Time>, now: Time): map<Hash, Time> {
    map h | h in done && Since(now, done[h]) < DONE_RETAIN :: done[h]
  }

  class MempoolJoin {
    const coin: Coin
    var open: map<Hash, Entry>
    var done: map<Hash, Time>

    ghost function State(): Join
      reads this
    {
      Join(open, done)
    }

    constructor (coin: Coin)
      ensures this.coin == coin && State() == EMPTY.j
    {
      this.coin, open, done := coin, map[], map[];
    }

    /** Both legs' events the moment the second one arrives, and nothing before or after. */
    method Offer(input: Input, now: Time) returns (events: seq<Cohorts.MarketEvent>)
      modifies `open, `done
      ensures State() == AfterOffer(old(State()), input, now)
      ensures var o := Offered(old(State()), input, now);
              events == if o.Some? then EventsOf(coin, HashOf(input), o.value) else []
    {
      hide Lower;
      var hash := Lower(input.hash);
      if hash in done {
        return [];
      }
      var entry := if hash in open then open[hash] else NO_ENTRY;
      if entry.firstSeen.None? {
        entry := entry.(firstSeen := Some(now));
      }
      match input {
        case BundleLine(_, firstRecv, leg) =>
          if entry.vpc.None? {
            entry := entry.(vpc := Some(leg), firstRecv := Some(firstRecv));
          }
        case GrpcMessage(_, leg) =>
          if entry.grpc.None? {
            entry := entry.(grpc := Some(leg));
          }
      }
      if entry.Complete() {
        open, done := open - {hash}, done[hash := now];
        return EventsOf(coin, hash, entry);
      }
      open := open[hash := entry];
      events := [];
    }

    /** Entries past the deadline are emitted with the one leg they have. */
    method Expire(now: Time) returns (events: seq<Cohorts.MarketEvent>, vpcGaps: nat, ghost order: seq<Hash>)
      requires State().open.Keys !! State().done.Keys
      modifies `open, `done
      ensures State() == AfterExpire(old(State()), now)
      ensures Distinct(order) && forall h :: h in order <==> h in ExpiredIn(old(State()), now)
      ensures events == EventsOfAll(coin, old(State()), order)
      ensures vpcGaps == |VpcGaps(old(State()), now)|
    {
      hide EventsOf, Expired, EventsOfAll, OpenAfter, DoneAfter, UnseenIn, AfterExpire, VpcGaps, Recent, Distinct;
      ghost var j := State();
      var expired := Listed(set h | h in open && Expired(open[h], now));
      order := expired;
      ExpireIs(j, now, order);
      events, vpcGaps := EmitAll(expired, now);
      done := Recent(done, now);
    }

    method EmitAll(expired: seq<Hash>, now: Time) returns (events: seq<Cohorts.MarketEvent>, vpcGaps: nat)
      requires Distinct(expired) && forall h <- expired :: h in open
      modifies `open, `done
      ensures open == OpenAfter(old(State()), expired)
      ensures done == DoneAfter(old(State()), expired, now)
      ensures events == EventsOfAll(coin, old(State()), expired)
      ensures vpcGaps == |UnseenIn(old(State()), expired)|
    {
      hide EventsOf, EventsOfAll, OpenAfter, DoneAfter, UnseenIn, Distinct;
      ghost var j := State();
      events, vpcGaps := [], 0;
      EmitNone(j, now);
      assert expired[..0] == [];
      NoEvents(coin, j);
      for n := 0 to |expired|
        invariant open == OpenAfter(j, expired[..n])
        invariant done == DoneAfter(j, expired[..n], now)
        invariant events == EventsOfAll(coin, j, expired[..n])
        invariant vpcGaps == |UnseenIn(j, expired[..n])|
      {
        var hash := expired[n];
        EmitStep(j, now, expired, n);
        EventsStep(coin, j, expired, n);
        var entry := open[hash];
        if entry.vpc.None? {
          vpcGaps := vpcGaps + 1;
        }
        events := events + EventsOf(coin, hash, entry);
        open, done := open - {hash}, done[hash := now];
      }
      assert expired[..|expired|] == expired;
    }
  }

  lemma NoEvents(coin: Coin, j: Join)
    ensures EventsOfAll(coin, j, []) == []
  {
  }
}
