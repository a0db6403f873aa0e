/** What the TCP reassembler of `src/tap.rs` computes, as functions on values. The class that works
    in place is in Reassembler.dfy; the stream theorems are in ReassemblerLaws.dfy. */
module ReassemblerSpec {
  import opened Common
  import opened SequenceSpace

  const REORDER_WAIT: nat := 250
  const MAX_PENDING_BYTES: nat := 16 * 1024 * 1024
  /** The capture buffer: no captured packet, hence no payload, is longer. */
  const MAX_CAPTURE: nat := 256 * 1024

  const TCP_FIN: nat := 0x01
  const TCP_SYN: nat := 0x02
  const TCP_RST: nat := 0x04

  datatype Segment = Segment(seqno: u32, flags: byte, payload: seq<byte>, wall: Time)
  {
    /** `flags & flag != 0` for a one-bit mask. */
    predicate Has(flag: nat)
      requires flag > 0
    {
      (flags / flag) % 2 == 1
    }
  }

  datatype Held = Held(payload: seq<byte>, wall: Time, seen: Time)

  type Waiting = map<u32, Held>

  datatype Delivery =
    | Bytes(data: seq<byte>, wall: Time)
    | Reset(reason: string)

  datatype State = State(next: Option<u32>, pending: Waiting, pendingBytes: nat)

  const IDLE: State := State(None, map[], 0)

  /** A state transition: the new state and what is handed on. */
  datatype Outcome = Outcome(st: State, out: seq<Delivery>)

  // ---------- held bytes ----------

  ghost function Size(m: Waiting): nat
    decreases |m|
  {
    if m == map[] then 0
    else
      var k :| k in m;
      |m[k].payload| + Size(m - {k})
  }

  lemma {:induction false} SizeRemove(m: Waiting, k: u32)
    requires k in m
    ensures Size(m) == |m[k].payload| + Size(m - {k})
    decreases |m|
  {
    var j :| j in m && Size(m) == |m[j].payload| + Size(m - {j});
    if j != k {
      SizeRemove(m - {j}, k);
      SizeRemove(m - {k}, j);
      assert m - {j} - {k} == m - {k} - {j};
    }
  }

  lemma SizeAdd(m: Waiting, k: u32, h: Held)
    requires k !in m
    ensures Size(m[k := h]) == |h.payload| + Size(m)
  {
    SizeRemove(m[k := h], k);
    assert m[k := h] - {k} == m;
  }

  /** The byte counter covers what is held and stays within the cap. */
  ghost predicate Counted(m: Waiting, pendingBytes: nat) {
    Size(m) <= pendingBytes <= MAX_PENDING_BYTES
  }

  ghost predicate Valid(st: State) {
    && Counted(st.pending, st.pendingBytes)
    && match st.next
       case None => st.pending == map[]
       case Some(n) => forall k <- st.pending :: SeqDiff(k, n) > 0
  }

  // ---------- the pull loop ----------

  /** A held segment the stream position has reached. */
  predicate Due(m: Waiting, next: u32, k: u32) {
    k in m && SeqDiff(k, next) <= 0
  }

  /** `BTreeMap::iter().find(..)`: the due segment with the least wire sequence number. */
  predicate FirstDue(m: Waiting, next: u32, k: u32) {
    Due(m, next, k) && forall j <- m :: Due(m, next, j) ==> k <= j
  }

  predicate AnyDue(m: Waiting, next: u32) {
    exists k <- m :: SeqDiff(k, next) <= 0
  }

  lemma FirstDueExists(m: Waiting, next: u32)
    requires AnyDue(m, next)
    ensures exists k :: FirstDue(m, next, k)
  {
    var k :| k in m && SeqDiff(k, next) <= 0;
    FirstDueFrom(m, next, k);
  }

  lemma {:induction false} FirstDueFrom(m: Waiting, next: u32, k: u32)
    requires Due(m, next, k)
    ensures exists j :: FirstDue(m, next, j)
    decreases k
  {
    if !FirstDue(m, next, k) {
      var j :| j in m && Due(m, next, j) && j < k;
      FirstDueFrom(m, next, j);
    }
  }

  ghost function FirstDueOf(m: Waiting, next: u32): (k: u32)
    requires AnyDue(m, next)
    ensures FirstDue(m, next, k)
  {
    FirstDueExists(m, next);
    var k :| FirstDue(m, next, k);
    k
  }

  lemma FirstDueUnique(m: Waiting, next: u32, k: u32)
    requires FirstDue(m, next, k)
    ensures AnyDue(m, next) && FirstDueOf(m, next) == k
  {
    assert SeqDiff(k, next) <= 0;
  }

  datatype Pulled = Pulled(next: u32, pending: Waiting, pendingBytes: nat, data: seq<byte>, wall: Time)

  /** Pull every held segment the bytes so far made contiguous. */
  ghost function Pull(p: Pulled): (r: Pulled)
    requires Counted(p.pending, p.pendingBytes)
    ensures Counted(r.pending, r.pendingBytes)
    ensures r.pendingBytes - Size(r.pending) == p.pendingBytes - Size(p.pending)
    ensures forall k <- r.pending :: SeqDiff(k, r.next) > 0
    decreases |p.pending|
  {
    if AnyDue(p.pending, p.next) then
      var k := FirstDueOf(p.pending, p.next);
      SizeRemove(p.pending, k);
      Pull(Absorb(p, k))
    else p
  }

  /** One turn of the loop: drop a stale segment, or append what lies past the position. */
  function Absorb(p: Pulled, k: u32): Pulled
    requires k in p.pending && |p.pending[k].payload| <= p.pendingBytes
  {
    var h := p.pending[k];
    var overlap := SeqDiff(p.next, k);
    var rest := p.(pending := p.pending - {k}, pendingBytes := p.pendingBytes - |h.payload|);
    // a negative distance cast to usize is larger than any payload
    if overlap < 0 || overlap >= |h.payload| then rest
    else
      var tail := h.payload[overlap..];
      rest.(next := WrappingAdd(p.next, |tail|), data := p.data + tail, wall := Max(p.wall, h.wall))
  }

  lemma PullStep(p: Pulled, k: u32)
    requires Counted(p.pending, p.pendingBytes) && FirstDue(p.pending, p.next, k)
    ensures |p.pending[k].payload| <= p.pendingBytes
    ensures Counted(Absorb(p, k).pending, Absorb(p, k).pendingBytes)
    ensures Pull(p) == Pull(Absorb(p, k))
  {
    hide SeqDiff, WrappingAdd, Size, AnyDue;
    FirstDueUnique(p.pending, p.next, k);
    SizeRemove(p.pending, k);
  }

  lemma PullDone(p: Pulled)
    requires Counted(p.pending, p.pendingBytes)
    requires !AnyDue(p.pending, p.next)
    ensures Pull(p) == p
  {
  }

  // ---------- one segment ----------

  /** Deliver `payload` at the position `next`, then whatever it made contiguous. */
  ghost function Deliver(st: State, next: u32, payload: seq<byte>, wall: Time, before: seq<Delivery>): (o: Outcome)
    requires Counted(st.pending, st.pendingBytes)
    ensures Valid(o.st) && o.st.next.Some?
  {
    var r := Pull(Pulled(WrappingAdd(next, |payload|), st.pending, st.pendingBytes, payload, wall));
    Outcome(State(Some(r.next), r.pending, r.pendingBytes), before + [Bytes(r.data, r.wall)])
  }

  ghost function Take(st: State, seqno: u32, payload: seq<byte>, wall: Time, clock: Time): (o: Outcome)
    requires st.next.Some? && Counted(st.pending, st.pendingBytes)
    requires Valid(st) || SeqDiff(seqno, st.next.value) == 0
    ensures Valid(o.st) && o.st.next.Some?
  {
    var next := st.next.value;
    var d := SeqDiff(seqno, next);
    if d < 0 then
      if -d >= |payload| then Outcome(st, [])
      else Deliver(st, next, payload[-d..], wall, [])
    else if d > 0 then
      if st.pendingBytes + |payload| > MAX_PENDING_BYTES then
        Deliver(State(st.next, map[], 0), seqno, payload, wall, [Reset("reorder buffer full")])
      else
        Outcome(Hold(st, seqno, Held(payload, wall, clock)), [])
    else
      Deliver(st, next, payload, wall, [])
  }

  /** Keep a segment that lies beyond a hole; an entry with the same number wins over it. */
  ghost function Hold(st: State, k: u32, h: Held): (r: State)
    requires st.next.Some? && Valid(st) && SeqDiff(k, st.next.value) > 0
    requires st.pendingBytes + |h.payload| <= MAX_PENDING_BYTES
    ensures Valid(r) && r.next == st.next
  {
    if k !in st.pending then
      SizeAdd(st.pending, k, h);
      State(st.next, st.pending[k := h], st.pendingBytes + |h.payload|)
    else st.(pendingBytes := st.pendingBytes + |h.payload|)
  }

  // ---------- hole expiry ----------

  /** The hole has been open for REORDER_WAIT: the oldest held segment was seen that long ago. */
  predicate Overdue(m: Waiting, now: Time) {
    exists k <- m :: Since(now, m[k].seen) >= REORDER_WAIT
  }

  /** The held segment nearest after the position. */
  predicate Nearest(m: Waiting, next: u32, k: u32) {
    k in m && forall j <- m :: SeqDiff(k, next) <= SeqDiff(j, next)
  }

  lemma NearestExists(m: Waiting, next: u32)
    requires m != map[]
    ensures exists k :: Nearest(m, next, k)
  {
    var k :| k in m;
    NearestFrom(m, next, k);
  }

  lemma {:induction false} NearestFrom(m: Waiting, next: u32, k: u32)
    requires k in m
    ensures exists j :: Nearest(m, next, j)
    decreases SeqDiff(k, next) + HALF
  {
    if !Nearest(m, next, k) {
      var j :| j in m && SeqDiff(j, next) < SeqDiff(k, next);
      NearestFrom(m, next, j);
    }
  }

  lemma NearestUnique(m: Waiting, next: u32, j: u32, k: u32)
    requires Nearest(m, next, j) && Nearest(m, next, k)
    ensures j == k
  {
    var pos := next + WORD;
    assert Wire(0, pos) == next;
    DiffLocates(0, j, pos);
    DiffLocates(0, k, pos);
  }

  ghost function NearestOf(m: Waiting, next: u32): (k: u32)
    requires m != map[]
    ensures Nearest(m, next, k)
  {
    NearestExists(m, next);
    var k :| Nearest(m, next, k);
    k
  }

  ghost function Expire(st: State, now: Time, clock: Time): (o: Outcome)
    requires Valid(st)
    ensures Valid(o.st)
  {
    if !Overdue(st.pending, now) then Outcome(st, [])
    else
      var first := NearestOf(st.pending, st.next.value);
      var h := st.pending[first];
      SizeRemove(st.pending, first);
      var o := Take(State(Some(first), st.pending - {first}, st.pendingBytes - |h.payload|),
                    first, h.payload, h.wall, clock);
      Outcome(o.st, [Reset("sequence hole not filled (capture loss)")] + o.out)
  }

  ghost function OpenConnection(st: State, seg: Segment, clock: Time): (o: Outcome)
    requires Valid(st)
    ensures Valid(o.st)
  {
    var first := WrappingAdd(seg.seqno, 1);
    var reset := if st.next.Some? then [Reset("new connection (SYN)")] else [];
    var started := State(Some(first), map[], 0);
    if seg.payload == [] then Outcome(started, reset)
    else
      var o := Take(started, first, seg.payload, seg.wall, clock);
      Outcome(o.st, reset + o.out)
  }

  /** The state a data segment meets: the first one seen sets the position. */
  function Joined(st: State, seqno: u32): State {
    st.(next := Some(st.next.GetOr(seqno)))
  }

  ghost function PlaceData(st: State, seg: Segment, now: Time, clock: Time): (o: Outcome)
    requires Valid(st)
    ensures Valid(o.st)
  {
    var taken := Take(Joined(st, seg.seqno), seg.seqno, seg.payload, seg.wall, clock);
    var expired := Expire(taken.st, now, clock);
    Outcome(expired.st, taken.out + expired.out)
  }

  ghost function Push(st: State, seg: Segment, now: Time, clock: Time): (o: Outcome)
    requires Valid(st)
    ensures Valid(o.st)
  {
    if seg.Has(TCP_SYN) then OpenConnection(st, seg, clock)
    else if seg.Has(TCP_RST) then
      Outcome(IDLE, if st.next.Some? then [Reset("connection reset (RST)")] else [])
    else if seg.payload == [] then
      if seg.Has(TCP_FIN) && st.next.Some? then Outcome(IDLE, [Reset("connection closed (FIN)")])
      else Outcome(st, [])
    else PlaceData(st, seg, now, clock)
  }
}
