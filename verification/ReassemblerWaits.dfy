/** When the reassembler gives up on a hole, and that a hole filled in time costs nothing. */
module ReassemblerWaits {
  import opened Common
  import opened SequenceSpace
  import opened ReassemblerSpec
  import opened ReassemblerLaws
  import opened ReassemblerRuns
  import B = ReassemblerBounds

  const LOSS: string := "sequence hole not filled (capture loss)"

  /** Payload of a connection that goes on; a FIN may ride on it. */
  predicate IsData(i: Input) {
    i.Arrive? && !i.seg.Has(TCP_SYN) && !i.seg.Has(TCP_RST) && i.seg.payload != []
  }

  /** The inputs after which the age of a hole is looked at. */
  predicate Checks(i: Input) {
    i.Tick? || IsData(i)
  }

  function HeldOf(i: Input): Held
    requires i.Arrive?
  {
    Held(i.seg.payload, i.seg.wall, i.clock)
  }

  /** The segment `i` brought is among those held. */
  predicate HoldsIt(m: Waiting, i: Input) {
    IsData(i) && i.seg.seqno in m && m[i.seg.seqno] == HeldOf(i)
  }

  /** The state once the segment of the input has been placed. */
  ghost function Placed(st: State, i: Input): (r: State)
    requires Valid(st)
    ensures Valid(r)
  {
    if IsData(i) then Take(Joined(st, i.seg.seqno), i.seg.seqno, i.seg.payload, i.seg.wall, i.clock).st else st
  }

  predicate GivesUp(out: seq<Delivery>) {
    Reset(LOSS) in out
  }

  // ---------- what is held came with some input ----------

  /** Held before, or brought by this input. */
  ghost predicate OnlyAdds(before: Waiting, i: Input, after: Waiting) {
    forall k <- after :: (k in before && after[k] == before[k]) || (HoldsIt(after, i) && k == i.seg.seqno)
  }

  lemma DeliverOnlyRemoves(st: State, next: u32, payload: seq<byte>, wall: Time, before: seq<Delivery>)
    requires Counted(st.pending, st.pendingBytes)
    ensures B.Within(Deliver(st, next, payload, wall, before).st.pending, st.pending)
  {
    hide Pull, Size, WrappingAdd;
    B.PullOnlyRemoves(Pulled(WrappingAdd(next, |payload|), st.pending, st.pendingBytes, payload, wall));
  }

  lemma TakeOnlyAdds(st: State, seqno: u32, payload: seq<byte>, wall: Time, clock: Time)
    requires st.next.Some? && Counted(st.pending, st.pendingBytes)
    requires Valid(st) || SeqDiff(seqno, st.next.value) == 0
    ensures var m := Take(st, seqno, payload, wall, clock).st.pending;
            forall k <- m :: (k in st.pending && m[k] == st.pending[k])
                             || (k == seqno && m[k] == Held(payload, wall, clock) && SeqDiff(seqno, st.next.value) > 0)
  {
    hide Deliver, SeqDiff, Size, WrappingAdd;
    var next := st.next.value;
    var d := SeqDiff(seqno, next);
    if d < 0 {
      if -d < |payload| {
        DeliverOnlyRemoves(st, next, payload[-d..], wall, []);
      }
    } else if d == 0 {
      DeliverOnlyRemoves(st, next, payload, wall, []);
    } else if st.pendingBytes + |payload| > MAX_PENDING_BYTES {
      NothingHeld(s => 0, 0, 0);
      DeliverOnlyRemoves(State(st.next, map[], 0), seqno, payload, wall, [Reset("reorder buffer full")]);
    }
  }

  lemma ExpireOnlyRemoves(st: State, now: Time, clock: Time)
    requires Valid(st)
    ensures B.Within(Expire(st, now, clock).st.pending, st.pending)
  {
    hide Take, SeqDiff;
    if Overdue(st.pending, now) {
      var first := EarliestIn(st, now);
      var h := st.pending[first];
      SizeRemove(st.pending, first);
      SameNumber(first);
      TakeOnlyAdds(State(Some(first), st.pending - {first}, st.pendingBytes - |h.payload|), first, h.payload, h.wall,
                   clock);
    }
  }

  lemma PlacedOnlyAdds(st: State, i: Input)
    requires Valid(st)
    ensures OnlyAdds(st.pending, i, Placed(st, i).pending)
  {
    hide Take, SeqDiff, Size;
    if IsData(i) {
      TakeOnlyAdds(Joined(st, i.seg.seqno), i.seg.seqno, i.seg.payload, i.seg.wall, i.clock);
    }
  }

  lemma OpenHoldsNothing(st: State, seg: Segment, clock: Time)
    requires Valid(st)
    ensures OpenConnection(st, seg, clock).st.pending == map[]
  {
    hide Take, SeqDiff, Size, WrappingAdd;
    var first := WrappingAdd(seg.seqno, 1);
    SameNumber(first);
    NothingHeld(s => 0, 0, 0);
    if seg.payload != [] {
      TakeOnlyAdds(State(Some(first), map[], 0), first, seg.payload, seg.wall, clock);
    }
  }

  lemma StepOnlyAdds(st: State, i: Input)
    requires Valid(st)
    ensures OnlyAdds(st.pending, i, Step(st, i).st.pending)
  {
    hide Take, Expire, OpenConnection, SeqDiff, Size, Counted;
    PlacedOnlyAdds(st, i);
    match i
    case Tick(now, clock) =>
      ExpireOnlyRemoves(st, now, clock);
    case Arrive(seg, _, now, clock) =>
      if seg.Has(TCP_SYN) {
        OpenHoldsNothing(st, seg, clock);
      } else if IsData(i) {
        ExpireOnlyRemoves(Placed(st, i), now, clock);
      }
  }

  /** Some input of the run brought what is held under `k`. */
  ghost predicate Brought(inputs: seq<Input>, m: Waiting, k: u32) {
    exists n :: 0 <= n < |inputs| && HoldsIt(m, inputs[n]) && inputs[n].seg.seqno == k
  }

  lemma BroughtGrows(inputs: seq<Input>, i: Input, before: Waiting, after: Waiting)
    requires forall k <- before :: Brought(inputs, before, k)
    requires OnlyAdds(before, i, after)
    ensures forall k <- after :: Brought(inputs + [i], after, k)
  {
    var all := inputs + [i];
    forall k <- after
      ensures Brought(all, after, k)
    {
      if HoldsIt(after, i) && k == i.seg.seqno {
        assert HoldsIt(after, all[|inputs|]);
      } else {
        var n :| 0 <= n < |inputs| && HoldsIt(before, inputs[n]) && inputs[n].seg.seqno == k;
        assert HoldsIt(after, all[n]);
      }
    }
  }

  lemma {:induction false} HeldWasBrought(isn: u32, inputs: seq<Input>)
    ensures forall k <- After(isn, inputs).st.pending :: Brought(inputs, After(isn, inputs).st.pending, k)
    decreases |inputs|
  {
    hide Step, PosAfter, Valid, Brought, OnlyAdds;
    if inputs != [] {
      var earlier, i := inputs[..|inputs| - 1], inputs[|inputs| - 1];
      HeldWasBrought(isn, earlier);
      StepOnlyAdds(After(isn, earlier).st, i);
      BroughtGrows(earlier, i, After(isn, earlier).st.pending, After(isn, inputs).st.pending);
      assert inputs == earlier + [i];
    }
  }

  // ---------- giving up ----------

  lemma TakeNeverGivesUp(st: State, seqno: u32, payload: seq<byte>, wall: Time, clock: Time)
    requires st.next.Some? && Counted(st.pending, st.pendingBytes)
    requires Valid(st) || SeqDiff(seqno, st.next.value) == 0
    ensures !GivesUp(Take(st, seqno, payload, wall, clock).out)
  {
    hide Pull, SeqDiff, Size;
    assert |LOSS| != |"reorder buffer full"|;
  }

  /** Something held was first seen REORDER_WAIT or more ago. */
  predicate WaitedFor(m: Waiting, now: Time) {
    exists k <- m :: now >= m[k].seen + REORDER_WAIT
  }

  lemma ExpireGivesUpIff(st: State, now: Time, clock: Time)
    requires Valid(st)
    ensures GivesUp(Expire(st, now, clock).out) <==> WaitedFor(st.pending, now)
  {
    hide Take, SeqDiff, Size;
    if Overdue(st.pending, now) {
      var k :| k in st.pending && Since(now, st.pending[k].seen) >= REORDER_WAIT;
      assert now >= st.pending[k].seen + REORDER_WAIT;
      assert Expire(st, now, clock).out[0] == Reset(LOSS);
    } else {
      forall k <- st.pending
        ensures now < st.pending[k].seen + REORDER_WAIT
      {
        assert Since(now, st.pending[k].seen) < REORDER_WAIT;
      }
    }
  }

  lemma StepGivesUpIff(st: State, i: Input)
    requires Valid(st)
    ensures GivesUp(Step(st, i).out) <==> Checks(i) && WaitedFor(Placed(st, i).pending, i.now)
  {
    hide Take, Expire, SeqDiff, Size, Counted, WaitedFor;
    match i
    case Tick(now, clock) =>
      ExpireGivesUpIff(st, now, clock);
    case Arrive(seg, _, now, clock) =>
      if IsData(i) {
        TakeNeverGivesUp(Joined(st, seg.seqno), seg.seqno, seg.payload, seg.wall, clock);
        ExpireGivesUpIff(Placed(st, i), now, clock);
        var x, y := Take(Joined(st, seg.seqno), seg.seqno, seg.payload, seg.wall, clock).out,
                    Expire(Placed(st, i), now, clock).out;
        assert Reset(LOSS) in x + y <==> Reset(LOSS) in x || Reset(LOSS) in y;
      } else {
        OthersNeverGiveUp(st, i);
      }
  }

  lemma OthersNeverGiveUp(st: State, i: Input)
    requires Valid(st) && i.Arrive? && !IsData(i)
    ensures !GivesUp(Step(st, i).out)
  {
    hide Take, SeqDiff, Size;
    assert |LOSS| != |"new connection (SYN)"| && |LOSS| != |"connection reset (RST)"|
           && |LOSS| != |"connection closed (FIN)"|;
    if i.seg.Has(TCP_SYN) {
      var first := WrappingAdd(i.seg.seqno, 1);
      SameNumber(first);
      NothingHeld(s => 0, 0, 0);
      TakeNeverGivesUp(State(Some(first), map[], 0), first, i.seg.payload, i.seg.wall, i.clock);
    }
  }

  /** Over every run: a turn gives up on a hole if and only if it is a tick or brings data, and some
      input of the run whose segment is still held came REORDER_WAIT or more before it. */
  lemma GivesUpIff(isn: u32, inputs: seq<Input>, i: Input)
    ensures var st, all := After(isn, inputs).st, inputs + [i];
            GivesUp(Step(st, i).out)
            <==> Checks(i) && exists n :: 0 <= n < |all| && HoldsIt(Placed(st, i).pending, all[n])
                                          && i.now >= all[n].clock + REORDER_WAIT
  {
    hide Step, Placed, Valid, OnlyAdds;
    var st := After(isn, inputs).st;
    var m := Placed(st, i).pending;
    HeldWasBrought(isn, inputs);
    PlacedOnlyAdds(st, i);
    BroughtGrows(inputs, i, st.pending, m);
    StepGivesUpIff(st, i);
    var all := inputs + [i];
    if k: u32 :| k in m && i.now >= m[k].seen + REORDER_WAIT {
      assert Brought(all, m, k);
    }
    if n :| 0 <= n < |all| && HoldsIt(m, all[n]) && i.now >= all[n].clock + REORDER_WAIT {
      assert m[all[n].seg.seqno].seen == all[n].clock;
    }
  }

  // ---------- what giving up costs ----------

  /** The bytes handed on run from `from` to `end` and no held segment is cut: what starts by `end` also
      ends there, and everything beyond it stays held. */
  ghost predicate HandsOnFrom(s: Stream, isn: u32, pos: nat, m: Waiting, o: Outcome, from: nat, end: nat) {
    && from <= end && Tail(o.out) == Cut(s, from, end - from)
    && o.st.next == Some(Wire(isn, end))
    && Closed(isn, pos, m, end)
    && (forall k <- m :: k in o.st.pending <==> At(isn, pos, k) > end)
    && (forall k <- o.st.pending :: k in m && o.st.pending[k] == m[k])
  }

  /** Giving up costs the bytes of the hole and no other: the reader goes on at the nearest held segment,
      and every held segment is handed on whole or still held. */
  lemma OnlyTheHoleIsLost(s: Stream, isn: u32, st: State, pos: nat, now: Time, clock: Time)
    requires Tracks(s, isn, st, pos) && WaitedFor(st.pending, now)
    ensures exists first: u32, end: nat ::
              && first in st.pending && At(isn, pos, first) > pos
              && (forall k <- st.pending :: At(isn, pos, first) <= At(isn, pos, k))
              && HandsOnFrom(s, isn, pos, st.pending, Expire(st, now, clock), At(isn, pos, first), end)
  {
    hide SeqDiff, Wire, Cut, Pieces, Tail, Resets, Size, CutFrom, HandsOnFrom, Take, Reaches;
    ExpireGivesUpIff(st, now, clock);
    assert Overdue(st.pending, now);
    var first := EarliestIn(st, now);
    var h := st.pending[first];
    SizeRemove(st.pending, first);
    JumpKeepsPieces(s, isn, st, pos, first);
    NearestIsLeast(isn, st, pos, first);
    var at := At(isn, pos, first);
    var jumped := State(Some(first), st.pending - {first}, st.pendingBytes - |h.payload|);
    var o := Take(jumped, first, h.payload, h.wall, clock);
    TakeHere(jumped, first, h.payload, h.wall, clock);
    CutIs(s, isn, at, first, h.payload);
    DeliverFollows(s, isn, jumped, at, h.payload, h.wall, []);
    JumpHandsOn(s, isn, st, pos, first, o);
    LoneReset(LOSS);
    TailJoins([Reset(LOSS)], o.out);
    SameHandsOn(s, isn, pos, st.pending, o, Outcome(o.st, [Reset(LOSS)] + o.out), at, at + |Tail(o.out)|);
  }

  lemma NearestIsLeast(isn: u32, st: State, pos: nat, first: u32)
    requires Nearest(st.pending, Wire(isn, pos), first)
    ensures forall k <- st.pending :: At(isn, pos, first) <= At(isn, pos, k)
  {
    hide SeqDiff, Wire;
  }

  lemma CutIs(s: Stream, isn: u32, off: nat, seqno: u32, payload: seq<byte>)
    requires CutFrom(s, isn, off, seqno, payload)
    ensures seqno == Wire(isn, off) && payload == Cut(s, off, |payload|) && |payload| <= MAX_CAPTURE
  {
  }

  lemma SameHandsOn(s: Stream, isn: u32, pos: nat, m: Waiting, o: Outcome, p: Outcome, from: nat, end: nat)
    requires HandsOnFrom(s, isn, pos, m, o, from, end) && p.st == o.st && Tail(p.out) == Tail(o.out)
    ensures HandsOnFrom(s, isn, pos, m, p, from, end)
  {
  }

  /** What is contiguous from the nearest held segment, seen from before the jump. */
  lemma JumpHandsOn(s: Stream, isn: u32, st: State, pos: nat, first: u32, o: Outcome)
    requires first in st.pending && |st.pending[first].payload| <= MAX_CAPTURE
    requires forall k <- st.pending :: At(isn, pos, first) <= At(isn, pos, k)
    requires At(isn, pos, first) > pos
    requires var at: nat, n := At(isn, pos, first), |Tail(o.out)|;
             && Tracks(s, isn, o.st, at + n) && Tail(o.out) == Cut(s, at, n)
             && Reaches(isn, at + |st.pending[first].payload|, st.pending - {first}, at + n, o.st.pending)
    ensures var at := At(isn, pos, first);
            HandsOnFrom(s, isn, pos, st.pending, o, at, at + |Tail(o.out)|)
  {
    hide At, Wire, Cut, Tail, Pieces, Counted;
    var at: nat := At(isn, pos, first);
    var past := at + |st.pending[first].payload|;
    forall k <- st.pending
      ensures At(isn, past, k) == At(isn, pos, k)
    {
      AtStable(isn, pos, past - pos, k);
    }
  }

  lemma TakeHere(st: State, seqno: u32, payload: seq<byte>, wall: Time, clock: Time)
    requires st.next == Some(seqno) && Counted(st.pending, st.pendingBytes)
    ensures Take(st, seqno, payload, wall, clock) == Deliver(st, seqno, payload, wall, [])
  {
    hide Pull, Size;
    SameNumber(seqno);
  }

  /** A full buffer costs what it holds: the reader goes on at the segment that did not fit. */
  lemma OverflowStartsOver(st: State, seqno: u32, payload: seq<byte>, wall: Time, clock: Time)
    requires Valid(st) && st.next.Some? && SeqDiff(seqno, st.next.value) > 0
    requires st.pendingBytes + |payload| > MAX_PENDING_BYTES
    ensures Take(st, seqno, payload, wall, clock)
            == Outcome(State(Some(WrappingAdd(seqno, |payload|)), map[], 0),
                       [Reset("reorder buffer full"), Bytes(payload, wall)])
  {
    hide SeqDiff, WrappingAdd;
    PullDone(Pulled(WrappingAdd(seqno, |payload|), map[], 0, payload, wall));
  }

  // ---------- what a `Reset` means ----------

  lemma ExpireQuietIff(st: State, now: Time, clock: Time)
    requires Valid(st)
    ensures Resets(Expire(st, now, clock).out) <==> WaitedFor(st.pending, now)
    ensures !WaitedFor(st.pending, now) ==> Expire(st, now, clock) == Outcome(st, [])
  {
    hide Take, SeqDiff, Size;
    if Overdue(st.pending, now) {
      var k :| k in st.pending && Since(now, st.pending[k].seen) >= REORDER_WAIT;
      assert now >= st.pending[k].seen + REORDER_WAIT;
      assert Expire(st, now, clock).out[0].Reset?;
    } else {
      forall k <- st.pending
        ensures now < st.pending[k].seen + REORDER_WAIT
      {
        assert Since(now, st.pending[k].seen) < REORDER_WAIT;
      }
    }
  }

  /** The segment begins or ends a connection. */
  predicate Switches(i: Input) {
    i.Arrive? && (i.seg.Has(TCP_SYN) || i.seg.Has(TCP_RST) || (i.seg.payload == [] && i.seg.Has(TCP_FIN)))
  }

  /** Data beyond the hole that the byte cap has no room for. */
  predicate Overflows(st: State, i: Input) {
    IsData(i) && st.next.Some? && SeqDiff(i.seg.seqno, st.next.value) > 0
    && st.pendingBytes + |i.seg.payload| > MAX_PENDING_BYTES
  }

  lemma TakeResetsIff(st: State, seqno: u32, payload: seq<byte>, wall: Time, clock: Time)
    requires st.next.Some? && Valid(st)
    ensures Resets(Take(st, seqno, payload, wall, clock).out)
            <==> SeqDiff(seqno, st.next.value) > 0 && st.pendingBytes + |payload| > MAX_PENDING_BYTES
  {
    hide SeqDiff, WrappingAdd, Counted, Deliver;
    if SeqDiff(seqno, st.next.value) > 0 && st.pendingBytes + |payload| > MAX_PENDING_BYTES {
      OverflowStartsOver(st, seqno, payload, wall, clock);
      assert Take(st, seqno, payload, wall, clock).out[0].Reset?;
    } else {
      TakeIsQuiet(st, seqno, payload, wall, clock);
    }
  }

  lemma TakeIsQuiet(st: State, seqno: u32, payload: seq<byte>, wall: Time, clock: Time)
    requires st.next.Some? && Valid(st)
    requires SeqDiff(seqno, st.next.value) <= 0 || st.pendingBytes + |payload| <= MAX_PENDING_BYTES
    ensures !Resets(Take(st, seqno, payload, wall, clock).out)
  {
    hide SeqDiff, WrappingAdd, Counted, Pull;
  }

  lemma SwitchResetsIff(st: State, i: Input)
    requires Valid(st) && Switches(i)
    ensures Resets(Step(st, i).out) <==> st.next.Some?
  {
    hide SeqDiff, Take, Counted;
    if st.next.Some? {
      assert Step(st, i).out[0].Reset?;
    } else if i.seg.Has(TCP_SYN) && i.seg.payload != [] {
      var first := WrappingAdd(i.seg.seqno, 1);
      SameNumber(first);
      EmptyIsValid(first);
      TakeResetsIff(State(Some(first), map[], 0), first, i.seg.payload, i.seg.wall, i.clock);
    }
  }

  lemma EmptyIsValid(first: u32)
    ensures Valid(State(Some(first), map[], 0))
  {
  }

  /** A turn hands on a `Reset` exactly when a known connection ends, when the byte cap is reached, or when
      something has been held for REORDER_WAIT once the segment is placed. */
  lemma ResetsIff(st: State, i: Input)
    requires Valid(st)
    ensures Resets(Step(st, i).out)
            <==> (Switches(i) && st.next.Some?) || Overflows(st, i)
                 || (Checks(i) && WaitedFor(Placed(st, i).pending, i.now))
  {
    hide Take, Expire, Counted, WaitedFor, SeqDiff, WrappingAdd;
    if i.Tick? {
      ExpireQuietIff(st, i.now, i.clock);
    } else if IsData(i) {
      var joined := Joined(st, i.seg.seqno);
      SameNumber(i.seg.seqno);
      JoinedIsValid(st, i.seg.seqno);
      var taken := Take(joined, i.seg.seqno, i.seg.payload, i.seg.wall, i.clock);
      TakeResetsIff(joined, i.seg.seqno, i.seg.payload, i.seg.wall, i.clock);
      ExpireQuietIff(taken.st, i.now, i.clock);
      ResetsJoins(taken.out, Expire(taken.st, i.now, i.clock).out);
    } else if Switches(i) {
      SwitchResetsIff(st, i);
    }
  }

  lemma JoinedIsValid(st: State, seqno: u32)
    requires Valid(st)
    ensures Valid(Joined(st, seqno))
  {
  }

  /** What begins or ends a connection leaves nothing of the one before: a SYN expects the byte after its
      own number, behind what it brings, and after an RST or a FIN the next data segment is the start. */
  lemma SwitchStartsOver(st: State, i: Input)
    requires Valid(st) && Switches(i)
    ensures var t := Step(st, i).st;
            && t.pending == map[] && (st.next.Some? || st == IDLE ==> t.pendingBytes == 0)
            && t.next == if !i.seg.Has(TCP_SYN) then None else Some(WrappingAdd(i.seg.seqno, 1 + |i.seg.payload|))
  {
    hide SeqDiff, Size, Deliver;
    if i.seg.Has(TCP_SYN) && i.seg.payload != [] {
      var first := WrappingAdd(i.seg.seqno, 1);
      EmptyIsValid(first);
      TakeHere(State(Some(first), map[], 0), first, i.seg.payload, i.seg.wall, i.clock);
      DeliverAlone(first, i.seg.payload, i.seg.wall);
    }
  }

  lemma DeliverAlone(first: u32, payload: seq<byte>, wall: Time)
    ensures Deliver(State(Some(first), map[], 0), first, payload, wall, []).st
            == State(Some(WrappingAdd(first, |payload|)), map[], 0)
  {
    hide SeqDiff, WrappingAdd;
    EmptyIsValid(first);
    PullDone(Pulled(WrappingAdd(first, |payload|), map[], 0, payload, wall));
  }
}
