/** Whole runs of the reassembler over segments cut from one sender stream. */
module ReassemblerRuns {
  import opened Common
  import opened SequenceSpace
  import opened ReassemblerSpec
  import opened ReassemblerLaws

  // ---------- expiry ----------

  /** Where the reader stands after `Expire`: past what it delivered from the nearest held segment. */
  ghost function ExpireTo(isn: u32, st: State, pos: nat, out: seq<Delivery>): nat
  {
    if out == [] || st.pending == map[] || st.next.None? then pos
    else Max(0, At(isn, pos, NearestOf(st.pending, st.next.value))) + |Tail(out)|
  }

  /** Jumping to the nearest held segment keeps every other one ahead of the reader. */
  lemma JumpKeepsPieces(s: Stream, isn: u32, st: State, pos: nat, first: u32)
    requires Tracks(s, isn, st, pos) && Nearest(st.pending, Wire(isn, pos), first)
    ensures var at := At(isn, pos, first);
            && at > pos && Wire(isn, at) == first
            && Pieces(s, isn, at, 0, st.pending - {first})
            && CutFrom(s, isn, at, first, st.pending[first].payload)
  {
    hide SeqDiff, Wire, Cut, Size;
    var at := At(isn, pos, first);
    var rest := st.pending - {first};
    assert Piece(s, isn, pos, 0, first, st.pending[first]);
    DiffLocates(isn, first, pos);
    forall j <- rest
      ensures Piece(s, isn, at, 0, j, rest[j])
    {
      assert Piece(s, isn, pos, 0, j, st.pending[j]);
      AtStable(isn, pos, at - pos, j);
    }
  }

  lemma ExpireFollows(s: Stream, isn: u32, st: State, pos: nat, now: Time, clock: Time)
    requires Tracks(s, isn, st, pos)
    ensures var o := Expire(st, now, clock);
            var to := ExpireTo(isn, st, pos, o.out);
            Tracks(s, isn, o.st, to) && Follows(s, pos, o.out, to)
  {
    hide SeqDiff, Wire, Cut, Pieces, Tail, Resets, Take, Size, Nearest, CutFrom, At, Overdue;
    NothingOut();
    CutNothing(s, pos);
    if Overdue(st.pending, now) {
      var first := EarliestIn(st, now);
      var h := st.pending[first];
      SizeRemove(st.pending, first);
      JumpKeepsPieces(s, isn, st, pos, first);
      var at := At(isn, pos, first);
      var jumped := State(Some(first), st.pending - {first}, st.pendingBytes - |h.payload|);
      TakeFollows(s, isn, jumped, at, first, at, h.payload, h.wall, clock);
      ResetThen(s, pos, at, Take(jumped, first, h.payload, h.wall, clock).out);
    }
  }

  lemma CutNothing(s: Stream, pos: nat)
    ensures Cut(s, pos, 0) == []
  {
  }

  lemma EarliestIn(st: State, now: Time) returns (first: u32)
    requires Valid(st) && st.next.Some? && Overdue(st.pending, now)
    ensures st.pending != map[] && first == NearestOf(st.pending, st.next.value)
    ensures first in st.pending && Nearest(st.pending, st.next.value, first)
  {
    hide SeqDiff, Counted;
    first := NearestOf(st.pending, st.next.value);
  }

  lemma ResetThen(s: Stream, pos: nat, at: nat, out: seq<Delivery>)
    requires Follows(s, at, out, at + |Tail(out)|)
    ensures var reset := [Reset("sequence hole not filled (capture loss)")];
            Tail(reset + out) == Tail(out) && Follows(s, pos, reset + out, at + |Tail(out)|)
  {
    hide Cut, Tail, Resets;
    var r := "sequence hole not filled (capture loss)";
    LoneReset(r);
    TailJoins([Reset(r)], out);
    ResetsFirst(r, out);
  }

  lemma LoneReset(reason: string)
    ensures Tail([Reset(reason)]) == []
  {
  }

  lemma ResetsFirst(reason: string, out: seq<Delivery>)
    ensures Resets([Reset(reason)] + out)
  {
    assert ([Reset(reason)] + out)[0].Reset?;
  }

  // ---------- one input ----------

  /** `off` is the stream offset of the segment's first payload byte. */
  datatype Input =
    | Arrive(seg: Segment, off: nat, now: Time, clock: Time)
    | Tick(now: Time, clock: Time)

  ghost function Step(st: State, i: Input): (o: Outcome)
    requires Valid(st)
    ensures Valid(o.st)
  {
    match i
    case Arrive(seg, _, now, clock) => Push(st, seg, now, clock)
    case Tick(now, clock) => Expire(st, now, clock)
  }

  /** The input was cut from the stream, within half the sequence space of the reader. */
  ghost predicate Fair(s: Stream, isn: u32, pos: Option<nat>, i: Input) {
    match i
    case Tick(_, _) => true
    case Arrive(seg, off, _, _) =>
      if seg.Has(TCP_SYN) then CutFrom(s, isn, off, WrappingAdd(seg.seqno, 1), seg.payload)
      else if seg.Has(TCP_RST) || seg.payload == [] then true
      else CutFrom(s, isn, off, seg.seqno, seg.payload) && -HALF <= off - pos.GetOr(off) < HALF
  }

  /** The stream offset of the next byte the reader expects; None while it follows no connection. */
  ghost function PosAfter(isn: u32, st: State, pos: Option<nat>, i: Input): Option<nat>
    requires Valid(st)
  {
    match i
    case Tick(now, clock) =>
      if pos.None? then None
      else Some(ExpireTo(isn, st, pos.value, Expire(st, now, clock).out))
    case Arrive(seg, off, now, clock) =>
      if seg.Has(TCP_SYN) then Some(off + |Tail(Push(st, seg, now, clock).out)|)
      else if seg.Has(TCP_RST) then None
      else if seg.payload == [] then if seg.Has(TCP_FIN) then None else pos
      else
        var taken := Take(Joined(st, seg.seqno), seg.seqno, seg.payload, seg.wall, clock);
        var mid := TakeTo(pos.GetOr(off), off, taken.out);
        Some(ExpireTo(isn, taken.st, mid, Expire(taken.st, now, clock).out))
  }

  ghost predicate OnStream(s: Stream, isn: u32, st: State, pos: Option<nat>) {
    Valid(st) && match pos case None => st.next == None case Some(p) => Tracks(s, isn, st, p)
  }

  /** `out`, handed on while the reader goes from `from` to `to`, never splices: what follows the
      last `Reset` is consecutive stream bytes ending at `to`; without a `Reset` they begin at
      `from`; and a followed connection is only left with a `Reset`. */
  ghost predicate Told(s: Stream, from: Option<nat>, out: seq<Delivery>, to: Option<nat>) {
    match to
    case None => Tail(out) == [] && (from.Some? ==> Resets(out))
    case Some(q) =>
      && |Tail(out)| <= q
      && Tail(out) == Cut(s, q - |Tail(out)|, |Tail(out)|)
      && (from.Some? && !Resets(out) ==> q == from.value + |Tail(out)|)
  }

  lemma ToldJoins(s: Stream, a: Option<nat>, x: seq<Delivery>, b: Option<nat>, y: seq<Delivery>, c: Option<nat>)
    requires Told(s, a, x, b) && Told(s, b, y, c)
    ensures Told(s, a, x + y, c)
  {
    hide Cut, Tail, Resets;
    TailJoins(x, y);
    ResetsJoins(x, y);
    if !Resets(y) && b.Some? && c.Some? {
      CutJoins(s, b.value - |Tail(x)|, |Tail(x)|, |Tail(y)|);
    }
  }

  lemma ResetsJoins(x: seq<Delivery>, y: seq<Delivery>)
    ensures Resets(x + y) <==> Resets(x) || Resets(y)
  {
    assert forall d :: d in x + y <==> d in x || d in y;
  }

  /** A SYN restarts the stream at its own offset. */
  lemma SynFollows(s: Stream, isn: u32, st: State, pos: Option<nat>, seg: Segment, off: nat, now: Time, clock: Time)
    requires OnStream(s, isn, st, pos) && seg.Has(TCP_SYN)
    requires CutFrom(s, isn, off, WrappingAdd(seg.seqno, 1), seg.payload)
    ensures var o := Push(st, seg, now, clock);
            var to := off + |Tail(o.out)|;
            Tracks(s, isn, o.st, to) && Told(s, pos, o.out, Some(to))
  {
    hide Cut, Wire, Take, Tail, Resets, WrappingAdd, Pieces, Counted, SeqDiff;
    var first := WrappingAdd(seg.seqno, 1);
    var reset := if st.next.Some? then [Reset("new connection (SYN)")] else [];
    var started := State(Some(first), map[], 0);
    NothingHeld(s, isn, off);
    NothingOut();
    CutNothing(s, off);
    LoneReset("new connection (SYN)");
    ResetsFirst("new connection (SYN)", []);
    assert [Reset("new connection (SYN)")] + [] == [Reset("new connection (SYN)")];
    assert Told(s, pos, reset, Some(off));
    if seg.payload != [] {
      TakeFollows(s, isn, started, off, first, off, seg.payload, seg.wall, clock);
      var out := Take(started, first, seg.payload, seg.wall, clock).out;
      ToldJoins(s, pos, reset, Some(off), out, Some(off + |Tail(out)|));
      TailJoins(reset, out);
    }
  }

  lemma DataFollows(s: Stream, isn: u32, st: State, pos: Option<nat>, seg: Segment, off: nat, now: Time, clock: Time)
    requires OnStream(s, isn, st, pos)
    requires CutFrom(s, isn, off, seg.seqno, seg.payload) && -HALF <= off - pos.GetOr(off) < HALF
    ensures var taken := Take(Joined(st, seg.seqno), seg.seqno, seg.payload, seg.wall, clock);
            var mid := TakeTo(pos.GetOr(off), off, taken.out);
            var to := ExpireTo(isn, taken.st, mid, Expire(taken.st, now, clock).out);
            var o := PlaceData(st, seg, now, clock);
            && taken.st.next == Some(Wire(isn, mid))
            && Tracks(s, isn, o.st, to)
            && Told(s, pos, o.out, Some(to))
  {
    hide Cut, Wire, Take, Expire, Tail, Resets, Pieces, Counted, SeqDiff, TakeTo, ExpireTo;
    var joined := Joined(st, seg.seqno);
    var p := pos.GetOr(off);
    JoinedTracks(s, isn, st, pos, seg.seqno, off);
    TakeFollows(s, isn, joined, p, seg.seqno, off, seg.payload, seg.wall, clock);
    var taken := Take(joined, seg.seqno, seg.payload, seg.wall, clock);
    var mid := TakeTo(p, off, taken.out);
    ExpireFollows(s, isn, taken.st, mid, now, clock);
    var expired := Expire(taken.st, now, clock);
    FollowsJoins(s, p, taken.out, mid, expired.out, ExpireTo(isn, taken.st, mid, expired.out));
  }

  lemma JoinedTracks(s: Stream, isn: u32, st: State, pos: Option<nat>, seqno: u32, off: nat)
    requires OnStream(s, isn, st, pos) && seqno == Wire(isn, off)
    ensures Tracks(s, isn, Joined(st, seqno), pos.GetOr(off))
  {
  }

  lemma StepFollows(s: Stream, isn: u32, st: State, pos: Option<nat>, i: Input)
    requires OnStream(s, isn, st, pos) && Fair(s, isn, pos, i)
    ensures var o := Step(st, i);
            var to := PosAfter(isn, st, pos, i);
            OnStream(s, isn, o.st, to) && Told(s, pos, o.out, to)
  {
    hide Cut, Wire, Take, Expire, Tail, Resets, Pieces, Counted, SeqDiff, CutFrom, WrappingAdd;
    NothingOut();
    match i
    case Tick(now, clock) =>
      if pos.None? {
        NothingHeldExpires(st, now, clock);
      } else {
        ExpireFollows(s, isn, st, pos.value, now, clock);
      }
    case Arrive(seg, off, now, clock) =>
      if seg.Has(TCP_SYN) {
        SynFollows(s, isn, st, pos, seg, off, now, clock);
      } else if seg.Has(TCP_RST) || seg.payload == [] {
        ControlFollows(s, isn, st, pos, seg, off, now, clock);
      } else {
        DataFollows(s, isn, st, pos, seg, off, now, clock);
      }
  }

  lemma NothingHeldExpires(st: State, now: Time, clock: Time)
    requires Valid(st) && st.next == None
    ensures Expire(st, now, clock) == Outcome(st, [])
  {
  }

  lemma ControlFollows(s: Stream, isn: u32, st: State, pos: Option<nat>, seg: Segment, off: nat, now: Time, clock: Time)
    requires OnStream(s, isn, st, pos)
    requires !seg.Has(TCP_SYN) && (seg.Has(TCP_RST) || seg.payload == [])
    ensures var o := Push(st, seg, now, clock);
            var to := PosAfter(isn, st, pos, Arrive(seg, off, now, clock));
            OnStream(s, isn, o.st, to) && Told(s, pos, o.out, to)
  {
    hide Wire, Take, Expire, Pieces, SeqDiff;
    NothingHeld(s, isn, 0);
    NothingOut();
    if pos.Some? {
      CutNothing(s, pos.value);
    }
  }

  // ---------- whole runs ----------

  datatype Run = Run(st: State, pos: Option<nat>, out: seq<Delivery>)

  /** Every input of a run is fair at the position the reader has reached. */
  ghost predicate FairRun(s: Stream, isn: u32, inputs: seq<Input>)
    decreases |inputs|
  {
    inputs == [] ||
    var earlier := inputs[..|inputs| - 1];
    FairRun(s, isn, earlier) && Fair(s, isn, After(isn, earlier).pos, inputs[|inputs| - 1])
  }

  ghost function After(isn: u32, inputs: seq<Input>): (r: Run)
    ensures Valid(r.st)
    decreases |inputs|
  {
    if inputs == [] then Run(IDLE, None, [])
    else
      var r := After(isn, inputs[..|inputs| - 1]);
      var i := inputs[|inputs| - 1];
      var o := Step(r.st, i);
      Run(o.st, PosAfter(isn, r.st, r.pos, i), r.out + o.out)
  }

  /** Over every fair run, what was delivered since the last `Reset` is exactly the stream up to the
      byte the reader expects next: a hole, an overflow, a SYN, RST or FIN never becomes a splice. */
  lemma {:induction false} NeverASplice(s: Stream, isn: u32, inputs: seq<Input>)
    requires FairRun(s, isn, inputs)
    ensures var r := After(isn, inputs);
            && OnStream(s, isn, r.st, r.pos)
            && Told(s, None, r.out, r.pos)
    decreases |inputs|
  {
    hide Cut, Wire, Tail, Resets, Step, Fair, Tracks, Valid, Told, PosAfter;
    if inputs == [] {
      StartsIdle(s, isn);
    } else {
      var earlier, i := inputs[..|inputs| - 1], inputs[|inputs| - 1];
      NeverASplice(s, isn, earlier);
      var r := After(isn, earlier);
      StepFollows(s, isn, r.st, r.pos, i);
      ToldJoins(s, None, r.out, r.pos, Step(r.st, i).out, PosAfter(isn, r.st, r.pos, i));
    }
  }

  lemma StartsIdle(s: Stream, isn: u32)
    ensures Valid(IDLE) && Told(s, None, [], None)
  {
  }

  // ---------- inside a step ----------

  /** Every delivery but the last is a `Reset`. */
  predicate Headed(out: seq<Delivery>) {
    forall i :: 0 <= i < |out| - 1 ==> out[i].Reset?
  }

  lemma ToldNothing(s: Stream, pos: Option<nat>)
    ensures Told(s, pos, [], pos)
  {
  }

  lemma EndsInReset(s: Stream, pos: Option<nat>, out: seq<Delivery>)
    requires out != [] && out[|out| - 1].Reset?
    ensures Told(s, pos, out, None)
  {
    assert out[|out| - 1] in out;
  }

  lemma HeadedPrefix(s: Stream, pos: Option<nat>, out: seq<Delivery>, to: Option<nat>, j: nat)
    returns (at: Option<nat>)
    requires Told(s, pos, out, to) && Headed(out) && j <= |out|
    ensures Told(s, pos, out[..j], at) && (j == |out| ==> at == to)
  {
    hide Told;
    if j == |out| {
      assert out[..j] == out;
      at := to;
    } else if j == 0 {
      ToldNothing(s, pos);
      at := pos;
    } else {
      EndsInReset(s, pos, out[..j]);
      at := None;
    }
  }

  lemma TakeIsHeaded(st: State, seqno: u32, payload: seq<byte>, wall: Time, clock: Time, before: seq<Delivery>)
    requires st.next.Some? && Counted(st.pending, st.pendingBytes)
    requires Valid(st) || SeqDiff(seqno, st.next.value) == 0
    requires forall d <- before :: d.Reset?
    ensures Headed(before + Take(st, seqno, payload, wall, clock).out)
  {
    hide Counted, Pull, SeqDiff;
  }

  lemma ExpireIsHeaded(st: State, now: Time, clock: Time)
    requires Valid(st)
    ensures Headed(Expire(st, now, clock).out)
  {
    hide Take, SeqDiff;
    if Overdue(st.pending, now) {
      var first := EarliestIn(st, now);
      var h := st.pending[first];
      SizeRemove(st.pending, first);
      SameNumber(first);
      TakeIsHeaded(State(Some(first), st.pending - {first}, st.pendingBytes - |h.payload|), first, h.payload,
                   h.wall, clock, [Reset("sequence hole not filled (capture loss)")]);
    }
  }

  lemma SameNumber(k: u32)
    ensures SeqDiff(k, k) == 0
  {
  }

  lemma OpenIsHeaded(st: State, seg: Segment, clock: Time)
    requires Valid(st)
    ensures Headed(OpenConnection(st, seg, clock).out)
  {
    hide Take, SeqDiff;
    var first := WrappingAdd(seg.seqno, 1);
    var reset := if st.next.Some? then [Reset("new connection (SYN)")] else [];
    SameNumber(first);
    if seg.payload != [] {
      TakeIsHeaded(State(Some(first), map[], 0), first, seg.payload, seg.wall, clock, reset);
    }
  }

  /** What a step hands on is told after each delivery, not only after the last. */
  lemma StepToldThroughout(s: Stream, isn: u32, st: State, pos: Option<nat>, i: Input, j: nat)
    returns (at: Option<nat>)
    requires OnStream(s, isn, st, pos) && Fair(s, isn, pos, i) && j <= |Step(st, i).out|
    ensures Told(s, pos, Step(st, i).out[..j], at)
    ensures j == |Step(st, i).out| ==> at == PosAfter(isn, st, pos, i)
  {
    hide Cut, Wire, Take, Expire, Tail, Resets, Pieces, Counted, SeqDiff, CutFrom, WrappingAdd, Told, Tracks;
    StepFollows(s, isn, st, pos, i);
    var out, to := Step(st, i).out, PosAfter(isn, st, pos, i);
    match i
    case Tick(now, clock) =>
      ExpireIsHeaded(st, now, clock);
      at := HeadedPrefix(s, pos, out, to, j);
    case Arrive(seg, off, now, clock) =>
      if seg.Has(TCP_SYN) {
        OpenIsHeaded(st, seg, clock);
        at := HeadedPrefix(s, pos, out, to, j);
      } else if seg.Has(TCP_RST) || seg.payload == [] {
        at := HeadedPrefix(s, pos, out, to, j);
      } else {
        at := DataToldThroughout(s, isn, st, pos, seg, off, now, clock, j);
      }
  }

  lemma DataToldThroughout(s: Stream, isn: u32, st: State, pos: Option<nat>, seg: Segment, off: nat, now: Time,
                           clock: Time, j: nat) returns (at: Option<nat>)
    requires OnStream(s, isn, st, pos) && j <= |PlaceData(st, seg, now, clock).out|
    requires CutFrom(s, isn, off, seg.seqno, seg.payload) && -HALF <= off - pos.GetOr(off) < HALF
    ensures Told(s, pos, PlaceData(st, seg, now, clock).out[..j], at)
    ensures var taken := Take(Joined(st, seg.seqno), seg.seqno, seg.payload, seg.wall, clock);
            var mid := TakeTo(pos.GetOr(off), off, taken.out);
            j == |PlaceData(st, seg, now, clock).out|
            ==> at == Some(ExpireTo(isn, taken.st, mid, Expire(taken.st, now, clock).out))
  {
    hide Cut, Wire, Take, Expire, Tail, Resets, Pieces, Counted, SeqDiff, TakeTo, Headed;
    var joined := Joined(st, seg.seqno);
    var p := pos.GetOr(off);
    JoinedTracks(s, isn, st, pos, seg.seqno, off);
    TakeFollows(s, isn, joined, p, seg.seqno, off, seg.payload, seg.wall, clock);
    var taken := Take(joined, seg.seqno, seg.payload, seg.wall, clock);
    var mid := TakeTo(p, off, taken.out);
    var expired := Expire(taken.st, now, clock);
    ExpireFollows(s, isn, taken.st, mid, now, clock);
    var n := |taken.out|;
    if j <= n {
      TakeIsHeaded(joined, seg.seqno, seg.payload, seg.wall, clock, []);
      assert [] + taken.out == taken.out;
      at := HeadedPrefix(s, pos, taken.out, Some(mid), j);
      assert (taken.out + expired.out)[..j] == taken.out[..j];
      assert j == n + |expired.out| ==> expired.out == [];
    } else {
      ExpireIsHeaded(taken.st, now, clock);
      at := HeadedPrefix(s, Some(mid), expired.out, Some(ExpireTo(isn, taken.st, mid, expired.out)), j - n);
      ToldJoins(s, pos, taken.out, Some(mid), expired.out[..j - n], at);
      assert (taken.out + expired.out)[..j] == taken.out + expired.out[..j - n];
    }
  }

  /** Not even part of a run's log splices: after each single delivery, what came since the last
      `Reset` is the stream up to some byte. */
  lemma {:induction false} NoPrefixSplices(s: Stream, isn: u32, inputs: seq<Input>, n: nat) returns (at: Option<nat>)
    requires FairRun(s, isn, inputs) && n <= |After(isn, inputs).out|
    ensures Told(s, None, After(isn, inputs).out[..n], at)
    ensures n == |After(isn, inputs).out| ==> at == After(isn, inputs).pos
    decreases |inputs|
  {
    hide Cut, Wire, Tail, Resets, Step, Fair, Tracks, Valid, Told, PosAfter;
    var out := After(isn, inputs).out;
    if n == |out| {
      NeverASplice(s, isn, inputs);
      assert out[..n] == out;
      at := After(isn, inputs).pos;
    } else {
      var earlier, i := inputs[..|inputs| - 1], inputs[|inputs| - 1];
      var r := After(isn, earlier);
      if n <= |r.out| {
        at := NoPrefixSplices(s, isn, earlier, n);
        assert out[..n] == r.out[..n];
      } else {
        NeverASplice(s, isn, earlier);
        var j := n - |r.out|;
        at := StepToldThroughout(s, isn, r.st, r.pos, i, j);
        ToldJoins(s, None, r.out, r.pos, Step(r.st, i).out[..j], at);
        assert out[..n] == r.out + Step(r.st, i).out[..j];
      }
    }
  }
}
