/** A hole that is filled in time, with what is held inside the byte cap, costs nothing. */
module ReassemblerHoles {
  import opened Common
  import opened SequenceSpace
  import opened ReassemblerSpec
  import opened ReassemblerLaws
  import opened ReassemblerRuns
  import opened ReassemblerWaits
  import B = ReassemblerBounds

  // ---------- contiguous bytes ----------

  /** A segment that came: its stream offset and what it brought. */
  datatype Came = Came(off: nat, h: Held)

  /** No segment that starts by `f` goes beyond it. */
  predicate Uncrossed(came: seq<Came>, f: nat) {
    forall x <- came :: x.off <= f ==> x.off + |x.h.payload| <= f
  }

  /** `f` is the end of the contiguous bytes from `from`. */
  ghost predicate Contiguous(from: nat, came: seq<Came>, f: nat) {
    && from <= f && Uncrossed(came, f)
    && forall g: nat :: from <= g && Uncrossed(came, g) ==> f <= g
  }

  function Furthest(from: nat, came: seq<Came>): (f: nat)
    ensures from <= f && forall x <- came :: x.off + |x.h.payload| <= f
    decreases |came|
  {
    if came == [] then from
    else
      var n := |came| - 1;
      assert forall x <- came :: x in came[..n] || x == came[n];
      Max(Furthest(from, came[..n]), came[n].off + |came[n].h.payload|)
  }

  lemma {:induction false} ContiguousBelow(from: nat, came: seq<Came>, f: nat)
    requires from <= f && Uncrossed(came, f)
    ensures exists g :: Contiguous(from, came, g)
    decreases f
  {
    hide Uncrossed;
    if !Contiguous(from, came, f) {
      var g: nat :| from <= g && Uncrossed(came, g) && g < f;
      ContiguousBelow(from, came, g);
    }
  }

  ghost function EndOf(from: nat, came: seq<Came>): (f: nat)
    ensures Contiguous(from, came, f)
  {
    ContiguousBelow(from, came, Furthest(from, came));
    var f :| Contiguous(from, came, f);
    f
  }

  lemma ContiguousOnce(from: nat, came: seq<Came>, f: nat)
    requires Contiguous(from, came, f)
    ensures EndOf(from, came) == f
  {
  }

  // ---------- what a reader has by then ----------

  /** The end of the contiguous bytes and the segments that count towards it. */
  datatype Reading = Reading(end: nat, came: seq<Came>)

  /** Beyond the hole, with the start of one that came before. */
  predicate Shadowed(r: Reading, i: Input)
    requires i.Arrive?
  {
    i.off > r.end && exists x <- r.came :: x.off == i.off
  }

  /** Every data segment counts, except a shadowed one. */
  ghost function Note(from: nat, r: Reading, i: Input): Reading {
    if !IsData(i) || Shadowed(r, i) then r
    else var came := r.came + [Came(i.off, HeldOf(i))]; Reading(EndOf(from, came), came)
  }

  ghost function Reads(from: nat, inputs: seq<Input>): Reading
    decreases |inputs|
  {
    if inputs == [] then Reading(from, [])
    else Note(from, Reads(from, inputs[..|inputs| - 1]), inputs[|inputs| - 1])
  }

  /** Every segment still beyond the hole came less than REORDER_WAIT before this turn. */
  predicate InTime(r: Reading, i: Input) {
    Checks(i) ==> forall x <- r.came :: x.off > r.end ==> i.now < x.h.seen + REORDER_WAIT
  }

  /** A segment beyond the hole fits in the byte cap. */
  predicate FitsCap(st: State, r: Reading, i: Input) {
    IsData(i) && i.off > r.end ==> st.pendingBytes + |i.seg.payload| <= MAX_PENDING_BYTES
  }

  // ---------- the reassembler against it ----------

  /** The segments beyond `end` that count are exactly those held. */
  ghost predicate Mirrors(isn: u32, end: nat, m: Waiting, came: seq<Came>) {
    && (forall k <- m :: At(isn, end, k) > end && Came(At(isn, end, k), m[k]) in came)
    && (forall x <- came :: x.off > end ==>
          Wire(isn, x.off) in m && m[Wire(isn, x.off)] == x.h && At(isn, end, Wire(isn, x.off)) == x.off)
  }

  ghost predicate Keeps(s: Stream, isn: u32, st: State, from: nat, r: Reading) {
    && Tracks(s, isn, st, r.end)
    && Contiguous(from, r.came, r.end)
    && Mirrors(isn, r.end, st.pending, r.came)
  }

  /** Segments that end by `end` change nothing. */
  lemma PastCounts(isn: u32, from: nat, r: Reading, m: Waiting, x: Came)
    requires Contiguous(from, r.came, r.end) && Mirrors(isn, r.end, m, r.came)
    requires x.off + |x.h.payload| <= r.end
    ensures Contiguous(from, r.came + [x], r.end) && Mirrors(isn, r.end, m, r.came + [x])
  {
    hide At, Wire;
    forall g: nat | from <= g && Uncrossed(r.came + [x], g)
      ensures r.end <= g
    {
      assert Uncrossed(r.came, g);
    }
  }

  /** Nor does one that starts beyond it, except that it is held. */
  lemma AheadCounts(isn: u32, from: nat, r: Reading, m: Waiting, x: Came)
    requires Contiguous(from, r.came, r.end) && Mirrors(isn, r.end, m, r.came)
    requires x.off > r.end && At(isn, r.end, Wire(isn, x.off)) == x.off && Wire(isn, x.off) !in m
    ensures Contiguous(from, r.came + [x], r.end)
    ensures Mirrors(isn, r.end, m[Wire(isn, x.off) := x.h], r.came + [x])
  {
    hide At, Wire;
    forall g: nat | from <= g && Uncrossed(r.came + [x], g)
      ensures r.end <= g
    {
      assert Uncrossed(r.came, g);
    }
    var n := m[Wire(isn, x.off) := x.h];
    forall y <- r.came + [x] | y.off > r.end
      ensures Wire(isn, y.off) in n && n[Wire(isn, y.off)] == y.h && At(isn, r.end, Wire(isn, y.off)) == y.off
    {
      if y in r.came {
        assert Wire(isn, y.off) in m;
      }
    }
  }

  /** One that reaches from the contiguous bytes to `e` pulls in whatever it made contiguous. */
  lemma PulledCounts(isn: u32, from: nat, r: Reading, m: Waiting, x: Came, e: nat, to: nat, rest: Waiting)
    requires Contiguous(from, r.came, r.end) && Mirrors(isn, r.end, m, r.came)
    requires x.off <= r.end && e == x.off + |x.h.payload| && e > r.end
    requires forall k <- m :: At(isn, e, k) == At(isn, r.end, k)
    requires Reaches(isn, e, m, to, rest)
    ensures Contiguous(from, r.came + [x], to) && Mirrors(isn, to, rest, r.came + [x])
  {
    hide At, Wire;
    var came := r.came + [x];
    forall y <- came | y.off <= to
      ensures y.off + |y.h.payload| <= to
    {
      if y in r.came && y.off > r.end {
        assert m[Wire(isn, y.off)] == y.h;
      }
    }
    forall g: nat | from <= g && Uncrossed(came, g)
      ensures to <= g
    {
      assert Uncrossed(r.came, g);
      assert x in came;
      ClosedBy(isn, r.end, e, m, r.came, g);
    }
    forall y <- came | y.off > to
      ensures Wire(isn, y.off) in rest && rest[Wire(isn, y.off)] == y.h && At(isn, to, Wire(isn, y.off)) == y.off
    {
      assert y in r.came;
      var k := Wire(isn, y.off);
      assert k in m && At(isn, e, k) == y.off;
    }
  }

  lemma ClosedBy(isn: u32, end: nat, e: nat, m: Waiting, came: seq<Came>, g: nat)
    requires Mirrors(isn, end, m, came) && Uncrossed(came, g)
    requires forall k <- m :: At(isn, e, k) == At(isn, end, k)
    ensures Closed(isn, e, m, g)
  {
    hide At, Wire;
    forall k <- m | At(isn, e, k) <= g
      ensures At(isn, e, k) + |m[k].payload| <= g
    {
      assert Came(At(isn, end, k), m[k]) in came;
    }
  }

  /** A segment that starts in the contiguous bytes. */
  lemma TakeBehind(s: Stream, isn: u32, st: State, from: nat, r: Reading, i: Input)
    requires Keeps(s, isn, st, from, r) && IsData(i) && i.off <= r.end
    requires Fair(s, isn, Some(r.end), i)
    ensures var o := Take(st, i.seg.seqno, i.seg.payload, i.seg.wall, i.clock);
            var r' := Note(from, r, i);
            && Keeps(s, isn, o.st, from, r') && !Resets(o.out) && r'.end == r.end + |Tail(o.out)|
  {
    hide Wire, Cut, Pieces, Counted, Deliver, Tail, Resets, Reaches, Mirrors, Contiguous, At, Uncrossed;
    var x, len := Came(i.off, HeldOf(i)), |i.seg.payload|;
    DiffIsDistance(isn, i.off, r.end);
    NothingOut();
    if i.off + len <= r.end {
      PastCounts(isn, from, r, st.pending, x);
      ContiguousOnce(from, r.came + [x], r.end);
    } else {
      var cut := r.end - i.off;
      var payload := i.seg.payload[cut..];
      CutDrops(s, i.off, cut, len);
      DeliverFollows(s, isn, st, r.end, payload, i.seg.wall, []);
      var o := Deliver(st, Wire(isn, r.end), payload, i.seg.wall, []);
      var to := r.end + |Tail(o.out)|;
      SeenFrom(s, isn, r.end, i.off + len, st.pending);
      PulledCounts(isn, from, r, st.pending, x, i.off + len, to, o.st.pending);
      ContiguousOnce(from, r.came + [x], to);
      assert cut == 0 ==> i.seg.payload[cut..] == i.seg.payload;
    }
  }

  lemma SeenFrom(s: Stream, isn: u32, pos: nat, e: nat, m: Waiting)
    requires Pieces(s, isn, pos, 0, m) && pos <= e <= pos + MAX_CAPTURE
    ensures forall k <- m :: At(isn, e, k) == At(isn, pos, k)
  {
    hide Piece, At, Wire;
    forall k <- m
      ensures At(isn, e, k) == At(isn, pos, k)
    {
      PieceStable(s, isn, pos, 0, e - pos, k, m[k]);
    }
  }

  /** A segment that starts beyond them: held, unless it is shadowed, or too much for the cap. */
  lemma TakeAhead(s: Stream, isn: u32, st: State, from: nat, r: Reading, i: Input)
    requires Keeps(s, isn, st, from, r) && IsData(i) && i.off > r.end
    requires Fair(s, isn, Some(r.end), i)
    ensures var o := Take(st, i.seg.seqno, i.seg.payload, i.seg.wall, i.clock);
            var r' := Note(from, r, i);
            && (Resets(o.out) <==> !FitsCap(st, r, i))
            && (!Resets(o.out) ==> Keeps(s, isn, o.st, from, r') && r'.end == r.end && o.out == [])
  {
    hide Wire, Cut, Pieces, Counted, Deliver, Tail, Contiguous, At, Uncrossed;
    var x, k := Came(i.off, HeldOf(i)), i.seg.seqno;
    DiffIsDistance(isn, i.off, r.end);
    NumberIsAt(isn, r.end, i.off);
    NothingOut();
    TakeFollows(s, isn, st, r.end, k, i.off, i.seg.payload, i.seg.wall, i.clock);
    if st.pendingBytes + |i.seg.payload| > MAX_PENDING_BYTES {
      OverflowResets(st, k, i.seg.payload, i.seg.wall, i.clock);
    } else {
      HeldIffShadowed(isn, r, st.pending, i);
      if k !in st.pending {
        AheadCounts(isn, from, r, st.pending, x);
        ContiguousOnce(from, r.came + [x], r.end);
      }
    }
  }

  lemma NumberIsAt(isn: u32, pos: nat, off: nat)
    requires -HALF <= off - pos < HALF
    ensures At(isn, pos, Wire(isn, off)) == off
  {
    hide Wire, SeqDiff;
    DiffIsDistance(isn, off, pos);
  }

  lemma HeldIffShadowed(isn: u32, r: Reading, m: Waiting, i: Input)
    requires Mirrors(isn, r.end, m, r.came) && i.Arrive? && i.off > r.end
    requires i.seg.seqno == Wire(isn, i.off) && At(isn, r.end, i.seg.seqno) == i.off
    ensures i.seg.seqno in m <==> Shadowed(r, i)
  {
    hide Wire, At;
    if i.seg.seqno in m {
      assert Came(i.off, m[i.seg.seqno]).off == i.off;
    }
  }

  lemma OverflowResets(st: State, seqno: u32, payload: seq<byte>, wall: Time, clock: Time)
    requires Valid(st) && st.next.Some? && SeqDiff(seqno, st.next.value) > 0
    requires st.pendingBytes + |payload| > MAX_PENDING_BYTES
    ensures Resets(Take(st, seqno, payload, wall, clock).out)
  {
    hide Pull, SeqDiff, Counted;
    assert Take(st, seqno, payload, wall, clock).out[0].Reset?;
  }

  // ---------- one input ----------

  /** What a stretch without a new connection is made of: ticks, data and bare acknowledgements. */
  predicate Plain(i: Input) {
    i.Arrive? ==> !i.seg.Has(TCP_SYN) && !i.seg.Has(TCP_RST) && (i.seg.payload == [] ==> !i.seg.Has(TCP_FIN))
  }

  lemma PlacedKeeps(s: Stream, isn: u32, st: State, from: nat, r: Reading, i: Input)
    requires Keeps(s, isn, st, from, r) && IsData(i) && Fair(s, isn, Some(r.end), i)
    ensures var o := Take(st, i.seg.seqno, i.seg.payload, i.seg.wall, i.clock);
            var r' := Note(from, r, i);
            && (Resets(o.out) <==> !FitsCap(st, r, i))
            && (!Resets(o.out) ==> Keeps(s, isn, o.st, from, r') && TakeTo(r.end, i.off, o.out) == r'.end)
  {
    hide Keeps, Take, Note, Tail, Fair;
    NothingOut();
    if i.off <= r.end {
      TakeBehind(s, isn, st, from, r, i);
    } else {
      TakeAhead(s, isn, st, from, r, i);
    }
  }

  /** The age of the hole, told from the segments beyond it. */
  lemma OverdueIffLate(s: Stream, isn: u32, st: State, from: nat, r: Reading, i: Input)
    requires Keeps(s, isn, st, from, r) && Checks(i)
    ensures InTime(r, i) <==> !WaitedFor(st.pending, i.now)
  {
    hide Tracks, Contiguous, At, Wire, Checks;
    forall k <- st.pending
      ensures exists x <- r.came :: x.off > r.end && x.h == st.pending[k]
    {
      assert Came(At(isn, r.end, k), st.pending[k]) in r.came;
    }
  }

  /** One input: no `Reset` just when it is in time and fits, and then the reader is where the
      contiguous bytes end. */
  lemma StepKeeps(s: Stream, isn: u32, st: State, from: nat, r: Reading, i: Input)
    requires Keeps(s, isn, st, from, r) && Plain(i) && Fair(s, isn, Some(r.end), i)
    ensures Valid(st)
    ensures var o := Step(st, i);
            var r' := Note(from, r, i);
            && (Resets(o.out) <==> !(FitsCap(st, r, i) && InTime(r', i)))
            && (!Resets(o.out) ==> Keeps(s, isn, o.st, from, r') && PosAfter(isn, st, Some(r.end), i) == Some(r'.end))
  {
    hide Keeps, Take, Expire, Tail, Resets, Fair, Tracks, InTime, TakeTo, FitsCap;
    KeepsTracks(s, isn, st, from, r);
    NothingOut();
    if i.Tick? {
      OverdueIffLate(s, isn, st, from, r, i);
      ExpireQuietIff(st, i.now, i.clock);
      FitsAnyway(st, r, i);
    } else if i.seg.payload == [] {
      FitsAnyway(st, r, i);
      InTimeAnyway(r, i);
    } else {
      PlacedKeeps(s, isn, st, from, r, i);
      var taken := Take(st, i.seg.seqno, i.seg.payload, i.seg.wall, i.clock);
      var expired := Expire(taken.st, i.now, i.clock);
      ResetsJoins(taken.out, expired.out);
      if !Resets(taken.out) {
        KeepsTracks(s, isn, taken.st, from, Note(from, r, i));
        OverdueIffLate(s, isn, taken.st, from, Note(from, r, i), i);
        ExpireQuietIff(taken.st, i.now, i.clock);
        assert taken.out + [] == taken.out;
      }
    }
  }

  lemma KeepsTracks(s: Stream, isn: u32, st: State, from: nat, r: Reading)
    requires Keeps(s, isn, st, from, r)
    ensures Valid(st) && st.next == Some(Wire(isn, r.end))
    ensures forall k :: Joined(st, k) == st
  {
  }

  lemma FitsAnyway(st: State, r: Reading, i: Input)
    requires !IsData(i)
    ensures FitsCap(st, r, i)
  {
  }

  lemma InTimeAnyway(r: Reading, i: Input)
    requires !Checks(i)
    ensures InTime(r, i)
  {
  }

  // ---------- whole stretches ----------

  /** Turn `n` of `later` comes in time for every hole still open, and what it brings fits. */
  ghost predicate TurnIsFine(isn: u32, earlier: seq<Input>, later: seq<Input>, from: nat, n: nat)
    requires n < |later|
  {
    && InTime(Reads(from, later[..n + 1]), later[n])
    && FitsCap(After(isn, earlier + later[..n]).st, Reads(from, later[..n]), later[n])
  }

  ghost predicate AllFine(isn: u32, earlier: seq<Input>, later: seq<Input>, from: nat) {
    forall n :: 0 <= n < |later| ==> TurnIsFine(isn, earlier, later, from, n)
  }

  lemma FineSplits(isn: u32, earlier: seq<Input>, later: seq<Input>, from: nat)
    requires later != []
    ensures var n := |later| - 1;
            AllFine(isn, earlier, later, from)
            <==> AllFine(isn, earlier, later[..n], from) && TurnIsFine(isn, earlier, later, from, n)
  {
    hide InTime, FitsCap, Reads, After;
    var n := |later| - 1;
    forall m | 0 <= m < n
      ensures TurnIsFine(isn, earlier, later, from, m) <==> TurnIsFine(isn, earlier, later[..n], from, m)
    {
      assert later[..n][..m + 1] == later[..m + 1] && later[..n][..m] == later[..m];
    }
  }

  /** No `Reset` in a stretch if and only if every turn comes less than REORDER_WAIT after each segment
      still beyond a hole and fits in the cap; and then everything contiguous has been handed on, in
      order and once, and the reader stands where the contiguous bytes end. */
  lemma {:induction false} NothingLostIff(s: Stream, isn: u32, earlier: seq<Input>, later: seq<Input>, from: nat)
    requires FairRun(s, isn, earlier + later) && forall i <- later :: Plain(i)
    requires After(isn, earlier).pos == Some(from) && After(isn, earlier).st.pending == map[]
    ensures var r, q := After(isn, earlier), After(isn, earlier + later);
            && r.out <= q.out
            && (!Resets(q.out[|r.out|..]) <==> AllFine(isn, earlier, later, from))
            && (!Resets(q.out[|r.out|..]) ==>
                  && Keeps(s, isn, q.st, from, Reads(from, later))
                  && q.pos == Some(Reads(from, later).end)
                  && Tail(q.out[|r.out|..]) == Cut(s, from, q.pos.value - from))
    decreases |later|
  {
    hide Step, PosAfter, Fair, Keeps, Tail, Resets, Cut, InTime, FitsCap, Note, AllFine, Valid;
    var all := earlier + later;
    var r, q := After(isn, earlier), After(isn, all);
    if later == [] {
      assert all == earlier;
      NothingYet(s, isn, earlier, from);
      NoTurns(isn, earlier, from);
    } else {
      var n := |later| - 1;
      var init, i := later[..n], later[n];
      assert all[..|all| - 1] == earlier + init && all[|all| - 1] == i;
      NothingLostIff(s, isn, earlier, init, from);
      FineSplits(isn, earlier, later, from);
      assert later[..n + 1] == later;
      var m := After(isn, earlier + init);
      var added, more := m.out[|r.out|..], Step(m.st, i).out;
      assert q.out[|r.out|..] == added + more;
      ResetsJoins(added, more);
      if !Resets(added) {
        StepKeeps(s, isn, m.st, from, Reads(from, init), i);
        StepHandsOn(s, isn, m.st, from, Reads(from, init), i, added);
      }
    }
  }

  lemma NoTurns(isn: u32, earlier: seq<Input>, from: nat)
    ensures AllFine(isn, earlier, [], from)
  {
  }

  lemma NothingYet(s: Stream, isn: u32, earlier: seq<Input>, from: nat)
    requires FairRun(s, isn, earlier)
    requires After(isn, earlier).pos == Some(from) && After(isn, earlier).st.pending == map[]
    ensures var r := After(isn, earlier);
            && Keeps(s, isn, r.st, from, Reading(from, [])) && r.out[|r.out|..] == []
            && !Resets([]) && Tail([]) == Cut(s, from, 0)
  {
    hide Step, PosAfter, Fair, Told, Valid;
    NeverASplice(s, isn, earlier);
    NothingOut();
    CutNothing(s, from);
  }

  lemma StepHandsOn(s: Stream, isn: u32, st: State, from: nat, r: Reading, i: Input, added: seq<Delivery>)
    requires Keeps(s, isn, st, from, r) && Plain(i) && Fair(s, isn, Some(r.end), i) && Valid(st)
    requires !Resets(added) && Tail(added) == Cut(s, from, r.end - from)
    ensures !Resets(Step(st, i).out) ==>
              Tail(added + Step(st, i).out) == Cut(s, from, Note(from, r, i).end - from)
  {
    hide Step, PosAfter, Fair, Tail, Resets, Cut, Note, Mirrors, Uncrossed, InTime, FitsCap;
    StepFollows(s, isn, st, Some(r.end), i);
    StepKeeps(s, isn, st, from, r, i);
    var more, to := Step(st, i).out, Note(from, r, i).end;
    if !Resets(more) {
      TailJoins(added, more);
      CutJoins(s, from, r.end - from, |Tail(more)|);
    }
  }

  // ---------- shadowed segments ----------

  /** Every data segment of the inputs. */
  function Brings(inputs: seq<Input>): seq<Came>
    decreases |inputs|
  {
    if inputs == [] then []
    else
      var i := inputs[|inputs| - 1];
      Brings(inputs[..|inputs| - 1]) + if IsData(i) then [Came(i.off, HeldOf(i))] else []
  }

  lemma {:induction false} CountedCame(from: nat, inputs: seq<Input>)
    ensures Contiguous(from, Reads(from, inputs).came, Reads(from, inputs).end)
    ensures forall x <- Reads(from, inputs).came :: x in Brings(inputs)
    decreases |inputs|
  {
    if inputs != [] {
      CountedCame(from, inputs[..|inputs| - 1]);
    }
  }

  /** The reader stands at the end of all contiguous bytes that came if and only if no segment goes
      beyond it, and only a shadowed one can. */
  lemma ShadowShowsIff(from: nat, inputs: seq<Input>)
    ensures Contiguous(from, Brings(inputs), Reads(from, inputs).end)
            <==> Uncrossed(Brings(inputs), Reads(from, inputs).end)
  {
    hide Reads, Brings;
    CountedCame(from, inputs);
    var all, r := Brings(inputs), Reads(from, inputs);
    forall g: nat | from <= g && Uncrossed(all, g)
      ensures r.end <= g
    {
      assert Uncrossed(r.came, g);
    }
  }

  /** One does: with byte 5 held, a copy from 5 that also brings byte 6 is dropped, and when the hole
      is filled the reader stops at 6. */
  lemma LongerCopyIsLost()
    ensures var held := State(Some(1), map[5 := Held([50], 0, 0)], 1);
            var again := Take(held, 5, [50, 60], 0, 0);
            var filled := Take(again.st, 1, [10, 20, 30, 40], 0, 0);
            && Valid(held) && again.out == [] && again.st.pending == held.pending
            && filled.out == [Bytes([10, 20, 30, 40, 50], 0)] && filled.st.next == Some(6)
            && filled.st.pending == map[]
  {
    hide Size, Pull;
    var m := map[5 as u32 := Held([50], 0, 0)];
    B.EmptySize();
    SizeRemove(m, 5);
    assert m - {5} == map[];
    var p := Pulled(5, m, 3, [10, 20, 30, 40], 0);
    assert FirstDue(m, 5, 5);
    PullStep(p, 5);
    var q := Absorb(p, 5);
    assert q.data == [10, 20, 30, 40, 50] && q.next == 6 && q.pending == map[];
    PullDone(q);
    var held := State(Some(1), m, 1);
    assert Take(held, 5, [50, 60], 0, 0) == Outcome(State(Some(1), m, 3), []);
  }
}
