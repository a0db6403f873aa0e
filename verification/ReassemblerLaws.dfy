/** The reassembler against the unbounded byte stream a sender numbers from `isn`. */
module ReassemblerLaws {
  import opened Common
  import opened SequenceSpace
  import opened ReassemblerSpec

  type Stream = nat -> byte

  ghost function Cut(s: Stream, from: nat, n: nat): (r: seq<byte>)
    ensures |r| == n
  {
    seq(n, i requires 0 <= i => s(from + i))
  }

  lemma CutJoins(s: Stream, from: nat, n: nat, m: nat)
    ensures Cut(s, from, n) + Cut(s, from + n, m) == Cut(s, from, n + m)
  {
  }

  lemma CutDrops(s: Stream, from: nat, n: nat, m: nat)
    requires n <= m
    ensures Cut(s, from, m)[n..] == Cut(s, from + n, m - n)
  {
  }

  /** The stream offset a wire number stands for, seen from the position `pos`. */
  function At(isn: u32, pos: nat, k: u32): int {
    pos + SeqDiff(k, Wire(isn, pos))
  }

  lemma AtStable(isn: u32, pos: nat, n: nat, k: u32)
    requires -HALF <= At(isn, pos, k) - pos - n
    ensures At(isn, pos + n, k) == At(isn, pos, k)
  {
    hide Wire, SeqDiff, WrappingAdd;
    WireAdvances(isn, pos, n);
    DiffShifts(k, Wire(isn, pos), n);
  }

  /** `h`, held under `k`, is a piece of the stream that starts no further than `lag` behind `pos`. */
  ghost predicate Piece(s: Stream, isn: u32, pos: nat, lag: nat, k: u32, h: Held) {
    var at := At(isn, pos, k);
    0 <= at && pos - lag <= at && h.payload == Cut(s, at, |h.payload|) && |h.payload| <= MAX_CAPTURE
  }

  ghost predicate Pieces(s: Stream, isn: u32, pos: nat, lag: nat, m: Waiting) {
    forall k <- m :: Piece(s, isn, pos, lag, k, m[k])
  }

  /** The loop has delivered `s[start..pos]` so far. */
  ghost predicate Pulling(s: Stream, isn: u32, start: nat, pos: nat, lag: nat, p: Pulled) {
    && start <= pos
    && p.next == Wire(isn, pos)
    && p.data == Cut(s, start, pos - start)
    && Counted(p.pending, p.pendingBytes)
    && Pieces(s, isn, pos, lag, p.pending)
    && lag + Size(p.pending) < HALF
  }

  function Gain(p: Pulled, k: u32): nat
    requires k in p.pending
  {
    var overlap, len := SeqDiff(p.next, k), |p.pending[k].payload|;
    if overlap < 0 || overlap >= len then 0 else len - overlap
  }

  lemma PieceStable(s: Stream, isn: u32, pos: nat, lag: nat, n: nat, k: u32, h: Held)
    requires Piece(s, isn, pos, lag, k, h)
    requires lag + n < HALF
    ensures Piece(s, isn, pos + n, lag + n, k, h) && At(isn, pos + n, k) == At(isn, pos, k)
  {
    hide At, Cut;
    AtStable(isn, pos, n, k);
  }

  lemma Opposite(isn: u32, pos: nat, k: u32)
    requires -HALF < SeqDiff(k, Wire(isn, pos))
    ensures SeqDiff(Wire(isn, pos), k) == -SeqDiff(k, Wire(isn, pos))
  {
    hide Wire;
  }

  lemma FirstDueIsDue(m: Waiting, next: u32)
    requires AnyDue(m, next)
    ensures FirstDue(m, next, FirstDueOf(m, next)) && Due(m, next, FirstDueOf(m, next))
  {
  }

  /** One turn of the pull loop keeps it on the stream. */
  lemma AbsorbFollows(s: Stream, isn: u32, start: nat, pos: nat, lag: nat, p: Pulled, k: u32)
    requires Pulling(s, isn, start, pos, lag, p)
    requires Due(p.pending, p.next, k) && |p.pending[k].payload| <= p.pendingBytes
    ensures var at := At(isn, pos, k);
            var n := Gain(p, k);
            && at <= pos
            && pos + n == Max(pos, at + |p.pending[k].payload|)
            && Pulling(s, isn, start, pos + n, lag + n, Absorb(p, k))
  {
    hide SeqDiff, Wire, WrappingAdd, Cut, Pieces, Size;
    var h := p.pending[k];
    var q := Absorb(p, k);
    var at, n := At(isn, pos, k), Gain(p, k);
    PiecesGive(s, isn, pos, lag, p.pending, k);
    SizeRemove(p.pending, k);
    Opposite(isn, pos, k);
    if n > 0 {
      var overlap := SeqDiff(p.next, k);
      CutDrops(s, at, overlap, |h.payload|);
      CutJoins(s, start, pos - start, n);
      WireAdvances(isn, pos, n);
    }
    PiecesShrinkAndShift(s, isn, pos, lag, n, p.pending, k);
  }

  lemma PiecesGive(s: Stream, isn: u32, pos: nat, lag: nat, m: Waiting, k: u32)
    requires Pieces(s, isn, pos, lag, m) && k in m
    ensures Piece(s, isn, pos, lag, k, m[k])
  {
  }

  lemma PiecesShrinkAndShift(s: Stream, isn: u32, pos: nat, lag: nat, n: nat, m: Waiting, k: u32)
    requires Pieces(s, isn, pos, lag, m) && lag + n < HALF
    ensures Pieces(s, isn, pos + n, lag + n, m - {k})
    ensures forall j <- m :: At(isn, pos + n, j) == At(isn, pos, j)
  {
    hide Piece, At;
    forall j <- m
      ensures Piece(s, isn, pos + n, lag + n, j, m[j]) && At(isn, pos + n, j) == At(isn, pos, j)
    {
      PieceStable(s, isn, pos, lag, n, j, m[j]);
    }
  }

  /** No held segment crosses `f`: everything held that starts by `f` also ends by `f`. */
  ghost predicate Closed(isn: u32, pos: nat, m: Waiting, f: nat) {
    forall k <- m :: At(isn, pos, k) <= f ==> At(isn, pos, k) + |m[k].payload| <= f
  }

  /** From `pos`, with `m` held, the stream is contiguous up to `end` and no further: `end` is the
      least position no held segment crosses, and `rest` is exactly what starts beyond it. */
  ghost predicate Reaches(isn: u32, pos: nat, m: Waiting, end: nat, rest: Waiting) {
    && pos <= end
    && Closed(isn, pos, m, end)
    && (forall f: nat :: pos <= f && Closed(isn, pos, m, f) ==> end <= f)
    && (forall k <- m :: k in rest <==> At(isn, pos, k) > end)
    && (forall k <- rest :: k in m && rest[k] == m[k] && At(isn, end, k) == At(isn, pos, k))
  }

  lemma ReachesStep(isn: u32, pos: nat, n: nat, m: Waiting, k: u32, end: nat, rest: Waiting)
    requires k in m && At(isn, pos, k) <= pos && pos + n == Max(pos, At(isn, pos, k) + |m[k].payload|)
    requires forall j <- m :: At(isn, pos + n, j) == At(isn, pos, j)
    requires Reaches(isn, pos + n, m - {k}, end, rest)
    ensures Reaches(isn, pos, m, end, rest)
  {
    hide At;
    forall f: nat | pos <= f && Closed(isn, pos, m, f)
      ensures end <= f
    {
      assert Closed(isn, pos + n, m - {k}, f);
    }
  }

  lemma AbsorbShrinks(p: Pulled, k: u32)
    requires k in p.pending && |p.pending[k].payload| <= p.pendingBytes
    ensures Absorb(p, k).pending == p.pending - {k}
    ensures Absorb(p, k).pendingBytes == p.pendingBytes - |p.pending[k].payload|
    ensures |Absorb(p, k).pending| < |p.pending|
  {
    assert k !in Absorb(p, k).pending;
    assert p.pending.Keys == Absorb(p, k).pending.Keys + {k};
  }

  lemma NothingDue(isn: u32, pos: nat, m: Waiting)
    requires !AnyDue(m, Wire(isn, pos))
    ensures Reaches(isn, pos, m, pos, m)
  {
    hide SeqDiff, Wire;
  }

  /** The loop with its choices written out: each segment of `order` is due when it is taken, and
      nothing is due at the end. */
  ghost predicate Pulls(p: Pulled, order: seq<u32>, r: Pulled)
    decreases |order|
  {
    if order == [] then r == p && !AnyDue(p.pending, p.next)
    else
      && Due(p.pending, p.next, order[0]) && |p.pending[order[0]].payload| <= p.pendingBytes
      && Pulls(Absorb(p, order[0]), order[1..], r)
  }

  /** In whatever order due segments are taken, the loop delivers the stream as far as it reaches. */
  lemma {:induction false} AnyOrderFollows(s: Stream, isn: u32, start: nat, pos: nat, lag: nat, p: Pulled,
                                           order: seq<u32>, r: Pulled)
    requires Pulling(s, isn, start, pos, lag, p) && Pulls(p, order, r)
    ensures var end := start + |r.data|;
            && pos <= end
            && Reaches(isn, pos, p.pending, end, r.pending)
            && Pulling(s, isn, start, end, lag + (end - pos), r)
            && r.pendingBytes - Size(r.pending) == p.pendingBytes - Size(p.pending)
    decreases |order|
  {
    hide SeqDiff, Wire, Cut, Pieces, Size, Absorb, Reaches, At, AnyDue;
    if order == [] {
      NothingDue(isn, pos, p.pending);
    } else {
      var k := order[0];
      AbsorbFollows(s, isn, start, pos, lag, p, k);
      var n := Gain(p, k);
      PiecesShrinkAndShift(s, isn, pos, lag, n, p.pending, k);
      AbsorbShrinks(p, k);
      SizeRemove(p.pending, k);
      AnyOrderFollows(s, isn, start, pos + n, lag + n, Absorb(p, k), order[1..], r);
      ReachesStep(isn, pos, n, p.pending, k, start + |r.data|, r.pending);
    }
  }

  /** The order due segments are taken in does not show: same bytes, same position, same segments and
      same byte count left. */
  lemma PullOrderIsInvisible(s: Stream, isn: u32, start: nat, pos: nat, lag: nat, p: Pulled,
                             order: seq<u32>, r: Pulled, order': seq<u32>, r': Pulled)
    requires Pulling(s, isn, start, pos, lag, p)
    requires Pulls(p, order, r) && Pulls(p, order', r')
    ensures r' == r.(wall := r'.wall)
  {
    hide SeqDiff, Wire, Cut, Pieces, Size, Absorb, At, Pulls;
    AnyOrderFollows(s, isn, start, pos, lag, p, order, r);
    AnyOrderFollows(s, isn, start, pos, lag, p, order', r');
    assert r.pending == r'.pending;
  }

  /** The segments of `order` whose bytes the loop appended. */
  ghost function Appended(p: Pulled, order: seq<u32>, r: Pulled): set<u32>
    requires Pulls(p, order, r)
    decreases |order|
  {
    if order == [] then {}
    else (if Gain(p, order[0]) > 0 then {order[0]} else {}) + Appended(Absorb(p, order[0]), order[1..], r)
  }

  /** The receive time handed on is the latest among the segments whose bytes are. */
  lemma {:induction false} WallIsLatest(p: Pulled, order: seq<u32>, r: Pulled)
    requires Pulls(p, order, r)
    ensures p.wall <= r.wall
    ensures forall k <- Appended(p, order, r) :: k in p.pending && p.pending[k].wall <= r.wall
    ensures r.wall == p.wall || exists k <- Appended(p, order, r) :: p.pending[k].wall == r.wall
    decreases |order|
  {
    hide SeqDiff, WrappingAdd, AnyDue;
    if order != [] {
      WallIsLatest(Absorb(p, order[0]), order[1..], r);
    }
  }

  /** The order the code takes: the least wire number first. */
  lemma {:induction false} PullOrder(p: Pulled) returns (order: seq<u32>)
    requires Counted(p.pending, p.pendingBytes)
    ensures Pulls(p, order, Pull(p))
    decreases |p.pending|
  {
    hide SeqDiff, Absorb, Pull, FirstDue, AnyDue, Counted;
    if AnyDue(p.pending, p.next) {
      var k := FirstDueOf(p.pending, p.next);
      FirstDueIsDue(p.pending, p.next);
      PullStep(p, k);
      AbsorbShrinks(p, k);
      var more := PullOrder(Absorb(p, k));
      order := [k] + more;
      assert order[1..] == more;
    } else {
      PullDone(p);
      order := [];
    }
  }

  /** What the pull loop delivers: the stream up to the least position no held segment crosses. */
  lemma PullFollows(s: Stream, isn: u32, start: nat, pos: nat, lag: nat, p: Pulled)
    requires Pulling(s, isn, start, pos, lag, p)
    ensures var r := Pull(p);
            var end := start + |r.data|;
            && pos <= end
            && Reaches(isn, pos, p.pending, end, r.pending)
            && Pulling(s, isn, start, end, lag + (end - pos), r)
  {
    hide Reaches, Pull, Pulls, Pieces, Counted, Cut, Wire;
    var order := PullOrder(p);
    AnyOrderFollows(s, isn, start, pos, lag, p, order, Pull(p));
  }

  // ---------- what one input delivers ----------

  /** The bytes delivered after the last `Reset`. */
  function Tail(out: seq<Delivery>): (r: seq<byte>) {
    if out == [] then []
    else match out[|out| - 1]
         case Reset(_) => []
         case Bytes(data, _) => Tail(out[..|out| - 1]) + data
  }

  predicate Resets(out: seq<Delivery>) {
    exists d <- out :: d.Reset?
  }

  lemma {:induction false} TailJoins(a: seq<Delivery>, b: seq<Delivery>)
    ensures Tail(a + b) == if Resets(b) then Tail(b) else Tail(a) + Tail(b)
    decreases |b|
  {
    if b == [] {
      assert a + b == a;
    } else {
      var b', last := b[..|b| - 1], b[|b| - 1];
      assert (a + b)[..|a + b| - 1] == a + b';
      assert b == b' + [last];
      TailJoins(a, b');
      assert Tail(b) == match last case Reset(_) => [] case Bytes(data, _) => Tail(b') + data;
    }
  }

  /** `out`, handed on while the reader moves from `pos` to `to`, is the stream without a splice:
      the bytes after the last `Reset` (or all of them) are consecutive and end at `to`. */
  ghost predicate Follows(s: Stream, pos: nat, out: seq<Delivery>, to: nat) {
    var n := |Tail(out)|;
    && n <= to
    && Tail(out) == Cut(s, to - n, n)
    && (!Resets(out) ==> to == pos + n)
  }

  lemma FollowsJoins(s: Stream, pos: nat, a: seq<Delivery>, mid: nat, b: seq<Delivery>, to: nat)
    requires Follows(s, pos, a, mid) && Follows(s, mid, b, to)
    ensures Follows(s, pos, a + b, to)
  {
    hide Cut, Tail;
    TailJoins(a, b);
    if !Resets(b) {
      CutJoins(s, mid - |Tail(a)|, |Tail(a)|, |Tail(b)|);
    }
    assert Resets(a) || Resets(b) ==> Resets(a + b);
  }

  /** The reader stands at `pos` of the stream and everything it holds is the stream ahead of it. */
  ghost predicate Tracks(s: Stream, isn: u32, st: State, pos: nat) {
    st.next == Some(Wire(isn, pos)) && Pieces(s, isn, pos, 0, st.pending) && Valid(st)
  }

  lemma PiecesShift(s: Stream, isn: u32, pos: nat, lag: nat, n: nat, m: Waiting)
    requires Pieces(s, isn, pos, lag, m) && lag + n < HALF
    ensures Pieces(s, isn, pos + n, lag + n, m)
  {
    hide Piece, At;
    forall j <- m
      ensures Piece(s, isn, pos + n, lag + n, j, m[j])
    {
      PieceStable(s, isn, pos, lag, n, j, m[j]);
    }
  }

  lemma PiecesAhead(s: Stream, isn: u32, pos: nat, lag: nat, m: Waiting)
    requires Pieces(s, isn, pos, lag, m)
    requires forall k <- m :: SeqDiff(k, Wire(isn, pos)) > 0
    ensures Pieces(s, isn, pos, 0, m)
  {
    hide SeqDiff, Wire, Cut;
  }

  lemma TailOfOne(before: seq<Delivery>, data: seq<byte>, wall: Time)
    requires before == [] || before == [Reset("reorder buffer full")]
    ensures Tail(before + [Bytes(data, wall)]) == data
    ensures Resets(before + [Bytes(data, wall)]) <==> before != []
  {
    var out := before + [Bytes(data, wall)];
    assert out[..|out| - 1] == before;
    assert out[|out| - 1] == Bytes(data, wall);
    if before != [] {
      assert before[0] in out;
      assert before[|before| - 1].Reset?;
    }
    assert Tail(before) == [];
  }

  lemma DeliverFollows(s: Stream, isn: u32, st: State, pos: nat, payload: seq<byte>, wall: Time,
                       before: seq<Delivery>)
    requires Counted(st.pending, st.pendingBytes) && Pieces(s, isn, pos, 0, st.pending)
    requires payload == Cut(s, pos, |payload|) && |payload| <= MAX_CAPTURE
    requires before == [] || before == [Reset("reorder buffer full")]
    ensures var o := Deliver(st, Wire(isn, pos), payload, wall, before);
            var n := |Tail(o.out)|;
            && Tracks(s, isn, o.st, pos + n)
            && Tail(o.out) == Cut(s, pos, n)
            && (Resets(o.out) <==> before != [])
            && Reaches(isn, pos + |payload|, st.pending, pos + n, o.st.pending)
  {
    hide SeqDiff, Wire, Cut, Pieces, Pull, Tail, Resets, Reaches, Size, WrappingAdd;
    var len := |payload|;
    PiecesShift(s, isn, pos, 0, len, st.pending);
    WireAdvances(isn, pos, len);
    var p := Pulled(WrappingAdd(Wire(isn, pos), len), st.pending, st.pendingBytes, payload, wall);
    PullFollows(s, isn, pos, pos + len, len, p);
    var r := Pull(p);
    var end := pos + |r.data|;
    PiecesAhead(s, isn, end, len + (end - pos - len), r.pending);
    TailOfOne(before, r.data, r.wall);
  }

  /** Where the reader stands after `Take`: past what it delivered, from `off` if it jumped. */
  function TakeTo(pos: nat, off: nat, out: seq<Delivery>): nat {
    (if Resets(out) then off else pos) + |Tail(out)|
  }

  /** A captured segment's bytes: cut from the stream at `off` and numbered accordingly. */
  ghost predicate CutFrom(s: Stream, isn: u32, off: nat, seqno: u32, payload: seq<byte>) {
    && seqno == Wire(isn, off)
    && payload == Cut(s, off, |payload|)
    && |payload| <= MAX_CAPTURE
  }

  lemma TakeFollows(s: Stream, isn: u32, st: State, pos: nat, seqno: u32, off: nat,
                    payload: seq<byte>, wall: Time, clock: Time)
    requires Tracks(s, isn, st, pos)
             || (off == pos && st.next == Some(Wire(isn, pos)) && Counted(st.pending, st.pendingBytes)
                 && Pieces(s, isn, pos, 0, st.pending))
    requires CutFrom(s, isn, off, seqno, payload)
    requires -HALF <= off - pos < HALF
    ensures var o := Take(st, seqno, payload, wall, clock);
            var to := TakeTo(pos, off, o.out);
            Tracks(s, isn, o.st, to) && Follows(s, pos, o.out, to)
  {
    hide Wire, Cut, Pieces, Deliver, Tail, Resets, Reaches, Counted;
    DiffIsDistance(isn, off, pos);
    var d := off - pos;
    if d < 0 {
      if -d >= |payload| {
        NothingOut();
      } else {
        CutDrops(s, off, -d, |payload|);
        DeliverFollows(s, isn, st, pos, payload[-d..], wall, []);
      }
    } else if d == 0 {
      DeliverFollows(s, isn, st, pos, payload, wall, []);
    } else if st.pendingBytes + |payload| > MAX_PENDING_BYTES {
      NothingHeld(s, isn, off);
      DeliverFollows(s, isn, State(st.next, map[], 0), off, payload, wall, [Reset("reorder buffer full")]);
    } else {
      NothingOut();
      HoldFollows(s, isn, st, pos, seqno, off, payload, wall, clock);
    }
  }

  lemma NothingOut()
    ensures Tail([]) == [] && !Resets([])
  {
  }

  lemma NothingHeld(s: Stream, isn: u32, pos: nat)
    ensures Pieces(s, isn, pos, 0, map[]) && Counted(map[], 0)
  {
  }

  lemma HoldFollows(s: Stream, isn: u32, st: State, pos: nat, seqno: u32, off: nat,
                    payload: seq<byte>, wall: Time, clock: Time)
    requires Tracks(s, isn, st, pos) && CutFrom(s, isn, off, seqno, payload)
    requires 0 < off - pos < HALF
    requires st.pendingBytes + |payload| <= MAX_PENDING_BYTES
    ensures SeqDiff(seqno, st.next.value) > 0
    ensures Tracks(s, isn, Hold(st, seqno, Held(payload, wall, clock)), pos)
  {
    hide SeqDiff, Wire, Cut, Size;
    DiffIsDistance(isn, off, pos);
    assert Piece(s, isn, pos, 0, seqno, Held(payload, wall, clock));
  }
}
