/** The reassembler on arbitrary segments: nothing is held forever, and what the byte counter means. */
module ReassemblerBounds {
  import opened Common
  import opened SequenceSpace
  import opened ReassemblerSpec

  // ---------- late ticks empty the buffer ----------

  ghost predicate Within(small: Waiting, large: Waiting) {
    forall k <- small :: k in large && small[k] == large[k]
  }

  lemma {:induction false} PullOnlyRemoves(p: Pulled)
    requires Counted(p.pending, p.pendingBytes)
    ensures Within(Pull(p).pending, p.pending)
    decreases |p.pending|
  {
    hide SeqDiff, WrappingAdd, Size;
    if AnyDue(p.pending, p.next) {
      var k := FirstDueOf(p.pending, p.next);
      PullStep(p, k);
      assert p.pending.Keys == (p.pending - {k}).Keys + {k};
      PullOnlyRemoves(Absorb(p, k));
    } else {
      PullDone(p);
    }
  }

  predicate AllLate(m: Waiting, now: Time) {
    forall k <- m :: Since(now, m[k].seen) >= REORDER_WAIT
  }

  /** A tick after the wait gives up on the hole: it hands on a `Reset` and releases a segment. */
  lemma LateTickReleases(st: State, now: Time, clock: Time)
    requires Valid(st) && st.pending != map[] && AllLate(st.pending, now)
    ensures var o := Expire(st, now, clock);
            && |o.st.pending| < |st.pending|
            && AllLate(o.st.pending, now)
            && o.out[0].Reset?
  {
    hide SeqDiff, WrappingAdd, Size, Nearest, Pull;
    var k0 :| k0 in st.pending;
    assert Overdue(st.pending, now);
    var first := NearestOf(st.pending, st.next.value);
    NearestIsHeld(st.pending, st.next.value);
    var h := st.pending[first];
    SizeRemove(st.pending, first);
    var rest := st.pending - {first};
    PullOnlyRemoves(Pulled(WrappingAdd(first, |h.payload|), rest, st.pendingBytes - |h.payload|, h.payload, h.wall));
    var o := Expire(st, now, clock);
    assert Within(o.st.pending, rest);
    WithinIsSmaller(o.st.pending, rest);
    assert st.pending.Keys == rest.Keys + {first};
  }

  lemma NearestIsHeld(m: Waiting, next: u32)
    requires m != map[]
    ensures NearestOf(m, next) in m
  {
  }

  lemma WithinIsSmaller(small: Waiting, large: Waiting)
    requires Within(small, large)
    ensures |small| <= |large|
  {
    Subset(small.Keys, large.Keys);
  }

  lemma {:induction false} Subset(a: set<u32>, b: set<u32>)
    requires a <= b
    ensures |a| <= |b|
    decreases a
  {
    if a != {} {
      var x :| x in a;
      Subset(a - {x}, b - {x});
    }
  }

  ghost function Ticks(st: State, now: Time, clock: Time, n: nat): State
    requires Valid(st)
    decreases n
  {
    if n == 0 then st else Ticks(Expire(st, now, clock).st, now, clock, n - 1)
  }

  /** As many late ticks as there are held segments leave none held. */
  lemma {:induction false} LateTicksDrain(st: State, now: Time, clock: Time, n: nat)
    requires Valid(st) && AllLate(st.pending, now) && |st.pending| <= n
    ensures Ticks(st, now, clock, n).pending == map[]
    decreases n
  {
    hide Valid, Expire, Overdue;
    if n > 0 {
      var next := Expire(st, now, clock).st;
      if st.pending == map[] {
        EmptyStays(st, now, clock);
      } else {
        LateTickReleases(st, now, clock);
      }
      LateTicksDrain(next, now, clock, n - 1);
    }
  }

  lemma EmptyStays(st: State, now: Time, clock: Time)
    requires Valid(st) && st.pending == map[]
    ensures Expire(st, now, clock).st == st
  {
  }

  // ---------- what the byte counter means ----------

  /** Bytes counted but not held. */
  ghost function Slack(st: State): int {
    st.pendingBytes - Size(st.pending)
  }

  /** The segment is dropped because one with the same number is already held, yet it is counted. */
  predicate CountedTwice(st: State, seqno: u32, payload: seq<byte>)
    requires st.next.Some?
  {
    && SeqDiff(seqno, st.next.value) > 0
    && st.pendingBytes + |payload| <= MAX_PENDING_BYTES
    && seqno in st.pending
    && payload != []
  }

  /** A counter that is exact stays exact just when no held number is sent again. */
  lemma CounterStaysExactIff(st: State, seqno: u32, payload: seq<byte>, wall: Time, clock: Time)
    requires Valid(st) && st.next.Some? && Slack(st) == 0
    ensures Slack(Take(st, seqno, payload, wall, clock).st) == 0 <==> !CountedTwice(st, seqno, payload)
  {
    hide SeqDiff, WrappingAdd, Size, Pull;
    EmptySize();
    if seqno !in st.pending {
      SizeAdd(st.pending, seqno, Held(payload, wall, clock));
    }
  }

  lemma EmptySize()
    ensures Size(map[]) == 0
  {
  }

  /** So the counter can stand above zero with nothing held: byte 10 arrives twice ahead of a hole,
      then the hole fills. */
  lemma CounterOutlivesBuffer()
    ensures var held := State(Some(1), map[10 := Held([7], 0, 0)], 1);
            var again := Take(held, 10, [7], 0, 0).st;
            var filled := Take(again, 1, [0, 0, 0, 0, 0, 0, 0, 0, 0], 0, 0).st;
            Valid(held) && Slack(held) == 0 && filled.pending == map[] && filled.pendingBytes == 1
  {
    hide Size, Pull;
    var m := map[10 as u32 := Held([7], 0, 0)];
    EmptySize();
    SizeRemove(m, 10);
    assert m - {10} == map[];
    var p := Pulled(10, m, 2, [0, 0, 0, 0, 0, 0, 0, 0, 0], 0);
    assert FirstDue(m, 10, 10);
    PullStep(p, 10);
    PullDone(Absorb(p, 10));
  }
}
