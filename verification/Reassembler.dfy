/** The reassembler of `src/tap.rs` as it works in place, proved against ReassemblerSpec. */
module Reassembly {
  import opened Common
  import opened SequenceSpace
  import Spec = ReassemblerSpec

  class Reassembler {
    var next: Option<u32>
    var pending: Spec.Waiting
    var pendingBytes: nat

    ghost function State(): Spec.State
      reads this
    {
      Spec.State(next, pending, pendingBytes)
    }

    constructor ()
      ensures State() == Spec.IDLE && Spec.Valid(State())
    {
      next, pending, pendingBytes := None, map[], 0;
    }

    method Push(seg: Spec.Segment, now: Time, clock: Time) returns (out: seq<Spec.Delivery>)
      requires Spec.Valid(State())
      modifies this
      ensures Spec.Outcome(State(), out) == Spec.Push(old(State()), seg, now, clock)
      ensures Spec.Valid(State())
    {
      hide SeqDiff, WrappingAdd, Spec.Take, Spec.Expire, Spec.Valid;
      if seg.Has(Spec.TCP_SYN) {
        out := Restart(seg, clock);
        return;
      }
      out := [];
      if seg.Has(Spec.TCP_RST) {
        if next.Some? {
          out := [Spec.Reset("connection reset (RST)")];
        }
        Clear();
        return;
      }
      if seg.payload == [] {
        if seg.Has(Spec.TCP_FIN) && next.Some? {
          out := [Spec.Reset("connection closed (FIN)")];
          Clear();
        }
        return;
      }
      out := Data(seg, now, clock);
    }

    /** A SYN: whatever was held belongs to an older connection. */
    method Restart(seg: Spec.Segment, clock: Time) returns (out: seq<Spec.Delivery>)
      requires Spec.Valid(State())
      modifies this
      ensures Spec.Outcome(State(), out) == Spec.OpenConnection(old(State()), seg, clock)
      ensures Spec.Valid(State())
    {
      hide SeqDiff, Spec.Take;
      out := [];
      if next.Some? {
        out := [Spec.Reset("new connection (SYN)")];
      }
      Clear();
      next := Some(WrappingAdd(seg.seqno, 1));
      if seg.payload != [] {
        out := Take(WrappingAdd(seg.seqno, 1), seg.payload, seg.wall, clock, out);
      }
    }

    /** A data segment: join mid-stream if need be, place it, then give up on an old hole. */
    method Data(seg: Spec.Segment, now: Time, clock: Time) returns (out: seq<Spec.Delivery>)
      requires Spec.Valid(State())
      modifies this
      ensures Spec.Outcome(State(), out) == Spec.PlaceData(old(State()), seg, now, clock)
      ensures Spec.Valid(State())
    {
      hide SeqDiff, Spec.Take, Spec.Expire;
      if next.None? {
        next := Some(seg.seqno);
      }
      out := Take(seg.seqno, seg.payload, seg.wall, clock, []);
      out := Expire(now, clock, out);
    }

    method Tick(now: Time, clock: Time) returns (out: seq<Spec.Delivery>)
      requires Spec.Valid(State())
      modifies this
      ensures Spec.Outcome(State(), out) == Spec.Expire(old(State()), now, clock)
      ensures Spec.Valid(State())
    {
      out := Expire(now, clock, []);
    }

    method Clear()
      modifies this
      ensures State() == Spec.IDLE
    {
      next, pending, pendingBytes := None, map[], 0;
    }

    method Take(seqno: u32, payload: seq<byte>, wall: Time, clock: Time, before: seq<Spec.Delivery>)
      returns (out: seq<Spec.Delivery>)
      requires next.Some? && Spec.Counted(pending, pendingBytes)
      requires Spec.Valid(State()) || SeqDiff(seqno, next.value) == 0
      modifies this
      ensures var o := Spec.Take(old(State()), seqno, payload, wall, clock);
              State() == o.st && out == before + o.out
      ensures Spec.Valid(State()) && next.Some?
    {
      hide SeqDiff, WrappingAdd, Spec.Pull;
      out := before;
      var d := SeqDiff(seqno, next.value);
      if d < 0 {
        if -d < |payload| {
          out := Deliver(next.value, payload[-d..], wall, out);
        }
      } else if d == 0 {
        out := Deliver(next.value, payload, wall, out);
      } else if pendingBytes + |payload| > Spec.MAX_PENDING_BYTES {
        out := out + [Spec.Reset("reorder buffer full")];
        pending, pendingBytes := map[], 0;
        out := Deliver(seqno, payload, wall, out);
      } else {
        pendingBytes := pendingBytes + |payload|;
        if seqno !in pending {
          pending := pending[seqno := Spec.Held(payload, wall, clock)];
        }
      }
    }

    /** Advance over `payload` at `position` and over every held segment it made contiguous. */
    method Deliver(position: u32, payload: seq<byte>, wall: Time, before: seq<Spec.Delivery>)
      returns (out: seq<Spec.Delivery>)
      requires Spec.Counted(pending, pendingBytes)
      modifies this
      ensures Spec.Outcome(State(), out) == Spec.Deliver(old(State()), position, payload, wall, before)
      ensures Spec.Valid(State()) && next.Some?
    {
      hide SeqDiff, WrappingAdd, Spec.Size, Spec.Pull, Spec.FirstDue, Spec.Counted;
      var at: u32 := WrappingAdd(position, |payload|);
      var data, lastWall: Time := payload, wall;
      ghost var start := Spec.Pulled(at, pending, pendingBytes, data, lastWall);
      while Spec.AnyDue(pending, at)
        invariant Spec.Counted(pending, pendingBytes)
        invariant Spec.Pull(Spec.Pulled(at, pending, pendingBytes, data, lastWall)) == Spec.Pull(start)
        decreases |pending|
      {
        ghost var here := Spec.Pulled(at, pending, pendingBytes, data, lastWall);
        var s := FirstDue(at);
        var h := pending[s];
        Spec.PullStep(here, s);
        pending, pendingBytes := pending - {s}, pendingBytes - |h.payload|;
        var overlap := SeqDiff(at, s);
        if 0 <= overlap < |h.payload| {
          var tail := h.payload[overlap..];
          at := WrappingAdd(at, |tail|);
          data := data + tail;
          lastWall := Max(lastWall, h.wall);
        }
      }
      Spec.PullDone(Spec.Pulled(at, pending, pendingBytes, data, lastWall));
      next := Some(at);
      out := before + [Spec.Bytes(data, lastWall)];
    }

    /** `iter().find(..)`: the least wire number the position has reached. */
    method FirstDue(at: u32) returns (s: u32)
      requires Spec.AnyDue(pending, at)
      ensures s in pending && Spec.FirstDue(pending, at, s)
    {
      Spec.FirstDueExists(pending, at);
      s :| s in pending && Spec.FirstDue(pending, at, s);
    }

    method Expire(now: Time, clock: Time, before: seq<Spec.Delivery>) returns (out: seq<Spec.Delivery>)
      requires Spec.Valid(State())
      modifies this
      ensures var o := Spec.Expire(old(State()), now, clock);
              State() == o.st && out == before + o.out
      ensures Spec.Valid(State())
    {
      hide SeqDiff, Spec.Size, Spec.Take, Spec.Nearest;
      out := before;
      if exists k <- pending :: Since(now, pending[k].seen) >= Spec.REORDER_WAIT {
        out := out + [Spec.Reset("sequence hole not filled (capture loss)")];
        var first := EarliestHeld();
        var h := pending[first];
        Spec.SizeRemove(pending, first);
        pending, pendingBytes := pending - {first}, pendingBytes - |h.payload|;
        next := Some(first);
        out := Take(first, h.payload, h.wall, clock, out);
      }
    }

    /** `keys().min_by_key(..)`: the held segment nearest after the position. */
    method EarliestHeld() returns (first: u32)
      requires pending != map[] && next.Some?
      ensures first in pending && first == Spec.NearestOf(pending, next.value)
    {
      Spec.NearestExists(pending, next.value);
      first :| first in pending && Spec.Nearest(pending, next.value, first);
      Spec.NearestUnique(pending, next.value, first, Spec.NearestOf(pending, next.value));
    }
  }
}
