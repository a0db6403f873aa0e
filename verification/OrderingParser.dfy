/** The loops of `src/ordering.rs`, proved against the functions of OrderingLayout and OrderingSearch. */
module OrderingParser {
  import opened Common
  import opened OrderingLayout
  import opened OrderingSearch

  method FindSlotStart(d: Payload) returns (r: Option<nat>)
    ensures r == SlotStart(d)
  {
    hide ReadVarint;
    if Get(d, 0) != Some(0x00) {
      return None;
    }
    var p := 1;
    for i := 0 to 9
      invariant SlotStart(d) == SkipVarints(d, p, 9 - i)
    {
      var v := ReadVarint(d, p);
      if v.None? {
        return None;
      }
      p := v.value.next;
    }
    return Some(p);
  }

  method CollectHashes(d: Payload, at: nat, count: nat) returns (r: Option<seq<seq<byte>>>)
    ensures r == ReadHashes(d, at, count)
  {
    if count > MAX_BUNDLE_HASHES || at + count * 32 > |d| {
      return None;
    }
    var k := at;
    var hashes := [];
    for i := 0 to count
      invariant k == at + 32 * i && |hashes| == i
      invariant forall j :: 0 <= j < i ==> hashes[j] == d[at + 32 * j..at + 32 * j + 32]
    {
      hashes := hashes + [d[k..k + 32]];
      k := k + 32;
    }
    assert hashes == Hashes(d, at, count);
    return Some(hashes);
  }

  function Onto(rounds: seq<u32>, rest: Option<seq<u32>>): (r: Option<seq<u32>>)
    ensures rounds == [] ==> r == rest
    ensures rest == Some([]) ==> r == Some(rounds)
  {
    match rest
    case None => None
    case Some(more) => assert [] + more == more && rounds + [] == rounds; Some(rounds + more)
  }

  /** The timeout certificates, one marked round each. */
  method CollectTimeouts(d: Payload, at: nat, count: nat) returns (r: Option<seq<u32>>)
    ensures r == ReadTimeouts(d, at, count)
  {
    hide ReadMarked;
    var rounds: seq<u32> := [];
    for i := 0 to count
      invariant |rounds| == i
      invariant ReadTimeouts(d, at, count) == Onto(rounds, ReadTimeouts(d, at + 5 * i, count - i))
    {
      var round := ReadMarked(d, at + 5 * i);
      if round.None? {
        return None;
      }
      forall more: seq<u32>
        ensures rounds + ([round.value] + more) == (rounds + [round.value]) + more
      {
      }
      rounds := rounds + [round.value];
    }
    return Some(rounds);
  }

  method SkipSmalls(d: Payload, at: nat) returns (r: Option<nat>)
    ensures r == SmallsEnd(d, at, 4)
  {
    var j, smalls := at, 0;
    while j < |d| && d[j] < 0xfb && smalls < 4
      invariant j == at + smalls && smalls <= 4
      invariant SmallsEnd(d, at, 4) == SmallsEnd(d, j, 4 - smalls)
      decreases 4 - smalls
    {
      j := j + 1;
      smalls := smalls + 1;
    }
    return if j < |d| then Some(j) else None;
  }

  method ReadTail(d: Payload, at: nat) returns (r: Option<TailRead>)
    ensures r == ParseTail(d, at)
  {
    hide ReadVarint, ReadMarked, RoundOf, SmallsEnd, ReadTimeouts;
    if Get(d, at) != Some(0xfc) {
      return None;
    }
    var second := ReadVarint(d, at + 5);
    if second.None? {
      return None;
    }
    var j := second.value.next;
    var timeouts: seq<u32> := [];
    var count := TimeoutCount(d, j);
    if count.Some? {
      var rounds := CollectTimeouts(d, count.value.next, count.value.value);
      if rounds.None? {
        return None;
      }
      timeouts := rounds.value;
      j := count.value.next + 5 * count.value.value;
    }
    var k := SkipSmalls(d, j);
    if k.None? || k.value == j {
      return None;
    }
    var activation, qcParent := ReadMarked(d, k.value), ReadMarked(d, k.value + 5);
    if activation.None? || qcParent.None? {
      return None;
    }
    return Some(TailRead(activation.value, RoundOf(timeouts, qcParent.value), k.value + 10));
  }

  // ---------- the own-record search ----------

  lemma EndsStep(d: Payload, slot: Slot, j: nat, ends: seq<nat>)
    requires j + 10 <= |d|
    ensures ends + Ends(d, slot, j)
            == (if EndsAt(d, slot, j) then ends + [j + 10] else ends) + Ends(d, slot, j + 1)
  {
    hide EndsAt;
  }

  method CollectEnds(d: Payload, slot: Slot) returns (ends: seq<nat>)
    ensures ends == Ends(d, slot, slot.end)
  {
    hide EndsAt, Ends;
    ends := [];
    var j := slot.end;
    while j + 10 <= |d|
      invariant ends + Ends(d, slot, j) == Ends(d, slot, slot.end)
      decreases |d| - j
    {
      EndsStep(d, slot, j, ends);
      if EndsAt(d, slot, j) {
        ends := ends + [j + 10];
      }
      j := j + 1;
    }
    NoMoreEnds(d, slot, j);
  }

  lemma NoMoreEnds(d: Payload, slot: Slot, j: nat)
    requires j + 10 > |d|
    ensures Ends(d, slot, j) == []
  {
  }

  method TryTails(d: Payload, slot: Slot, end: nat, c: nat, before: Found) returns (f: Found)
    requires Inside(d, before)
    ensures Inside(d, f) && f == ScanTails(d, slot, end, c, MIN_TAIL, before)
  {
    hide Hit, CountIndex;
    f := before;
    var t := MIN_TAIL;
    while t <= RECORD_TAIL_MAX
      invariant Inside(d, f)
      invariant ScanTails(d, slot, end, c, t, f) == ScanTails(d, slot, end, c, MIN_TAIL, before)
    {
      if f.Ambiguous? {
        return;
      }
      if Hit(d, slot, end, c, t) {
        HitInside(d, slot, end, c, t);
        f := Note(f, CountIndex(end, c, t));
      }
      t := t + 1;
    }
  }

  method TryCounts(d: Payload, slot: Slot, end: nat, before: Found) returns (f: Found)
    requires Inside(d, before)
    ensures Inside(d, f) && f == ScanCounts(d, slot, end, 0, before)
  {
    hide ScanTails;
    f := before;
    var c := 0;
    while c <= MAX_COUNT
      invariant Inside(d, f)
      invariant ScanCounts(d, slot, end, c, f) == ScanCounts(d, slot, end, 0, before)
    {
      if f.Ambiguous? {
        return;
      }
      f := TryTails(d, slot, end, c, f);
      c := c + 1;
    }
  }

  /** `tailed_records`: the slot record with hashes, and the own record when it is unambiguous. */
  method TailedRecords(d: Payload, slot: Slot) returns (out: seq<BlockHeader>)
    ensures out == Tailed(d, slot)
  {
    hide ScanCounts, Ends, ReadHashes;
    out := Parent(slot);
    var ends := CollectEnds(d, slot);
    var f := Nothing;
    var i := 0;
    while i < |ends|
      invariant 0 <= i <= |ends| && Inside(d, f)
      invariant ScanEnds(d, slot, ends[i..], f) == Search(d, slot)
    {
      if f.Ambiguous? {
        return; // ambiguous count: parent slot only
      }
      f := TryCounts(d, slot, ends[i], f);
      i := i + 1;
    }
    if f.Only? && d[f.idx] != 0 {
      var hashes := CollectHashes(d, f.idx + 1, d[f.idx]);
      if hashes.Some? {
        out := out + [BlockHeader(d[f.idx - 20..f.idx], OwnRound(slot), hashes.value)];
      }
    }
  }
}
