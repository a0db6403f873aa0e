/** A successful structural parse does not depend on what follows it in the payload. */
module OrderingStability {
  import opened Common
  import opened OrderingLayout

  lemma VarintStable(d: Payload, x: Payload, i: nat)
    requires ReadVarint(d, i).Some?
    ensures ReadVarint(d + x, i) == ReadVarint(d, i)
  {
    FieldStable(d, x, i + 1, VarintWidth(d[i]));
  }

  lemma FieldStable(d: Payload, x: Payload, i: nat, n: nat)
    requires i + n <= |d|
    ensures Field(d + x, i, n) == Field(d, i, n)
  {
    assert (d + x)[i..i + n] == d[i..i + n];
  }

  lemma MarkedStable(d: Payload, x: Payload, i: nat)
    requires ReadMarked(d, i).Some?
    ensures ReadMarked(d + x, i) == ReadMarked(d, i)
  {
    FieldStable(d, x, i + 1, 4);
  }

  lemma {:induction false} SkipStable(d: Payload, x: Payload, i: nat, n: nat)
    requires SkipVarints(d, i, n).Some?
    ensures SkipVarints(d + x, i, n) == SkipVarints(d, i, n)
    decreases n
  {
    hide ReadVarint;
    if n > 0 {
      VarintStable(d, x, i);
      SkipStable(d, x, ReadVarint(d, i).value.next, n - 1);
    }
  }

  lemma {:induction false} TimeoutsStable(d: Payload, x: Payload, k: nat, n: nat)
    requires ReadTimeouts(d, k, n).Some?
    ensures ReadTimeouts(d + x, k, n) == ReadTimeouts(d, k, n)
    decreases n
  {
    hide ReadMarked;
    if n > 0 {
      MarkedStable(d, x, k);
      TimeoutsStable(d, x, k + 5, n - 1);
    }
  }

  lemma {:induction false} SmallsStable(d: Payload, x: Payload, j: nat, room: nat)
    requires SmallsEnd(d, j, room).Some?
    ensures SmallsEnd(d + x, j, room) == SmallsEnd(d, j, room)
    ensures SmallsEnd(d, j, room).value > j ==> d[j] < 0xfb
    decreases room
  {
    if d[j] < 0xfb && room > 0 {
      SmallsStable(d, x, j + 1, room - 1);
    }
  }

  lemma TailEndStable(d: Payload, x: Payload, j: nat, timeouts: seq<u32>)
    requires TailEnd(d, j, timeouts).Some?
    ensures TailEnd(d + x, j, timeouts) == TailEnd(d, j, timeouts)
    ensures j + 1 < |d| && d[j] < 0xfb
  {
    hide ReadMarked, SmallsEnd, RoundOf;
    SmallsStable(d, x, j, 4);
    var k := SmallsEnd(d, j, 4).value;
    MarkedStable(d, x, k);
    MarkedStable(d, x, k + 5);
  }

  /** A plain byte with another behind it is a certificate count or not, whatever comes later. */
  lemma CountStable(d: Payload, x: Payload, j: nat)
    requires TimeoutCount(d, j).Some? || (j + 1 < |d| && d[j] < 0xfb)
    ensures TimeoutCount(d + x, j) == TimeoutCount(d, j)
  {
    if TimeoutCount(d, j).Some? {
      VarintStable(d, x, j);
    }
  }

  lemma AfterSecondStable(d: Payload, x: Payload, j: nat)
    requires AfterSecond(d, j).Some?
    ensures AfterSecond(d + x, j) == AfterSecond(d, j)
  {
    hide TimeoutCount, ReadTimeouts, TailEnd;
    var r := TimeoutCount(d, j);
    if r.None? {
      TailEndStable(d, x, j, []);
      CountStable(d, x, j);
    } else {
      CountStable(d, x, j);
      TimeoutsStable(d, x, r.value.next, r.value.value);
      TailEndStable(d, x, r.value.next + 5 * r.value.value, ReadTimeouts(d, r.value.next, r.value.value).value);
    }
  }

  lemma TailStable(d: Payload, x: Payload, at: nat)
    requires ParseTail(d, at).Some?
    ensures ParseTail(d + x, at) == ParseTail(d, at)
  {
    hide ReadVarint, AfterSecond;
    VarintStable(d, x, at + 5);
    AfterSecondStable(d, x, ReadVarint(d, at + 5).value.next);
  }

  lemma CountedStable(d: Payload, x: Payload, i: nat)
    requires ReadCounted(d, i).Some?
    ensures ReadCounted(d + x, i) == ReadCounted(d, i)
  {
    hide ReadVarint, ReadHashes;
    VarintStable(d, x, i);
    var count := ReadVarint(d, i).value;
    HashesStable(d, x, count.next, count.value);
  }

  lemma HashesStable(d: Payload, x: Payload, k: nat, count: nat)
    requires ReadHashes(d, k, count).Some?
    ensures ReadHashes(d + x, k, count) == ReadHashes(d, k, count)
  {
    forall i | 0 <= i < count
      ensures (d + x)[k + 32 * i..k + 32 * i + 32] == d[k + 32 * i..k + 32 * i + 32]
    {
    }
    assert Hashes(d + x, k, count) == Hashes(d, k, count);
  }

  lemma BodyStable(d: Payload, x: Payload, proposer: seq<byte>, i: nat)
    ensures ParseLegacy(d, proposer, i).Some? ==> ParseLegacy(d + x, proposer, i) == ParseLegacy(d, proposer, i)
    ensures ParseCurrent(d, proposer, i).Some? ==> ParseCurrent(d + x, proposer, i) == ParseCurrent(d, proposer, i)
  {
    hide ReadMarked, ReadCounted, ParseTail;
    if ParseLegacy(d, proposer, i).Some? {
      MarkedStable(d, x, i);
      CountedStable(d, x, i + 5);
    }
    if ParseCurrent(d, proposer, i).Some? {
      CountedStable(d, x, i);
      TailStable(d, x, ReadCounted(d, i).value.1);
    }
  }

  /** Appending bytes never changes a slot that parsed. */
  lemma SlotStable(d: Payload, x: Payload)
    requires ParseSlot(d).Some?
    ensures ParseSlot(d + x) == ParseSlot(d)
  {
    hide SkipVarints, ParseLegacy, ParseCurrent;
    SkipStable(d, x, 1, 9);
    var p := SlotStart(d).value;
    FieldStable(d, x, p, 20);
    BodyStable(d, x, Field(d, p, 20).value, p + 20);
  }
}
