/** `find_block_records` of `src/ordering.rs`: the layout epoch decides between the structural parse
    and the marker scan. */
module OrderingRecords {
  import opened Common
  import opened OrderingLayout
  import opened OrderingCodec
  import opened OrderingSearch
  import opened OrderingSoundness

  const SCAN_MAX_COUNT: nat := 64

  /** An in-window record led by its round marker at `p`: the record, and the index behind it. */
  function Marked(d: Payload, p: nat, lo: u32, hi: u32): (r: Option<(BlockHeader, nat)>)
    requires p >= 20
    ensures r.Some? ==> p < r.value.1 <= |d|
  {
    match ReadMarked(d, p)
    case None => None
    case Some(round) =>
      if round < lo || round > hi then None
      else match ReadVarint(d, p + 5)
           case None => None
           case Some(count) =>
             if 1 <= count.value <= SCAN_MAX_COUNT && count.next + 32 * count.value <= |d| then
               Some((BlockHeader(d[p - 20..p], round, Hashes(d, count.next, count.value)),
                     count.next + 32 * count.value))
             else None
  }

  function Scan(d: Payload, p: nat, lo: u32, hi: u32): seq<BlockHeader>
    requires p >= 20
    decreases |d| - p
  {
    if p + 5 > |d| then []
    else match Marked(d, p, lo, hi)
         case None => Scan(d, p + 1, lo, hi)
         case Some((record, next)) => [record] + Scan(d, next, lo, hi)
  }

  method ScanBlockRecords(d: Payload, lo: u32, hi: u32) returns (out: seq<BlockHeader>)
    ensures out == Scan(d, 20, lo, hi)
  {
    hide Marked;
    out := [];
    var p: nat := 20;
    while p + 5 <= |d|
      invariant p >= 20
      invariant Scan(d, 20, lo, hi) == out + Scan(d, p, lo, hi)
      decreases |d| - p
    {
      var m := Marked(d, p, lo, hi);
      if m.Some? {
        assert out + ([m.value.0] + Scan(d, m.value.1, lo, hi)) == (out + [m.value.0]) + Scan(d, m.value.1, lo, hi);
        out := out + [m.value.0];
        p := m.value.1;
      } else {
        p := p + 1;
      }
    }
  }

  /** A marker position of the scan and what it takes. */
  predicate TakenAt(d: Payload, at: nat, lo: u32, hi: u32, r: BlockHeader, next: nat) {
    at >= 20 && Marked(d, at, lo, hi) == Some((r, next))
  }

  /** Record `i` of `out` is led by the marker at `at[i]` and ends before `at[i + 1]`. */
  ghost predicate InOrder(d: Payload, p: nat, lo: u32, hi: u32, out: seq<BlockHeader>, at: seq<nat>, ends: seq<nat>) {
    && |at| == |ends| == |out|
    && (forall i :: 0 <= i < |out| ==> p <= at[i] && TakenAt(d, at[i], lo, hi, out[i], ends[i]))
    && forall i, j :: 0 <= i < j < |out| ==> ends[i] <= at[j]
  }

  /** Every record a marker from `p` on leads is one of the scanned ones or begins inside one. */
  ghost predicate NoneSkipped(d: Payload, p: nat, lo: u32, hi: u32, at: seq<nat>, ends: seq<nat>)
    requires |at| == |ends|
  {
    forall q :: p <= q && q >= 20 && Marked(d, q, lo, hi).Some? ==> exists i :: 0 <= i < |at| && at[i] <= q < ends[i]
  }

  lemma NothingTaken(d: Payload, p: nat, lo: u32, hi: u32)
    requires p >= 20 && p + 5 > |d|
    ensures InOrder(d, p, lo, hi, [], [], []) && NoneSkipped(d, p, lo, hi, [], [])
  {
  }

  lemma PassedOver(d: Payload, p: nat, lo: u32, hi: u32, out: seq<BlockHeader>, at: seq<nat>, ends: seq<nat>)
    requires p >= 20 && Marked(d, p, lo, hi).None?
    requires InOrder(d, p + 1, lo, hi, out, at, ends) && NoneSkipped(d, p + 1, lo, hi, at, ends)
    ensures InOrder(d, p, lo, hi, out, at, ends) && NoneSkipped(d, p, lo, hi, at, ends)
  {
    hide Marked;
  }

  lemma OrderStep(d: Payload, p: nat, lo: u32, hi: u32, r: BlockHeader, next: nat, out: seq<BlockHeader>,
                  later: seq<nat>, laterEnds: seq<nat>)
    requires TakenAt(d, p, lo, hi, r, next) && p < next
    requires InOrder(d, next, lo, hi, out, later, laterEnds)
    ensures InOrder(d, p, lo, hi, [r] + out, [p] + later, [next] + laterEnds)
  {
    hide TakenAt;
  }

  lemma NoneSkippedStep(d: Payload, p: nat, lo: u32, hi: u32, next: nat, later: seq<nat>, laterEnds: seq<nat>)
    requires |later| == |laterEnds| && NoneSkipped(d, next, lo, hi, later, laterEnds)
    ensures NoneSkipped(d, p, lo, hi, [p] + later, [next] + laterEnds)
  {
    hide Marked;
    var at, ends := [p] + later, [next] + laterEnds;
    forall q | p <= q && q >= 20 && Marked(d, q, lo, hi).Some?
      ensures exists i :: 0 <= i < |at| && at[i] <= q < ends[i]
    {
      if q < next {
        assert at[0] <= q < ends[0];
      } else {
        var i :| 0 <= i < |later| && later[i] <= q < laterEnds[i];
        assert at[i + 1] <= q < ends[i + 1];
      }
    }
  }

  /** The scan takes markers in payload order, never two that overlap, and passes over a marker only
      when it lies inside a record already taken. */
  lemma {:induction false} ScanIsGreedy(d: Payload, p: nat, lo: u32, hi: u32) returns (at: seq<nat>, ends: seq<nat>)
    requires p >= 20
    ensures |at| == |ends| && InOrder(d, p, lo, hi, Scan(d, p, lo, hi), at, ends)
    ensures NoneSkipped(d, p, lo, hi, at, ends)
    decreases |d| - p
  {
    hide Marked, InOrder, NoneSkipped;
    if p + 5 > |d| {
      at, ends := [], [];
      NothingTaken(d, p, lo, hi);
    } else if Marked(d, p, lo, hi).None? {
      at, ends := ScanIsGreedy(d, p + 1, lo, hi);
      PassedOver(d, p, lo, hi, Scan(d, p + 1, lo, hi), at, ends);
    } else {
      var next := Marked(d, p, lo, hi).value.1;
      var later, laterEnds := ScanIsGreedy(d, next, lo, hi);
      at, ends := [p] + later, [next] + laterEnds;
      OrderStep(d, p, lo, hi, Marked(d, p, lo, hi).value.0, next, Scan(d, next, lo, hi), later, laterEnds);
      NoneSkippedStep(d, p, lo, hi, next, later, laterEnds);
    }
  }

  function FindBlockRecords(d: Payload, lo: u32, hi: u32): seq<BlockHeader> {
    match ParseSlot(d)
    case Some(slot) =>
      if slot.legacy then Scan(d, 20, lo, hi)
      else if slot.header.round < lo || slot.header.round > hi then []
      else Tailed(d, slot)
    case None => Scan(d, 20, lo, hi)
  }

  /** On a well-encoded current frame nothing is ever returned but the slot's record and the frame's
      own record, and neither when the slot's round is outside the window. The own record itself is
      not held to the window: its round may be one past `hi`. */
  lemma OnlyTrueRecords(head: seq<Varint>, parent: Record, middle: seq<byte>, lead: seq<byte>, signers: byte,
                        own: Record, rest: seq<byte>, lo: u32, hi: u32)
    requires |head| == 9 && (forall v <- head :: v.Legal()) && parent.Legal() && parent.Current?
    requires Locatable(own, lead, signers)
    requires own.tail.activation == parent.tail.activation
    requires own.Round() == (parent.Round() + 1) % 0x1_0000_0000
    requires (parent.Round() - TAIL_TC_MAX) % 0x1_0000_0000 <= own.tail.qcParent <= parent.Round()
    ensures var d := [0x00] + EncodeVarints(head) + EncodeRecord(parent)
            + (middle + EncodeOwn(lead, signers, own) + rest);
            var found := FindBlockRecords(d, lo, hi);
            && (forall r <- found :: r == HeaderOf(parent) || r == HeaderOf(own))
            && (!(lo <= parent.Round() <= hi) ==> found == [])
            && (lo <= parent.Round() <= hi && parent.hashes != [] ==> HeaderOf(parent) in found)
  {
    hide EncodeOwn, EncodeTail, ParseSlot, Tailed, EncodeRecord, RoundOf, EncodeVarints, Scan;
    FrameYieldsItsRecords(head, parent, middle, lead, signers, own, rest);
  }

  /** Every scanned record is in the window and has between one and 64 hashes. */
  lemma {:induction false} ScanKeepsWindow(d: Payload, p: nat, lo: u32, hi: u32)
    requires p >= 20
    ensures forall r <- Scan(d, p, lo, hi) :: lo <= r.round <= hi && 1 <= |r.hashes| <= SCAN_MAX_COUNT
    decreases |d| - p
  {
    if p + 5 <= |d| {
      match Marked(d, p, lo, hi)
      case None => ScanKeepsWindow(d, p + 1, lo, hi);
      case Some((record, next)) => ScanKeepsWindow(d, next, lo, hi);
    }
  }

  // ---------- old frames ----------

  /** A payload that does not parse as a current frame, old or of no known layout, is scanned from its
      first possible marker. */
  lemma OldFramesAreScanned(d: Payload, lo: u32, hi: u32) returns (at: seq<nat>, ends: seq<nat>)
    requires ParseSlot(d).None? || ParseSlot(d).value.legacy
    ensures |at| == |ends| && InOrder(d, 20, lo, hi, FindBlockRecords(d, lo, hi), at, ends)
    ensures NoneSkipped(d, 20, lo, hi, at, ends)
  {
    at, ends := ScanIsGreedy(d, 20, lo, hi);
  }

  /** The marker of an encoded old record is one the scan takes, when its round is in the window and it
      has between one and 64 hashes. */
  lemma LegacyIsMarked(d: Payload, p: nat, r: Record, lo: u32, hi: u32)
    requires r.Legacy? && r.Legal() && Has(d, p, EncodeRecord(r))
    requires lo <= r.round <= hi && 1 <= |r.hashes| <= SCAN_MAX_COUNT
    ensures Marked(d, p + 20, lo, hi) == Some((HeaderOf(r), p + |EncodeRecord(r)|))
  {
    hide Has, EncodeVarint, EncodeHashes, EncodeMarked, ReadMarked, ReadVarint, Hashes, LegalHashes;
    AreHashes(r.hashes);
    var count := EncodeVarint(Varint(|r.hashes|, r.countWidth));
    HasParts(d, p, r.proposer, EncodeMarked(r.round) + (count + EncodeHashes(r.hashes)));
    HasParts(d, p + 20, EncodeMarked(r.round), count + EncodeHashes(r.hashes));
    HasParts(d, p + 25, count, EncodeHashes(r.hashes));
    ReadsMarked(d, p + 20, r.round);
    ReadsVarint(d, p + 25, Varint(|r.hashes|, r.countWidth));
    ReadsHashList(d, p + 25 + |count|, r.hashes);
  }

  /** The index `m` lies inside a record of `found` whose marker is before it. */
  ghost predicate Overlapped(d: Payload, m: nat, lo: u32, hi: u32, found: seq<BlockHeader>) {
    exists q: nat, x, next: nat :: q < m < next && TakenAt(d, q, lo, hi, x, next) && x in found
  }

  lemma CoveringMarker(d: Payload, m: nat, lo: u32, hi: u32, at: seq<nat>, ends: seq<nat>) returns (i: nat)
    requires |at| == |ends| && NoneSkipped(d, 20, lo, hi, at, ends)
    requires m >= 20 && Marked(d, m, lo, hi).Some?
    ensures i < |at| && at[i] <= m < ends[i]
  {
    hide Marked;
    i :| 0 <= i < |at| && at[i] <= m < ends[i];
  }

  lemma CoveredIsFound(d: Payload, m: nat, lo: u32, hi: u32, found: seq<BlockHeader>, at: seq<nat>, ends: seq<nat>,
                       i: nat)
    requires m >= 20 && InOrder(d, 20, lo, hi, found, at, ends) && Marked(d, m, lo, hi).Some?
    requires i < |at| && at[i] <= m < ends[i]
    ensures Marked(d, m, lo, hi).value.0 in found || Overlapped(d, m, lo, hi, found)
  {
    hide Marked;
    assert TakenAt(d, at[i], lo, hi, found[i], ends[i]);
    assert found[i] in found;
  }

  lemma MarkedIsFound(d: Payload, m: nat, lo: u32, hi: u32, found: seq<BlockHeader>, at: seq<nat>, ends: seq<nat>)
    requires m >= 20 && InOrder(d, 20, lo, hi, found, at, ends) && NoneSkipped(d, 20, lo, hi, at, ends)
    requires Marked(d, m, lo, hi).Some?
    ensures Marked(d, m, lo, hi).value.0 in found || Overlapped(d, m, lo, hi, found)
  {
    hide Marked, NoneSkipped, Overlapped, TakenAt;
    var i := CoveringMarker(d, m, lo, hi, at, ends);
    CoveredIsFound(d, m, lo, hi, found, at, ends, i);
  }

  /** So every such record of an old frame, its slot's or any other, is returned, unless its marker lies
      inside a record that a marker before it led. */
  lemma LegacyRecordsAreFound(d: Payload, p: nat, r: Record, lo: u32, hi: u32)
    requires ParseSlot(d).None? || ParseSlot(d).value.legacy
    requires r.Legacy? && r.Legal() && Has(d, p, EncodeRecord(r))
    requires lo <= r.round <= hi && 1 <= |r.hashes| <= SCAN_MAX_COUNT
    ensures HeaderOf(r) in FindBlockRecords(d, lo, hi) || Overlapped(d, p + 20, lo, hi, FindBlockRecords(d, lo, hi))
  {
    hide *;
    var at, ends := OldFramesAreScanned(d, lo, hi);
    LegacyIsMarked(d, p, r, lo, hi);
    MarkedIsFound(d, p + 20, lo, hi, FindBlockRecords(d, lo, hi), at, ends);
  }

  /** And the slot of an old frame is such a record. */
  lemma LegacySlotIsScanned(head: seq<Varint>, r: Record, rest: seq<byte>)
    requires |head| == 9 && (forall v <- head :: v.Legal()) && r.Legal() && r.Legacy?
    ensures var front := [0x00] + EncodeVarints(head);
            var d := front + EncodeRecord(r) + rest;
            ParseSlot(d).Some? && ParseSlot(d).value.legacy && Has(d, |front|, EncodeRecord(r))
  {
    hide EncodeRecord, ParseSlot, EncodeVarints;
    ParserInvertsEncoder(head, r, rest);
    var tag: seq<byte> := [0x00];
    var front := tag + EncodeVarints(head);
    var d := front + EncodeRecord(r) + rest;
    assert d[|front|..|front| + |EncodeRecord(r)|] == EncodeRecord(r);
  }
}
