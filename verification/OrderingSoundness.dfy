/** On a well-encoded frame the own-record search never returns a wrong record. */
module OrderingSoundness {
  import opened Common
  import opened OrderingLayout
  import opened OrderingCodec
  import opened OrderingSearch

  /** What precedes and is the frame's own record: a u64 varint's marker and its eight bytes, a small
      signer count, then the record. */
  function EncodeOwn(lead: seq<byte>, signers: byte, own: Record): seq<byte>
    requires own.Legal()
  {
    [0xfd] + (lead + ([signers] + EncodeRecord(own)))
  }

  /** An own record the locator is meant for: current layout, single-byte count, a tail of 20 to
      RECORD_TAIL_MAX bytes. */
  predicate Locatable(own: Record, lead: seq<byte>, signers: byte) {
    && own.Legal() && own.Current? && own.countWidth == 0
    && |lead| == 8 && signers < 0xfb
    && MIN_TAIL <= |EncodeTail(own.tail)| <= RECORD_TAIL_MAX
  }

  /** The own record belongs to the round after the slot's: same activation, the next round, and a
      parent within the timed-out rounds it steps over. */
  predicate Follows(own: Record, slot: Slot) {
    && own.Current?
    && own.tail.activation == slot.activation
    && own.Round() == OwnRound(slot)
    && (slot.header.round - TAIL_TC_MAX) % 0x1_0000_0000 <= own.tail.qcParent <= slot.header.round
  }

  /** Index of the own record's count byte when the encoding stands at `at`. */
  function OwnIndex(at: nat): nat {
    at + 30
  }

  function OwnEnd(at: nat, own: Record): nat
    requires own.Legal() && own.Current?
  {
    at + 31 + 32 * |own.hashes| + |EncodeTail(own.tail)|
  }

  /** The pieces of a record whose proposer stands at `p`. */
  lemma RecordPieces(d: Payload, p: nat, own: Record)
    requires own.Legal() && own.Current? && own.countWidth == 0 && Has(d, p, EncodeRecord(own))
    ensures Has(d, p, own.proposer)
    ensures Has(d, p + 20, [|own.hashes| as byte]) && Has(d, p + 21, EncodeHashes(own.hashes))
    ensures Has(d, p + 21 + 32 * |own.hashes|, EncodeTail(own.tail))
  {
    hide Has, EncodeHashes, EncodeTail;
    var count := EncodeVarint(Varint(|own.hashes|, 0));
    var counted := count + EncodeHashes(own.hashes);
    HasParts(d, p, own.proposer, counted + EncodeTail(own.tail));
    HasParts(d, p + 20, counted, EncodeTail(own.tail));
    HasParts(d, p + 20, count, EncodeHashes(own.hashes));
  }

  /** The pieces of an own record that stands at `at`. */
  lemma OwnPieces(d: Payload, at: nat, lead: seq<byte>, signers: byte, own: Record)
    requires Locatable(own, lead, signers) && Has(d, at, EncodeOwn(lead, signers, own))
    ensures Has(d, at, [0xfd]) && Has(d, at + 9, [signers]) && Has(d, at + 10, own.proposer)
    ensures Has(d, at + 30, [|own.hashes| as byte]) && Has(d, at + 31, EncodeHashes(own.hashes))
    ensures Has(d, at + 31 + 32 * |own.hashes|, EncodeTail(own.tail))
  {
    hide Has, EncodeHashes, EncodeTail, EncodeRecord;
    HasParts(d, at, [0xfd], lead + ([signers] + EncodeRecord(own)));
    HasParts(d, at + 1, lead, [signers] + EncodeRecord(own));
    HasParts(d, at + 9, [signers], EncodeRecord(own));
    RecordPieces(d, at + 10, own);
  }

  /** The last ten bytes of an encoded tail are its activation and its parent. */
  lemma TailCloses(d: Payload, at: nat, t: Tail)
    requires t.Legal() && Has(d, at, EncodeTail(t))
    ensures var j := at + |EncodeTail(t)| - 10;
            ReadMarked(d, j) == Some(t.activation) && ReadMarked(d, j + 5) == Some(t.qcParent)
  {
    hide Has, EncodeMarked, EncodeTimeouts, EncodeVarint;
    var front := EncodeMarked(t.first) + (EncodeVarint(t.second) + ([|t.timeouts| as byte]
                 + (EncodeTimeouts(t.timeouts) + t.smalls)));
    assert EncodeTail(t) == front + Close(t);
    HasParts(d, at, front, Close(t));
    HasParts(d, at + |front|, EncodeMarked(t.activation), EncodeMarked(t.qcParent));
    ReadsMarked(d, at + |front|, t.activation);
    ReadsMarked(d, at + |front| + 5, t.qcParent);
  }

  lemma OwnIsHit(d: Payload, slot: Slot, at: nat, lead: seq<byte>, signers: byte, own: Record)
    requires Locatable(own, lead, signers) && Follows(own, slot)
    requires Has(d, at, EncodeOwn(lead, signers, own))
    ensures OwnEnd(at, own) <= |d| && |own.hashes| < 0xfb
    ensures Hit(d, slot, OwnEnd(at, own), |own.hashes|, |EncodeTail(own.tail)|)
  {
    hide ParseTail, EncodeTail, EncodeHashes, EncodeOwn, RoundOf;
    OwnPieces(d, at, lead, signers, own);
    ReadsTail(d, at + 31 + 32 * |own.hashes|, own.tail);
  }

  /** The true own record passes the structural check. */
  lemma OwnIsCandidate(d: Payload, slot: Slot, at: nat, lead: seq<byte>, signers: byte, own: Record)
    requires Locatable(own, lead, signers) && Follows(own, slot)
    requires Has(d, at, EncodeOwn(lead, signers, own))
    requires slot.end + 10 <= OwnEnd(at, own)
    ensures Candidate(d, slot, OwnIndex(at)) && OwnEnd(at, own) <= |d|
  {
    hide Hit, ParseTail, EncodeTail, EncodeHashes, EncodeOwn, ReadMarked, RoundOf;
    OwnPieces(d, at, lead, signers, own);
    OwnIsHit(d, slot, at, lead, signers, own);
    var c, t := |own.hashes|, |EncodeTail(own.tail)|;
    TailCloses(d, at + 31 + 32 * c, own.tail);
    assert CandidateBy(d, slot, at + 30, OwnEnd(at, own), c, t);
  }

  /** The header of the true own record. */
  function HeaderOf(own: Record): BlockHeader {
    BlockHeader(own.proposer, own.Round(), own.hashes)
  }

  lemma OwnReads(d: Payload, slot: Slot, at: nat, lead: seq<byte>, signers: byte, own: Record)
    requires Locatable(own, lead, signers) && Follows(own, slot)
    requires Has(d, at, EncodeOwn(lead, signers, own))
    ensures OwnIndex(at) < |d|
    ensures RecordAt(d, slot, OwnIndex(at)) == if own.hashes == [] then [] else [HeaderOf(own)]
  {
    hide EncodeTail, EncodeHashes, EncodeOwn, RoundOf, ReadHashes;
    OwnPieces(d, at, lead, signers, own);
    ReadsHashList(d, at + 31, own.hashes);
  }

  /** The slot record, and either the true own record or nothing: the own record exactly when it has
      hashes and no other index in the payload passes the structural check. */
  lemma NeverAWrongRecord(d: Payload, slot: Slot, at: nat, lead: seq<byte>, signers: byte, own: Record)
    requires Locatable(own, lead, signers) && Follows(own, slot)
    requires Has(d, at, EncodeOwn(lead, signers, own))
    requires slot.end + 10 <= OwnEnd(at, own)
    ensures Tailed(d, slot) == Parent(slot) || Tailed(d, slot) == Parent(slot) + [HeaderOf(own)]
    ensures Tailed(d, slot) == Parent(slot) + [HeaderOf(own)]
            <==> own.hashes != [] && forall i :: Candidate(d, slot, i) ==> i == OwnIndex(at)
  {
    hide Candidate, EncodeOwn, Search, RecordAt, Has, EncodeTail;
    OwnIsCandidate(d, slot, at, lead, signers, own);
    OwnReads(d, slot, at, lead, signers, own);
    SearchIsUniqueCandidate(d, slot);
    var f := Search(d, slot);
    assert f.Only? ==> f == Only(f.idx);
  }

  /** A whole frame, slot and own record both encoded: what the locator yields from the bytes alone,
      and when the own record is among it. */
  lemma FrameYieldsItsRecords(head: seq<Varint>, parent: Record, middle: seq<byte>, lead: seq<byte>, signers: byte,
                              own: Record, rest: seq<byte>)
    requires |head| == 9 && (forall v <- head :: v.Legal()) && parent.Legal() && parent.Current?
    requires Locatable(own, lead, signers)
    requires own.tail.activation == parent.tail.activation
    requires own.Round() == (parent.Round() + 1) % 0x1_0000_0000
    requires (parent.Round() - TAIL_TC_MAX) % 0x1_0000_0000 <= own.tail.qcParent <= parent.Round()
    ensures var front := [0x00] + EncodeVarints(head);
            var after := middle + EncodeOwn(lead, signers, own) + rest;
            var d := front + EncodeRecord(parent) + after;
            var slot := ParseSlot(d);
            && slot.Some? && !slot.value.legacy && slot.value.header == HeaderOf(parent)
            && (Tailed(d, slot.value) == Parent(slot.value)
                || Tailed(d, slot.value) == Parent(slot.value) + [HeaderOf(own)])
            && (Tailed(d, slot.value) == Parent(slot.value) + [HeaderOf(own)]
                <==> own.hashes != []
                     && forall i :: Candidate(d, slot.value, i) ==> i == OwnIndex(slot.value.end + |middle|))
  {
    hide EncodeOwn, EncodeTail, ParseSlot, Tailed, EncodeRecord, RoundOf, EncodeVarints, Candidate;
    var tag: seq<byte> := [0x00];
    var front := tag + EncodeVarints(head);
    var o := EncodeOwn(lead, signers, own);
    var after := middle + o + rest;
    var d := front + EncodeRecord(parent) + after;
    ParserInvertsEncoder(head, parent, after);
    var slot := ParseSlot(d).value;
    var at := slot.end + |middle|;
    assert d == (front + EncodeRecord(parent) + middle) + o + rest;
    assert d[at..at + |o|] == o;
    OwnLength(lead, signers, own);
    NeverAWrongRecord(d, slot, at, lead, signers, own);
  }

  lemma OwnLength(lead: seq<byte>, signers: byte, own: Record)
    requires Locatable(own, lead, signers)
    ensures |EncodeOwn(lead, signers, own)| == OwnEnd(0, own) && OwnEnd(0, own) >= 10
  {
  }
}
