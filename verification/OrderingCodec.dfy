/** An encoder for the layout documented at the head of `src/ordering.rs`, and the proof that the
    parser inverts it wherever the encoded bytes stand. */
module OrderingCodec {
  import opened Common
  import opened OrderingLayout

  // ---------- integers ----------

  function EncodeLe(v: nat, n: nat): (b: seq<byte>)
    ensures |b| == n
    decreases n
  {
    if n == 0 then [] else [v % 256] + EncodeLe(v / 256, n - 1)
  }

  function Limit(n: nat): nat {
    if n == 0 then 1 else 256 * Limit(n - 1)
  }

  lemma {:induction false} LeInverts(v: nat, n: nat)
    requires v < Limit(n)
    ensures Le(EncodeLe(v, n)) == v
    decreases n
  {
    if n > 0 {
      assert EncodeLe(v, n)[1..] == EncodeLe(v / 256, n - 1);
      assert v / 256 < Limit(n - 1);
      LeInverts(v / 256, n - 1);
    }
  }

  lemma Limits()
    ensures Limit(2) == 0x1_0000 && Limit(4) == 0x1_0000_0000 && Limit(8) == 0x1_0000_0000_0000_0000
  {
    assert Limit(1) == 256;
    assert Limit(3) == 256 * Limit(2);
    assert Limit(5) == 256 * Limit(4);
    assert Limit(6) == 256 * Limit(5);
    assert Limit(7) == 256 * Limit(6);
  }

  /** A varint value and the marker it is written with; any width that holds the value is legal. */
  datatype Varint = Varint(value: nat, width: nat) {
    predicate Legal() {
      match width
      case 0 => value < 0xfb
      case 2 => value < 0x1_0000
      case 4 => value < 0x1_0000_0000
      case 8 => value < 0x1_0000_0000_0000_0000
      case _ => false
    }
  }

  function EncodeVarint(v: Varint): (b: seq<byte>)
    requires v.Legal()
    ensures |b| == 1 + v.width
  {
    if v.width == 0 then [v.value]
    else [if v.width == 2 then 0xfb else if v.width == 4 then 0xfc else 0xfd] + EncodeLe(v.value, v.width)
  }

  function EncodeMarked(v: u32): (b: seq<byte>)
    ensures |b| == 5
  {
    [0xfc] + EncodeLe(v, 4)
  }

  // ---------- records ----------

  /** A certificate tail. `smalls` are the bytes after the certificate count. */
  datatype Tail = Tail(first: u32, second: Varint, timeouts: seq<u32>, smalls: seq<byte>,
                       activation: u32, qcParent: u32)
  {
    predicate Legal() {
      && second.Legal()
      && |timeouts| <= TAIL_TC_MAX
      && (forall b <- smalls :: b < 0xfb)
      && |smalls| <= 4
      // without certificates the count byte itself reads as one more small byte
      && (if timeouts == [] then |smalls| <= 3 else |smalls| >= 1)
    }

    function Round(): u32 { RoundOf(timeouts, qcParent) }
  }

  function EncodeTimeouts(ts: seq<u32>): (b: seq<byte>)
    ensures |b| == 5 * |ts|
  {
    if ts == [] then [] else EncodeMarked(ts[0]) + EncodeTimeouts(ts[1..])
  }

  function Close(t: Tail): seq<byte> {
    EncodeMarked(t.activation) + EncodeMarked(t.qcParent)
  }

  function EncodeTail(t: Tail): seq<byte>
    requires t.Legal()
  {
    EncodeMarked(t.first) + (EncodeVarint(t.second) + ([|t.timeouts| as byte] + (EncodeTimeouts(t.timeouts)
    + (t.smalls + Close(t)))))
  }

  predicate LegalHashes(hashes: seq<seq<byte>>) {
    |hashes| <= MAX_BUNDLE_HASHES && forall h <- hashes :: |h| == 32
  }

  function EncodeHashes(hashes: seq<seq<byte>>): (b: seq<byte>)
    requires forall h <- hashes :: |h| == 32
    ensures |b| == 32 * |hashes|
  {
    if hashes == [] then [] else hashes[0] + EncodeHashes(hashes[1..])
  }

  /** A record, in either layout epoch. `countWidth` is the varint width its count is written with. */
  datatype Record =
    | Current(proposer: seq<byte>, hashes: seq<seq<byte>>, countWidth: nat, tail: Tail)
    | Legacy(proposer: seq<byte>, hashes: seq<seq<byte>>, countWidth: nat, round: u32)
  {
    predicate Legal() {
      && |proposer| == 20 && LegalHashes(hashes) && Varint(|hashes|, countWidth).Legal()
      // a u32-wide count would read as the old layout's round marker
      && (Current? ==> countWidth != 4 && tail.Legal())
    }

    function Round(): u32 { if Current? then tail.Round() else round }
    function Activation(): u32 { if Current? then tail.activation else 0 }
  }

  function EncodeRecord(r: Record): (b: seq<byte>)
    requires r.Legal()
    ensures |b| >= 21
  {
    var counted := EncodeVarint(Varint(|r.hashes|, r.countWidth)) + EncodeHashes(r.hashes);
    match r
    case Current(_, _, _, tail) => r.proposer + (counted + EncodeTail(tail))
    case Legacy(_, _, _, round) => r.proposer + (EncodeMarked(round) + counted)
  }

  function EncodeVarints(vs: seq<Varint>): seq<byte>
    requires forall v <- vs :: v.Legal()
  {
    if vs == [] then [] else EncodeVarint(vs[0]) + EncodeVarints(vs[1..])
  }

  // ---------- reading what was written ----------

  /** `b` stands at `i` in `d`. */
  predicate Has(d: Payload, i: nat, b: seq<byte>) {
    i + |b| <= |d| && d[i..i + |b|] == b
  }

  lemma HasParts(d: Payload, i: nat, a: seq<byte>, b: seq<byte>)
    requires Has(d, i, a + b)
    ensures Has(d, i, a) && Has(d, i + |a|, b)
  {
    var w := d[i..i + |a + b|];
    assert w[..|a|] == a;
    assert w[|a|..] == b;
    assert d[i..i + |a|] == w[..|a|];
    assert d[i + |a|..i + |a| + |b|] == w[|a|..];
  }

  lemma HasByte(d: Payload, i: nat, b: seq<byte>, k: nat)
    requires Has(d, i, b) && k < |b|
    ensures i + k < |d| && d[i + k] == b[k]
  {
    assert d[i..i + |b|][k] == d[i + k];
  }

  lemma ReadsMarked(d: Payload, i: nat, v: u32)
    requires Has(d, i, EncodeMarked(v))
    ensures ReadMarked(d, i) == Some(v)
  {
    HasByte(d, i, EncodeMarked(v), 0);
    HasParts(d, i, [0xfc], EncodeLe(v, 4));
    Limits();
    LeInverts(v, 4);
  }

  lemma ReadsVarint(d: Payload, i: nat, v: Varint)
    requires v.Legal() && Has(d, i, EncodeVarint(v))
    ensures ReadVarint(d, i) == Some(Read(v.value, i + 1 + v.width))
    ensures d[i] == 0xfc <==> v.width == 4
  {
    var b := EncodeVarint(v);
    HasByte(d, i, b, 0);
    if v.width != 0 {
      HasParts(d, i, [b[0]], EncodeLe(v.value, v.width));
      Limits();
      LeInverts(v.value, v.width);
    }
  }

  lemma {:induction false} ReadsTimeouts(d: Payload, k: nat, ts: seq<u32>)
    requires Has(d, k, EncodeTimeouts(ts))
    ensures ReadTimeouts(d, k, |ts|) == Some(ts)
    decreases |ts|
  {
    if ts != [] {
      HasParts(d, k, EncodeMarked(ts[0]), EncodeTimeouts(ts[1..]));
      ReadsMarked(d, k, ts[0]);
      ReadsTimeouts(d, k + 5, ts[1..]);
      assert [ts[0]] + ts[1..] == ts;
    }
  }

  /** Small bytes are absorbed up to the marker behind them. */
  lemma {:induction false} ReadsSmalls(d: Payload, j: nat, smalls: seq<byte>, room: nat)
    requires Has(d, j, smalls + [0xfc]) && |smalls| <= room && forall b <- smalls :: b < 0xfb
    ensures SmallsEnd(d, j, room) == Some(j + |smalls|)
    decreases |smalls|
  {
    HasByte(d, j, smalls + [0xfc], 0);
    if smalls != [] {
      assert smalls + [0xfc] == [smalls[0]] + (smalls[1..] + [0xfc]);
      HasParts(d, j, [smalls[0]], smalls[1..] + [0xfc]);
      assert d[j] == smalls[0] && smalls[0] in smalls;
      assert forall b <- smalls[1..] :: b in smalls;
      ReadsSmalls(d, j + 1, smalls[1..], room - 1);
    }
  }

  lemma ReadsTailEnd(d: Payload, j: nat, timeouts: seq<u32>, smalls: seq<byte>, activation: u32, qcParent: u32)
    requires 1 <= |smalls| <= 4 && forall b <- smalls :: b < 0xfb
    requires Has(d, j, smalls + (EncodeMarked(activation) + EncodeMarked(qcParent)))
    ensures TailEnd(d, j, timeouts)
            == Some(TailRead(activation, RoundOf(timeouts, qcParent), j + |smalls| + 10))
  {
    hide Le, EncodeLe, RoundOf;
    var rest := EncodeMarked(activation) + EncodeMarked(qcParent);
    HasParts(d, j, smalls, rest);
    HasParts(d, j + |smalls|, EncodeMarked(activation), EncodeMarked(qcParent));
    assert smalls + rest == (smalls + [0xfc]) + rest[1..];
    HasParts(d, j, smalls + [0xfc], rest[1..]);
    ReadsSmalls(d, j, smalls, 4);
    ReadsMarked(d, j + |smalls|, activation);
    ReadsMarked(d, j + |smalls| + 5, qcParent);
  }

  lemma PlainCount(d: Payload, j: nat)
    requires Get(d, j) == Some(0)
    ensures AfterSecond(d, j) == TailEnd(d, j, [])
  {
    hide TailEnd;
  }

  lemma CertificateCount(d: Payload, j: nat, ts: seq<u32>)
    requires 1 <= |ts| <= TAIL_TC_MAX && Get(d, j) == Some(|ts|) && Get(d, j + 1) == Some(0xfc)
    requires ReadTimeouts(d, j + 1, |ts|) == Some(ts)
    ensures AfterSecond(d, j) == TailEnd(d, j + 1 + 5 * |ts|, ts)
  {
    hide TailEnd, ReadTimeouts;
  }

  lemma ReadsPlainTail(d: Payload, j: nat, t: Tail)
    requires t.Legal() && t.timeouts == [] && Has(d, j, [0] + (t.smalls + Close(t)))
    ensures AfterSecond(d, j) == Some(TailRead(t.activation, t.Round(), j + 1 + |t.smalls| + 10))
  {
    hide Has, RoundOf, EncodeMarked, TailEnd, AfterSecond;
    HasParts(d, j, [0], t.smalls + Close(t));
    HasByte(d, j, [0], 0);
    assert [0] + (t.smalls + Close(t)) == ([0] + t.smalls) + Close(t);
    PlainCount(d, j);
    ReadsTailEnd(d, j, [], [0] + t.smalls, t.activation, t.qcParent);
  }

  lemma ReadsCertifiedTail(d: Payload, j: nat, t: Tail)
    requires t.Legal() && t.timeouts != []
    requires Has(d, j, [|t.timeouts| as byte] + (EncodeTimeouts(t.timeouts) + (t.smalls + Close(t))))
    ensures AfterSecond(d, j)
            == Some(TailRead(t.activation, t.Round(), j + 1 + 5 * |t.timeouts| + |t.smalls| + 10))
  {
    hide Has, RoundOf, EncodeTimeouts, EncodeMarked, TailEnd, ReadTimeouts, AfterSecond;
    var certs, rest := EncodeTimeouts(t.timeouts), t.smalls + Close(t);
    HasParts(d, j, [|t.timeouts| as byte], certs + rest);
    HasParts(d, j + 1, certs, rest);
    HasByte(d, j, [|t.timeouts| as byte], 0);
    TimeoutsStart(d, j + 1, t.timeouts);
    ReadsTimeouts(d, j + 1, t.timeouts);
    CertificateCount(d, j, t.timeouts);
    ReadsTailEnd(d, j + 1 + 5 * |t.timeouts|, t.timeouts, t.smalls, t.activation, t.qcParent);
  }

  /** The certificate count of an encoded tail, and everything behind it. */
  lemma ReadsAfterSecond(d: Payload, j: nat, t: Tail)
    requires t.Legal()
    requires Has(d, j, [|t.timeouts| as byte] + (EncodeTimeouts(t.timeouts) + (t.smalls + Close(t))))
    ensures AfterSecond(d, j)
            == Some(TailRead(t.activation, t.Round(), j + 1 + 5 * |t.timeouts| + |t.smalls| + 10))
  {
    hide Has, RoundOf, Close, AfterSecond;
    if t.timeouts == [] {
      assert EncodeTimeouts(t.timeouts) + (t.smalls + Close(t)) == t.smalls + Close(t);
      ReadsPlainTail(d, j, t);
    } else {
      ReadsCertifiedTail(d, j, t);
    }
  }

  lemma TimeoutsStart(d: Payload, k: nat, ts: seq<u32>)
    requires ts != [] && Has(d, k, EncodeTimeouts(ts))
    ensures Get(d, k) == Some(0xfc)
  {
    HasByte(d, k, EncodeTimeouts(ts), 0);
  }

  lemma ReadsTail(d: Payload, at: nat, t: Tail)
    requires t.Legal() && Has(d, at, EncodeTail(t))
    ensures ParseTail(d, at) == Some(TailRead(t.activation, t.Round(), at + |EncodeTail(t)|))
  {
    hide Le, EncodeLe, RoundOf, AfterSecond, ReadVarint;
    var behind := [|t.timeouts| as byte] + (EncodeTimeouts(t.timeouts)
                  + (t.smalls + Close(t)));
    HasByte(d, at, EncodeTail(t), 0);
    HasParts(d, at, EncodeMarked(t.first), EncodeVarint(t.second) + behind);
    HasParts(d, at + 5, EncodeVarint(t.second), behind);
    ReadsVarint(d, at + 5, t.second);
    ReadsAfterSecond(d, at + 6 + t.second.width, t);
  }

  lemma HashesSplit(d: Payload, k: nat, n: nat)
    requires k + 32 * n <= |d| && n > 0
    ensures Hashes(d, k, n) == [d[k..k + 32]] + Hashes(d, k + 32, n - 1)
  {
    var all, more := Hashes(d, k, n), Hashes(d, k + 32, n - 1);
    forall i | 0 <= i < n
      ensures all[i] == ([d[k..k + 32]] + more)[i]
    {
      if i > 0 {
        assert more[i - 1] == d[k + 32 * i..k + 32 * i + 32];
      }
    }
  }

  lemma {:induction false} ReadsHashes(d: Payload, k: nat, hashes: seq<seq<byte>>)
    requires (forall h <- hashes :: |h| == 32) && Has(d, k, EncodeHashes(hashes))
    ensures Hashes(d, k, |hashes|) == hashes
    decreases |hashes|
  {
    hide Hashes;
    if hashes == [] {
      assert |Hashes(d, k, 0)| == 0;
    } else {
      HasParts(d, k, hashes[0], EncodeHashes(hashes[1..]));
      ReadsHashes(d, k + 32, hashes[1..]);
      HashesSplit(d, k, |hashes|);
      assert hashes == [hashes[0]] + hashes[1..];
    }
  }

  lemma ReadsHashList(d: Payload, k: nat, hashes: seq<seq<byte>>)
    requires LegalHashes(hashes) && Has(d, k, EncodeHashes(hashes))
    ensures ReadHashes(d, k, |hashes|) == Some(hashes)
  {
    hide EncodeHashes, Hashes;
    ReadsHashes(d, k, hashes);
  }

  lemma AreHashes(hashes: seq<seq<byte>>)
    requires LegalHashes(hashes)
    ensures forall h <- hashes :: |h| == 32
  {
  }

  lemma CountThenHashes(d: Payload, i: nat, n: nat, next: nat, hashes: seq<seq<byte>>)
    requires ReadVarint(d, i) == Some(Read(n, next)) && ReadHashes(d, next, n) == Some(hashes)
    ensures ReadCounted(d, i) == Some((hashes, next + 32 * n))
  {
    hide ReadVarint, ReadHashes;
  }

  lemma ReadsCounted(d: Payload, i: nat, hashes: seq<seq<byte>>, width: nat)
    requires LegalHashes(hashes) && Varint(|hashes|, width).Legal()
    requires Has(d, i, EncodeVarint(Varint(|hashes|, width)) + EncodeHashes(hashes))
    ensures ReadCounted(d, i) == Some((hashes, i + 1 + width + 32 * |hashes|))
    ensures d[i] == 0xfc <==> width == 4
  {
    hide *;
    AreHashes(hashes);
    var v := Varint(|hashes|, width);
    HasParts(d, i, EncodeVarint(v), EncodeHashes(hashes));
    ReadsVarint(d, i, v);
    ReadsHashList(d, i + 1 + width, hashes);
    CountThenHashes(d, i, |hashes|, i + 1 + width, hashes);
  }

  lemma {:induction false} SkipsVarints(d: Payload, i: nat, vs: seq<Varint>)
    requires (forall v <- vs :: v.Legal()) && Has(d, i, EncodeVarints(vs))
    ensures SkipVarints(d, i, |vs|) == Some(i + |EncodeVarints(vs)|)
    decreases |vs|
  {
    hide Le, EncodeLe, EncodeVarint, ReadVarint;
    if vs != [] {
      HasParts(d, i, EncodeVarint(vs[0]), EncodeVarints(vs[1..]));
      ReadsVarint(d, i, vs[0]);
      SkipsVarints(d, i + 1 + vs[0].width, vs[1..]);
    }
  }

  /** The parsed form of an encoded record that ends at `end`. */
  function SlotOf(r: Record, end: nat): Slot {
    Slot(BlockHeader(r.proposer, r.Round(), r.hashes), r.Legacy?, r.Activation(), end)
  }

  lemma ReadsCurrent(d: Payload, i: nat, r: Record)
    requires r.Current? && r.Legal()
    requires Has(d, i, (EncodeVarint(Varint(|r.hashes|, r.countWidth)) + EncodeHashes(r.hashes)) + EncodeTail(r.tail))
    ensures ParseCurrent(d, r.proposer, i) == Some(SlotOf(r, i + |EncodeRecord(r)| - 20))
    ensures d[i] != 0xfc
  {
    hide EncodeVarint, EncodeHashes, EncodeTail, ReadCounted, ParseTail, RoundOf;
    var counted := EncodeVarint(Varint(|r.hashes|, r.countWidth)) + EncodeHashes(r.hashes);
    HasParts(d, i, counted, EncodeTail(r.tail));
    ReadsCounted(d, i, r.hashes, r.countWidth);
    ReadsTail(d, i + |counted|, r.tail);
  }

  lemma ReadsLegacy(d: Payload, i: nat, r: Record)
    requires r.Legacy? && r.Legal()
    requires Has(d, i, EncodeMarked(r.round)
                 + (EncodeVarint(Varint(|r.hashes|, r.countWidth)) + EncodeHashes(r.hashes)))
    ensures ParseLegacy(d, r.proposer, i) == Some(SlotOf(r, i + |EncodeRecord(r)| - 20))
    ensures d[i] == 0xfc
  {
    hide EncodeVarint, EncodeHashes, ReadCounted;
    var counted := EncodeVarint(Varint(|r.hashes|, r.countWidth)) + EncodeHashes(r.hashes);
    HasByte(d, i, EncodeMarked(r.round) + counted, 0);
    HasParts(d, i, EncodeMarked(r.round), counted);
    ReadsMarked(d, i, r.round);
    ReadsCounted(d, i + 5, r.hashes, r.countWidth);
  }

  lemma ParsesAt(d: Payload, p: nat, r: Record)
    requires r.Legal() && SlotStart(d) == Some(p) && Has(d, p, EncodeRecord(r))
    ensures ParseSlot(d) == Some(SlotOf(r, p + |EncodeRecord(r)|))
  {
    hide EncodeVarint, EncodeHashes, EncodeTail, ParseCurrent, ParseLegacy, SlotStart, EncodeMarked, RoundOf;
    HasByte(d, p, EncodeRecord(r), 20);
    var counted := EncodeVarint(Varint(|r.hashes|, r.countWidth)) + EncodeHashes(r.hashes);
    match r
    case Current(_, _, _, tail) =>
      HasParts(d, p, r.proposer, counted + EncodeTail(tail));
      ReadsCurrent(d, p + 20, r);
    case Legacy(_, _, _, round) =>
      HasParts(d, p, r.proposer, EncodeMarked(round) + counted);
      ReadsLegacy(d, p + 20, r);
  }

  lemma SlotRound(r: Record, end: nat)
    requires r.Current?
    ensures SlotOf(r, end).header.round == r.tail.Round()
  {
  }

  /** One past the highest timed-out round, or past the parent when nothing timed out. */
  predicate NextRound(timeouts: seq<u32>, qcParent: u32, round: u32) {
    if timeouts == [] then round == (qcParent + 1) % 0x1_0000_0000
    else exists last <- timeouts :: round == (last + 1) % 0x1_0000_0000 && forall x <- timeouts :: x <= last
  }

  lemma RoundIsNext(timeouts: seq<u32>, qcParent: u32)
    ensures NextRound(timeouts, qcParent, RoundOf(timeouts, qcParent))
  {
    if timeouts != [] {
      var last := Largest(timeouts);
      assert last in timeouts;
    }
  }

  /** There is only one such round. */
  lemma NextRoundOnce(timeouts: seq<u32>, qcParent: u32, round: u32)
    requires NextRound(timeouts, qcParent, round)
    ensures round == RoundOf(timeouts, qcParent)
  {
    if timeouts != [] {
      var last :| last in timeouts && round == (last + 1) % 0x1_0000_0000 && forall x <- timeouts :: x <= last;
      assert last == Largest(timeouts);
    }
  }

  /** The parser inverts the encoder, in both layout epochs and whatever follows the slot: proposer,
      hashes, activation and round come back, the round being one past the highest timed-out round,
      or past the parent when nothing timed out. */
  lemma ParserInvertsEncoder(head: seq<Varint>, r: Record, rest: seq<byte>)
    requires |head| == 9 && (forall v <- head :: v.Legal()) && r.Legal()
    ensures var front := [0x00] + EncodeVarints(head);
            ParseSlot(front + EncodeRecord(r) + rest) == Some(SlotOf(r, |front| + |EncodeRecord(r)|))
    ensures r.Current? ==> NextRound(r.tail.timeouts, r.tail.qcParent, SlotOf(r, 0).header.round)
  {
    hide EncodeVarint, EncodeRecord, ParseSlot, SlotOf, EncodeVarints, SkipVarints, NextRound, RoundOf;
    if r.Current? {
      RoundIsNext(r.tail.timeouts, r.tail.qcParent);
      SlotRound(r, 0);
    }
    var tag: seq<byte> := [0x00];
    var vs, b := EncodeVarints(head), EncodeRecord(r);
    var d := tag + vs + b + rest;
    assert d[1..1 + |vs|] == vs;
    SkipsVarints(d, 1, head);
    assert d[1 + |vs|..1 + |vs| + |b|] == b;
    ParsesAt(d, 1 + |vs|, r);
  }
}
