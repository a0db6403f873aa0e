/** The ordering layout as a grammar, and the proof that the parser of `src/ordering.rs` accepts exactly the
    payloads of that grammar, bytes that no encoder would write included. */
module OrderingGrammar {
  import opened Common
  import opened OrderingLayout
  import opened OrderingCodec

  // ---------- the grammar ----------

  /** A certificate tail as it stands in a payload: with a count and that many timed-out rounds, or, where
      what might be a count has no marker behind it, with small bytes alone. */
  datatype TailText =
    | Certified(first: u32, second: Varint, count: Varint, timeouts: seq<u32>, smalls: seq<byte>, activation: u32,
                qcParent: u32)
    | Plain(first: u32, second: Varint, smalls: seq<byte>, activation: u32, qcParent: u32)
  {
    predicate Legal() {
      && second.Legal() && 1 <= |smalls| <= 4 && (forall b <- smalls :: b < 0xfb)
      && match this
         case Certified(_, _, count, timeouts, _, _, _) =>
           count.Legal() && 1 <= count.value <= TAIL_TC_MAX && |timeouts| == count.value
         case Plain(_, _, smalls, _, _) => |smalls| == 1 ==> !(1 <= smalls[0] <= TAIL_TC_MAX)
    }

    function Timeouts(): seq<u32> {
      if Certified? then timeouts else []
    }
  }

  function Counted(w: TailText): seq<byte>
    requires w.Legal()
  {
    if w.Certified? then EncodeVarint(w.count) + EncodeTimeouts(w.timeouts) else []
  }

  function Closing(w: TailText): seq<byte> {
    w.smalls + (EncodeMarked(w.activation) + EncodeMarked(w.qcParent))
  }

  function TextOfTail(w: TailText): seq<byte>
    requires w.Legal()
  {
    EncodeMarked(w.first) + (EncodeVarint(w.second) + (Counted(w) + Closing(w)))
  }

  /** What the tail says: its activation, its round, and where it ends. */
  predicate SaysTail(w: TailText, at: nat, t: TailRead)
    requires w.Legal()
  {
    && t.activation == w.activation && NextRound(w.Timeouts(), w.qcParent, t.round)
    && t.end == at + |TextOfTail(w)|
  }

  datatype SlotText =
    | Current(proposer: seq<byte>, count: Varint, hashes: seq<seq<byte>>, tail: TailText)
    | Legacy(proposer: seq<byte>, round: u32, count: Varint, hashes: seq<seq<byte>>)
  {
    predicate Legal() {
      && |proposer| == 20 && LegalHashes(hashes) && count.Legal() && count.value == |hashes|
      && (Current? ==> count.width != 4 && tail.Legal())
    }
  }

  function TextOfSlot(s: SlotText): (b: seq<byte>)
    requires s.Legal()
  {
    var listed := EncodeVarint(s.count) + EncodeHashes(s.hashes);
    match s
    case Current(proposer, _, _, tail) => proposer + (listed + TextOfTail(tail))
    case Legacy(proposer, round, _, _) => proposer + (EncodeMarked(round) + listed)
  }

  /** What a slot that starts at `at` says. */
  predicate SaysSlot(s: SlotText, at: nat, slot: Slot)
    requires s.Legal()
  {
    && slot.header.proposer == s.proposer && slot.header.hashes == s.hashes
    && slot.end == at + |TextOfSlot(s)| && slot.legacy == s.Legacy?
    && match s
       case Current(_, _, _, tail) =>
         SaysTail(tail, slot.end - |TextOfTail(tail)|, TailRead(slot.activation, slot.header.round, slot.end))
       case Legacy(_, round, _, _) => slot.header.round == round && slot.activation == 0
  }

  // ---------- integers ----------

  lemma {:induction false} LeBelow(b: seq<byte>)
    ensures Le(b) < Limit(|b|)
    decreases |b|
  {
    if b != [] {
      LeBelow(b[1..]);
    }
  }

  lemma {:induction false} EncodesLe(b: seq<byte>)
    ensures EncodeLe(Le(b), |b|) == b
    decreases |b|
  {
    if b != [] {
      EncodesLe(b[1..]);
      assert Le(b) % 256 == b[0] as int && Le(b) / 256 == Le(b[1..]);
      assert b == [b[0]] + b[1..];
    }
  }

  lemma HasBoth(d: Payload, i: nat, a: seq<byte>, b: seq<byte>)
    requires Has(d, i, a) && Has(d, i + |a|, b)
    ensures Has(d, i, a + b)
  {
    assert d[i..i + |a + b|] == d[i..i + |a|] + d[i + |a|..i + |a| + |b|];
  }

  lemma MarkedText(d: Payload, i: nat)
    requires ReadMarked(d, i).Some?
    ensures Has(d, i, EncodeMarked(ReadMarked(d, i).value))
  {
    var b := d[i + 1..i + 5];
    EncodesLe(b);
    assert d[i..i + 5] == [0xfc] + b;
  }

  /** A marker byte and the bytes it announces are a varint. */
  lemma WideText(d: Payload, i: nat, v: Varint)
    requires (v.width == 2 || v.width == 4 || v.width == 8) && i + 1 + v.width <= |d|
    requires d[i] == if v.width == 2 then 0xfb else if v.width == 4 then 0xfc else 0xfd
    requires v.value == Le(d[i + 1..i + 1 + v.width])
    ensures v.Legal() && Has(d, i, EncodeVarint(v))
  {
    var b := d[i + 1..i + 1 + v.width];
    LeBelow(b);
    EncodesLe(b);
    Limits();
    assert d[i..i + 1 + v.width] == [d[i]] + b;
  }

  lemma VarintText(d: Payload, i: nat) returns (v: Varint)
    requires ReadVarint(d, i).Some?
    ensures v.Legal() && Has(d, i, EncodeVarint(v))
    ensures ReadVarint(d, i) == Some(Read(v.value, i + 1 + v.width))
    ensures d[i] == 0xfc <==> v.width == 4
  {
    hide Has;
    var width := VarintWidth(d[i]);
    v := Varint(ReadVarint(d, i).value.value, width);
    if width != 0 {
      WideText(d, i, v);
    } else {
      OneByteText(d, i, v);
    }
  }

  lemma OneByteText(d: Payload, i: nat, v: Varint)
    requires i < |d| && v.width == 0 && v.value == d[i] as int && d[i] < 0xfb
    ensures Has(d, i, EncodeVarint(v))
  {
    assert d[i..i + 1] == [d[i]];
  }

  // ---------- the tail ----------

  lemma {:induction false} TimeoutsText(d: Payload, k: nat, n: nat)
    requires ReadTimeouts(d, k, n).Some? && k <= |d|
    ensures Has(d, k, EncodeTimeouts(ReadTimeouts(d, k, n).value))
    decreases n
  {
    hide ReadMarked, EncodeMarked, Has;
    var ts := ReadTimeouts(d, k, n).value;
    if n == 0 {
      NothingStands(d, k);
    } else {
      MarkedText(d, k);
      TimeoutsText(d, k + 5, n - 1);
      assert ts == [ts[0]] + ts[1..];
      HasBoth(d, k, EncodeMarked(ts[0]), EncodeTimeouts(ts[1..]));
    }
  }

  lemma NothingStands(d: Payload, k: nat)
    requires k <= |d|
    ensures Has(d, k, [])
  {
  }

  lemma {:induction false} SmallsText(d: Payload, j: nat, room: nat)
    requires SmallsEnd(d, j, room).Some?
    ensures var k := SmallsEnd(d, j, room).value; k - j <= room && forall b <- d[j..k] :: b < 0xfb
    decreases room
  {
    if d[j] < 0xfb && room > 0 {
      SmallsText(d, j + 1, room - 1);
      var k := SmallsEnd(d, j, room).value;
      assert d[j..k] == [d[j]] + d[j + 1..k];
    }
  }

  lemma ClosingText(d: Payload, j: nat, timeouts: seq<u32>) returns (smalls: seq<byte>, activation: u32, qcParent: u32)
    requires TailEnd(d, j, timeouts).Some?
    ensures 1 <= |smalls| <= 4 && forall b <- smalls :: b < 0xfb
    ensures Has(d, j, smalls + (EncodeMarked(activation) + EncodeMarked(qcParent)))
    ensures TailEnd(d, j, timeouts)
            == Some(TailRead(activation, RoundOf(timeouts, qcParent), j + |smalls| + 10))
  {
    hide ReadMarked, EncodeMarked, RoundOf, Has;
    var k := SmallsEnd(d, j, 4).value;
    SmallsText(d, j, 4);
    smalls := d[j..k];
    activation, qcParent := ReadMarked(d, k).value, ReadMarked(d, k + 5).value;
    MarkedText(d, k);
    MarkedText(d, k + 5);
    HasBoth(d, k, EncodeMarked(activation), EncodeMarked(qcParent));
    Stands(d, j, k);
    HasBoth(d, j, smalls, EncodeMarked(activation) + EncodeMarked(qcParent));
  }

  lemma Stands(d: Payload, j: nat, k: nat)
    requires j <= k <= |d|
    ensures Has(d, j, d[j..k])
  {
  }

  /** What follows the second field of a tail. */
  lemma BehindText(d: Payload, j: nat, first: u32, second: Varint) returns (w: TailText)
    requires AfterSecond(d, j).Some? && second.Legal()
    ensures w.Legal() && w.first == first && w.second == second && Has(d, j, Counted(w) + Closing(w))
    ensures AfterSecond(d, j)
            == Some(TailRead(w.activation, RoundOf(w.Timeouts(), w.qcParent), j + |Counted(w)| + |Closing(w)|))
  {
    hide ReadMarked, EncodeMarked, EncodeVarint, RoundOf, Has, TailEnd, ReadVarint, ReadTimeouts;
    if TimeoutCount(d, j).None? {
      var smalls, activation, qcParent := ClosingText(d, j, []);
      w := Plain(first, second, smalls, activation, qcParent);
      assert smalls[0] in smalls;
      NotACount(d, j, smalls, activation, qcParent);
      assert Counted(w) + Closing(w) == Closing(w);
    } else {
      var count := VarintText(d, j);
      var k := j + 1 + count.width;
      var timeouts := ReadTimeouts(d, k, count.value).value;
      TimeoutsText(d, k, count.value);
      var smalls, activation, qcParent := ClosingText(d, k + 5 * count.value, timeouts);
      w := Certified(first, second, count, timeouts, smalls, activation, qcParent);
      HasBoth(d, j, EncodeVarint(count), EncodeTimeouts(timeouts));
      HasBoth(d, j, Counted(w), Closing(w));
    }
  }

  lemma NotACount(d: Payload, j: nat, smalls: seq<byte>, activation: u32, qcParent: u32)
    requires |smalls| >= 1 && forall b <- smalls :: b < 0xfb
    requires Has(d, j, smalls + (EncodeMarked(activation) + EncodeMarked(qcParent)))
    ensures TimeoutCount(d, j).None? <==> |smalls| != 1 || !(1 <= smalls[0] <= TAIL_TC_MAX)
  {
    var b := smalls + (EncodeMarked(activation) + EncodeMarked(qcParent));
    HasByte(d, j, b, 0);
    HasByte(d, j, b, 1);
    assert smalls[0] in smalls && (|smalls| > 1 ==> smalls[1] in smalls);
  }

  /** What the parser reads as a tail is one. */
  lemma TailStands(d: Payload, at: nat) returns (w: TailText)
    requires ParseTail(d, at).Some?
    ensures w.Legal() && Has(d, at, TextOfTail(w)) && SaysTail(w, at, ParseTail(d, at).value)
  {
    hide EncodeMarked, EncodeVarint, RoundOf, Has, ReadVarint, AfterSecond, NextRound, Counted, Closing;
    var first := FirstField(d, at);
    var second := VarintText(d, at + 5);
    w := BehindText(d, at + 6 + second.width, first, second);
    RoundIsNext(w.Timeouts(), w.qcParent);
    HasBoth(d, at + 5, EncodeVarint(second), Counted(w) + Closing(w));
    HasBoth(d, at, EncodeMarked(first), EncodeVarint(second) + (Counted(w) + Closing(w)));
  }

  lemma FirstField(d: Payload, at: nat) returns (first: u32)
    requires Get(d, at) == Some(0xfc) && at + 5 < |d|
    ensures Has(d, at, EncodeMarked(first))
  {
    first := ReadMarked(d, at).value;
    MarkedText(d, at);
  }

  /** What follows the second field of a tail that stands in a payload is read as such. */
  lemma BehindReads(d: Payload, j: nat, w: TailText)
    requires w.Legal() && Has(d, j, Counted(w) + Closing(w))
    ensures AfterSecond(d, j)
            == Some(TailRead(w.activation, RoundOf(w.Timeouts(), w.qcParent), j + |Counted(w)| + |Closing(w)|))
  {
    hide EncodeMarked, EncodeVarint, EncodeTimeouts, RoundOf, Has, TailEnd, ReadVarint, ReadTimeouts, AfterSecond;
    HasParts(d, j, Counted(w), Closing(w));
    match w
    case Plain(_, _, smalls, activation, qcParent) =>
      NotACount(d, j, smalls, activation, qcParent);
      ReadsTailEnd(d, j, [], smalls, activation, qcParent);
      PlainBehind(d, j);
    case Certified(_, _, count, timeouts, smalls, activation, qcParent) =>
      var k := j + 1 + count.width;
      HasParts(d, j, EncodeVarint(count), EncodeTimeouts(timeouts));
      ReadsVarint(d, j, count);
      TimeoutsStart(d, k, timeouts);
      ReadsTimeouts(d, k, timeouts);
      ReadsTailEnd(d, k + 5 * |timeouts|, timeouts, smalls, activation, qcParent);
      CertifiedBehind(d, j, count, timeouts);
  }

  lemma PlainBehind(d: Payload, j: nat)
    requires TimeoutCount(d, j).None?
    ensures AfterSecond(d, j) == TailEnd(d, j, [])
  {
    hide TailEnd;
  }

  lemma CertifiedBehind(d: Payload, j: nat, count: Varint, timeouts: seq<u32>)
    requires ReadVarint(d, j) == Some(Read(count.value, j + 1 + count.width))
    requires 1 <= count.value <= TAIL_TC_MAX && Get(d, j + 1 + count.width) == Some(0xfc)
    requires ReadTimeouts(d, j + 1 + count.width, count.value) == Some(timeouts)
    ensures AfterSecond(d, j) == TailEnd(d, j + 1 + count.width + 5 * count.value, timeouts)
  {
    hide TailEnd, ReadTimeouts, ReadVarint;
  }

  /** And the parser reads every tail that stands in a payload. */
  lemma TailTextReads(d: Payload, at: nat, w: TailText)
    requires w.Legal() && Has(d, at, TextOfTail(w))
    ensures ParseTail(d, at)
            == Some(TailRead(w.activation, RoundOf(w.Timeouts(), w.qcParent), at + |TextOfTail(w)|))
  {
    hide EncodeVarint, RoundOf, AfterSecond, ReadVarint, EncodeLe, Counted, Closing;
    var behind := Counted(w) + Closing(w);
    HasByte(d, at, TextOfTail(w), 0);
    HasParts(d, at, EncodeMarked(w.first), EncodeVarint(w.second) + behind);
    HasParts(d, at + 5, EncodeVarint(w.second), behind);
    ReadsVarint(d, at + 5, w.second);
    BehindReads(d, at + 6 + w.second.width, w);
  }

  /** The tail parser accepts exactly the tails of the layout, and says of each what it says. */
  lemma TailIff(d: Payload, at: nat, t: TailRead)
    ensures ParseTail(d, at) == Some(t)
            <==> exists w: TailText :: w.Legal() && Has(d, at, TextOfTail(w)) && SaysTail(w, at, t)
  {
    hide ParseTail, TextOfTail, Has, NextRound, RoundOf, TailText.Legal;
    if ParseTail(d, at) == Some(t) {
      var w := TailStands(d, at);
    }
    forall w: TailText | w.Legal() && Has(d, at, TextOfTail(w)) && SaysTail(w, at, t)
      ensures ParseTail(d, at) == Some(t)
    {
      TailTextReads(d, at, w);
      NextRoundOnce(w.Timeouts(), w.qcParent, t.round);
    }
  }

  // ---------- the slot ----------

  lemma {:induction false} HashesText(d: Payload, k: nat, n: nat)
    requires k + 32 * n <= |d|
    ensures (forall h <- Hashes(d, k, n) :: |h| == 32) && Has(d, k, EncodeHashes(Hashes(d, k, n)))
    decreases n
  {
    hide Hashes, Has;
    if n == 0 {
      NothingStands(d, k);
    } else {
      HashesSplit(d, k, n);
      HashesText(d, k + 32, n - 1);
      Stands(d, k, k + 32);
      HasBoth(d, k, d[k..k + 32], EncodeHashes(Hashes(d, k + 32, n - 1)));
      assert Hashes(d, k, n)[1..] == Hashes(d, k + 32, n - 1);
    }
  }

  /** A count and that many hashes. */
  lemma CountedText(d: Payload, i: nat) returns (count: Varint, hashes: seq<seq<byte>>)
    requires ReadCounted(d, i).Some?
    ensures count.Legal() && LegalHashes(hashes) && count.value == |hashes|
    ensures Has(d, i, EncodeVarint(count) + EncodeHashes(hashes))
    ensures ReadCounted(d, i) == Some((hashes, i + 1 + count.width + 32 * |hashes|))
    ensures d[i] == 0xfc <==> count.width == 4
  {
    hide EncodeVarint, EncodeHashes, Has, ReadVarint, Hashes, Le;
    count := VarintText(d, i);
    var k := i + 1 + count.width;
    hashes := Hashes(d, k, count.value);
    HashesText(d, k, count.value);
    HasBoth(d, i, EncodeVarint(count), EncodeHashes(hashes));
  }

  lemma CountedReads(d: Payload, i: nat, count: Varint, hashes: seq<seq<byte>>)
    requires count.Legal() && LegalHashes(hashes) && count.value == |hashes|
    requires Has(d, i, EncodeVarint(count) + EncodeHashes(hashes))
    ensures ReadCounted(d, i) == Some((hashes, i + 1 + count.width + 32 * |hashes|))
    ensures d[i] == 0xfc <==> count.width == 4
  {
    hide *;
    AreHashes(hashes);
    assert count == Varint(|hashes|, count.width);
    ReadsCounted(d, i, hashes, count.width);
  }

  /** The head: nine varints behind the tag. */
  lemma {:induction false} VarintsText(d: Payload, i: nat, n: nat) returns (vs: seq<Varint>)
    requires SkipVarints(d, i, n).Some? && i <= |d|
    ensures |vs| == n && forall v <- vs :: v.Legal()
    ensures Has(d, i, EncodeVarints(vs)) && SkipVarints(d, i, n) == Some(i + |EncodeVarints(vs)|)
    decreases n
  {
    hide EncodeVarint, Has, ReadVarint;
    if n == 0 {
      vs := [];
      NothingStands(d, i);
    } else {
      var v := VarintText(d, i);
      var more := VarintsText(d, i + 1 + v.width, n - 1);
      vs := [v] + more;
      HasBoth(d, i, EncodeVarint(v), EncodeVarints(more));
    }
  }

  function Listed(s: SlotText): seq<byte>
    requires s.Legal()
  {
    EncodeVarint(s.count) + EncodeHashes(s.hashes)
  }

  lemma CurrentStands(d: Payload, proposer: seq<byte>, i: nat) returns (s: SlotText)
    requires ParseCurrent(d, proposer, i).Some? && |proposer| == 20 && i < |d| && d[i] != 0xfc
    ensures s.Current? && s.Legal() && s.proposer == proposer
    ensures Has(d, i, Listed(s) + TextOfTail(s.tail))
    ensures var slot := ParseCurrent(d, proposer, i).value;
            && slot.header.proposer == proposer && slot.header.hashes == s.hashes && !slot.legacy
            && slot.end == i + |Listed(s)| + |TextOfTail(s.tail)|
            && SaysTail(s.tail, i + |Listed(s)|, TailRead(slot.activation, slot.header.round, slot.end))
  {
    hide EncodeVarint, EncodeHashes, Has, ReadCounted, ParseTail, TextOfTail, NextRound, TailText.Legal;
    var count, hashes := CountedText(d, i);
    var end := i + 1 + count.width + 32 * |hashes|;
    var tail := TailStands(d, end);
    s := SlotText.Current(proposer, count, hashes, tail);
    HasBoth(d, i, EncodeVarint(count) + EncodeHashes(hashes), TextOfTail(tail));
  }

  lemma CurrentReads(d: Payload, i: nat, s: SlotText)
    requires s.Current? && s.Legal() && Has(d, i, Listed(s) + TextOfTail(s.tail))
    ensures i < |d| && d[i] != 0xfc
    ensures ParseCurrent(d, s.proposer, i)
            == Some(Slot(BlockHeader(s.proposer, RoundOf(s.tail.Timeouts(), s.tail.qcParent), s.hashes), false,
                         s.tail.activation, i + |Listed(s)| + |TextOfTail(s.tail)|))
  {
    hide EncodeVarint, EncodeHashes, Has, ReadCounted, ParseTail, TextOfTail, RoundOf, TailText.Legal;
    HasParts(d, i, Listed(s), TextOfTail(s.tail));
    HasByte(d, i, Listed(s), 0);
    CountedReads(d, i, s.count, s.hashes);
    TailTextReads(d, i + |Listed(s)|, s.tail);
  }

  lemma LegacyStands(d: Payload, proposer: seq<byte>, i: nat) returns (s: SlotText)
    requires ParseLegacy(d, proposer, i).Some? && |proposer| == 20
    ensures s.Legacy? && s.Legal() && s.proposer == proposer && Has(d, i, EncodeMarked(s.round) + Listed(s))
    ensures ParseLegacy(d, proposer, i)
            == Some(Slot(BlockHeader(proposer, s.round, s.hashes), true, 0, i + 5 + |Listed(s)|))
  {
    hide EncodeVarint, EncodeHashes, EncodeMarked, Has, ReadCounted, ReadMarked;
    MarkedText(d, i);
    var count, hashes := CountedText(d, i + 5);
    s := SlotText.Legacy(proposer, ReadMarked(d, i).value, count, hashes);
    HasBoth(d, i, EncodeMarked(s.round), EncodeVarint(count) + EncodeHashes(hashes));
  }

  lemma LegacyReads(d: Payload, i: nat, s: SlotText)
    requires s.Legacy? && s.Legal() && Has(d, i, EncodeMarked(s.round) + Listed(s))
    ensures i < |d| && d[i] == 0xfc
    ensures ParseLegacy(d, s.proposer, i)
            == Some(Slot(BlockHeader(s.proposer, s.round, s.hashes), true, 0, i + 5 + |Listed(s)|))
  {
    hide EncodeVarint, EncodeHashes, ReadCounted;
    HasParts(d, i, EncodeMarked(s.round), Listed(s));
    HasByte(d, i, EncodeMarked(s.round), 0);
    ReadsMarked(d, i, s.round);
    CountedReads(d, i + 5, s.count, s.hashes);
  }

  lemma SlotParts(s: SlotText)
    requires s.Legal()
    ensures TextOfSlot(s)
            == s.proposer + (if s.Current? then Listed(s) + TextOfTail(s.tail) else EncodeMarked(s.round) + Listed(s))
  {
  }

  /** The slot at `p` is of the old epoch. */
  predicate OldEpoch(d: Payload, p: nat) {
    Get(d, p + 20) == Some(0xfc)
  }

  /** The record at `p`, in either epoch. */
  function ParseAt(d: Payload, p: nat): Option<Slot> {
    if Field(d, p, 20).None? || Get(d, p + 20).None? then None
    else if d[p + 20] == 0xfc then ParseLegacy(d, d[p..p + 20], p + 20)
    else ParseCurrent(d, d[p..p + 20], p + 20)
  }

  lemma ParseSlotIs(d: Payload)
    ensures ParseSlot(d) == if SlotStart(d).None? then None else ParseAt(d, SlotStart(d).value)
  {
    hide ParseCurrent, ParseLegacy, SkipVarints;
  }

  lemma CurrentSays(s: SlotText, p: nat, slot: Slot)
    requires s.Current? && s.Legal() && slot.header.proposer == s.proposer && slot.header.hashes == s.hashes
    requires !slot.legacy && slot.end == p + 20 + |Listed(s)| + |TextOfTail(s.tail)|
    requires SaysTail(s.tail, p + 20 + |Listed(s)|, TailRead(slot.activation, slot.header.round, slot.end))
    ensures SaysSlot(s, p, slot)
  {
    hide SaysTail, TextOfTail, Listed, LegalHashes, Varint.Legal, TailText.Legal, TextOfSlot;
    SlotParts(s);
  }

  lemma CurrentAt(d: Payload, p: nat) returns (s: SlotText)
    requires ParseAt(d, p).Some? && !OldEpoch(d, p)
    ensures s.Legal() && Has(d, p, TextOfSlot(s)) && SaysSlot(s, p, ParseAt(d, p).value)
  {
    hide EncodeMarked, Has, ParseCurrent, TextOfTail, TextOfSlot, SaysTail, SaysSlot, Listed, LegalHashes, Varint.Legal,
      TailText.Legal;
    var proposer := d[p..p + 20];
    Stands(d, p, p + 20);
    s := CurrentStands(d, proposer, p + 20);
    SlotParts(s);
    HasBoth(d, p, proposer, Listed(s) + TextOfTail(s.tail));
    CurrentSays(s, p, ParseAt(d, p).value);
  }

  lemma LegacyAt(d: Payload, p: nat) returns (s: SlotText)
    requires ParseAt(d, p).Some? && OldEpoch(d, p)
    ensures s.Legal() && Has(d, p, TextOfSlot(s)) && SaysSlot(s, p, ParseAt(d, p).value)
  {
    hide Has, ParseLegacy, Listed;
    var proposer := d[p..p + 20];
    Stands(d, p, p + 20);
    s := LegacyStands(d, proposer, p + 20);
    SlotParts(s);
    HasBoth(d, p, proposer, EncodeMarked(s.round) + Listed(s));
  }

  lemma CurrentTextReads(d: Payload, p: nat, s: SlotText, slot: Slot)
    requires s.Legal() && s.Current? && Has(d, p, TextOfSlot(s)) && SaysSlot(s, p, slot)
    ensures ParseAt(d, p) == Some(slot)
  {
    hide EncodeMarked, Has, ParseCurrent, TextOfTail, TextOfSlot, Listed, NextRound, RoundOf, SaysSlot, LegalHashes,
      Varint.Legal, TailText.Legal;
    SlotParts(s);
    HasParts(d, p, s.proposer, Listed(s) + TextOfTail(s.tail));
    CurrentReads(d, p + 20, s);
    CurrentIs(s, p, slot);
    FieldIs(d, p, s.proposer);
  }

  lemma CurrentIs(s: SlotText, p: nat, slot: Slot)
    requires s.Legal() && s.Current? && SaysSlot(s, p, slot)
    ensures slot == Slot(BlockHeader(s.proposer, RoundOf(s.tail.Timeouts(), s.tail.qcParent), s.hashes), false,
                         s.tail.activation, p + 20 + |Listed(s)| + |TextOfTail(s.tail)|)
  {
    hide TextOfTail, TextOfSlot, Listed, NextRound, RoundOf, LegalHashes, Varint.Legal, TailText.Legal;
    SlotParts(s);
    NextRoundOnce(s.tail.Timeouts(), s.tail.qcParent, slot.header.round);
  }

  lemma LegacyTextReads(d: Payload, p: nat, s: SlotText, slot: Slot)
    requires s.Legal() && s.Legacy? && Has(d, p, TextOfSlot(s)) && SaysSlot(s, p, slot)
    ensures ParseAt(d, p) == Some(slot)
  {
    hide EncodeMarked, Has, ParseLegacy, TextOfSlot, Listed, SaysSlot, LegalHashes, Varint.Legal;
    SlotParts(s);
    HasParts(d, p, s.proposer, EncodeMarked(s.round) + Listed(s));
    LegacyReads(d, p + 20, s);
    LegacyIs(s, p, slot);
    FieldIs(d, p, s.proposer);
  }

  lemma LegacyIs(s: SlotText, p: nat, slot: Slot)
    requires s.Legal() && s.Legacy? && SaysSlot(s, p, slot)
    ensures slot == Slot(BlockHeader(s.proposer, s.round, s.hashes), true, 0, p + 25 + |Listed(s)|)
  {
    hide Listed, TextOfSlot, LegalHashes, Varint.Legal, EncodeMarked;
    SlotParts(s);
  }

  lemma FieldIs(d: Payload, p: nat, b: seq<byte>)
    requires Has(d, p, b)
    ensures Field(d, p, |b|) == Some(b) && p + |b| <= |d|
  {
  }

  /** The tag, nine varints and the slot stand at the beginning of the payload, and the slot says `slot`. */
  predicate BeginsWith(d: Payload, head: seq<Varint>, s: SlotText, slot: Slot) {
    && |head| == 9 && (forall v <- head :: v.Legal()) && s.Legal()
    && Has(d, 0, [0x00] + (EncodeVarints(head) + TextOfSlot(s)))
    && SaysSlot(s, 1 + |EncodeVarints(head)|, slot)
  }

  lemma SlotStands(d: Payload) returns (head: seq<Varint>, s: SlotText)
    requires ParseSlot(d).Some?
    ensures BeginsWith(d, head, s, ParseSlot(d).value)
  {
    hide EncodeVarints, Has, ParseSlot, ParseAt, SkipVarints, TextOfSlot, SaysSlot, SlotText.Legal;
    ParseSlotIs(d);
    head := VarintsText(d, 1, 9);
    var p := SlotStart(d).value;
    if OldEpoch(d, p) {
      s := LegacyAt(d, p);
    } else {
      s := CurrentAt(d, p);
    }
    HasBoth(d, 1, EncodeVarints(head), TextOfSlot(s));
    TagStands(d);
    HasBoth(d, 0, [0x00], EncodeVarints(head) + TextOfSlot(s));
  }

  lemma TagStands(d: Payload)
    requires Get(d, 0) == Some(0x00)
    ensures Has(d, 0, [0x00])
  {
    assert d[0..1] == [0x00];
  }

  lemma SlotTextReads(d: Payload, head: seq<Varint>, s: SlotText, slot: Slot)
    requires BeginsWith(d, head, s, slot)
    ensures ParseSlot(d) == Some(slot)
  {
    hide EncodeVarints, Has, ParseSlot, ParseAt, SkipVarints, TextOfSlot, SaysSlot, SlotText.Legal;
    ParseSlotIs(d);
    HasParts(d, 0, [0x00], EncodeVarints(head) + TextOfSlot(s));
    HasByte(d, 0, [0x00], 0);
    HasParts(d, 1, EncodeVarints(head), TextOfSlot(s));
    SkipsVarints(d, 1, head);
    if s.Current? {
      CurrentTextReads(d, 1 + |EncodeVarints(head)|, s, slot);
    } else {
      LegacyTextReads(d, 1 + |EncodeVarints(head)|, s, slot);
    }
  }

  /** The slot parser accepts exactly the payloads that begin with a slot of the layout, in either epoch, and
      says of each what it says. */
  lemma SlotIff(d: Payload, slot: Slot)
    ensures ParseSlot(d) == Some(slot) <==> exists head, s: SlotText :: BeginsWith(d, head, s, slot)
  {
    hide ParseSlot, BeginsWith;
    if ParseSlot(d) == Some(slot) {
      var head, s := SlotStands(d);
    }
    forall head, s: SlotText | BeginsWith(d, head, s, slot)
      ensures ParseSlot(d) == Some(slot)
    {
      SlotTextReads(d, head, s, slot);
    }
  }
}
