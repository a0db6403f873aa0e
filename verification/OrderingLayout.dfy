/** The ordering record layout of `src/ordering.rs`: the parser, as functions of payload and index. */
module OrderingLayout {
  import opened Common

  type Payload = seq<byte>

  const TAIL_TC_MAX: nat := 8
  const RECORD_TAIL_MAX: nat := 5 + 9 + 1 + 5 * TAIL_TC_MAX + 4 + 5 + 5
  const MAX_BUNDLE_HASHES: nat := 1024

  /** Little-endian value. */
  function Le(b: seq<byte>): nat {
    if b == [] then 0 else b[0] as int + 256 * Le(b[1..])
  }

  function Get(d: Payload, i: nat): Option<byte> {
    if i < |d| then Some(d[i]) else None
  }

  /** The `n` bytes at `i`, when they are there. */
  function Field(d: Payload, i: nat, n: nat): (r: Option<seq<byte>>)
    ensures r.Some? ==> |r.value| == n
  {
    if i + n <= |d| then Some(d[i..i + n]) else None
  }

  datatype Read = Read(value: nat, next: nat)

  /** Payload bytes after a varint marker; the marker itself is the value when there are none. */
  function VarintWidth(marker: byte): nat {
    if marker == 0xfb then 2 else if marker == 0xfc then 4 else if marker == 0xfd then 8 else 0
  }

  function ReadVarint(d: Payload, i: nat): (r: Option<Read>)
    ensures r.Some? ==> i < r.value.next <= |d|
  {
    match Get(d, i)
    case None => None
    case Some(m) =>
      if m == 0xfe || m == 0xff then None
      else if m < 0xfb then Some(Read(m, i + 1))
      else match Field(d, i + 1, VarintWidth(m))
           case None => None
           case Some(b) => Some(Read(Le(b), i + 1 + VarintWidth(m)))
  }

  /** `fc` followed by a u32. */
  function ReadMarked(d: Payload, i: nat): (r: Option<u32>)
    ensures r.Some? ==> i + 5 <= |d| && d[i] == 0xfc
  {
    if Get(d, i) != Some(0xfc) then None
    else match Field(d, i + 1, 4)
         case None => None
         case Some(b) => LeBound(b); Some(Le(b))
  }

  lemma LeBound(b: seq<byte>)
    requires |b| == 4
    ensures Le(b) < 0x1_0000_0000
  {
    assert b[1..][1..][1..][1..] == [];
    assert Le(b[1..][1..][1..]) < 256;
    assert Le(b[1..][1..]) < 256 * 256;
    assert Le(b[1..]) < 256 * 256 * 256;
  }

  /** Skip `n` varints. */
  function SkipVarints(d: Payload, i: nat, n: nat): Option<nat>
    decreases n
  {
    if n == 0 then Some(i)
    else match ReadVarint(d, i)
         case None => None
         case Some(r) => SkipVarints(d, r.next, n - 1)
  }

  /** The parent slot's proposer follows the tag, eight u64 varints and the signer count. */
  function SlotStart(d: Payload): Option<nat> {
    if Get(d, 0) != Some(0x00) then None else SkipVarints(d, 1, 9)
  }

  // ---------- the certificate tail ----------

  datatype TailRead = TailRead(activation: u32, round: u32, end: nat)

  /** The timed-out rounds of `n` certificates at `k`. */
  function ReadTimeouts(d: Payload, k: nat, n: nat): (r: Option<seq<u32>>)
    ensures r.Some? ==> |r.value| == n
    decreases n
  {
    if n == 0 then Some([])
    else match ReadMarked(d, k)
         case None => None
         case Some(first) =>
           match ReadTimeouts(d, k + 5, n - 1)
           case None => None
           case Some(more) => Some([first] + more)
  }

  /** A certificate count is a small varint with a marker right behind it. */
  function TimeoutCount(d: Payload, j: nat): (r: Option<Read>)
    ensures r.Some? ==> 1 <= r.value.value <= TAIL_TC_MAX
  {
    match ReadVarint(d, j)
    case None => None
    case Some(r) =>
      if 1 <= r.value <= TAIL_TC_MAX && Get(d, r.next) == Some(0xfc) then Some(r) else None
  }

  /** Small bytes at `j`, at most `room` of them; None when the payload ends first. */
  function SmallsEnd(d: Payload, j: nat, room: nat): (r: Option<nat>)
    ensures r.Some? ==> j <= r.value < |d|
    decreases room
  {
    match Get(d, j)
    case None => None
    case Some(b) => if b < 0xfb && room > 0 then SmallsEnd(d, j + 1, room - 1) else Some(j)
  }

  function Largest(rounds: seq<u32>): (m: u32)
    requires rounds != []
    ensures m in rounds && forall r <- rounds :: r <= m
  {
    if |rounds| == 1 then rounds[0]
    else
      var m := Largest(rounds[1..]);
      assert forall r <- rounds :: r == rounds[0] || r in rounds[1..];
      if rounds[0] >= m then rounds[0] else m
  }

  /** The record's own round: one past the highest timed-out round, else past the parent. */
  function RoundOf(timeouts: seq<u32>, qcParent: u32): u32 {
    ((if timeouts == [] then qcParent else Largest(timeouts)) + 1) % 0x1_0000_0000
  }

  /** From the small bytes on. */
  function TailEnd(d: Payload, j: nat, timeouts: seq<u32>): Option<TailRead> {
    match SmallsEnd(d, j, 4)
    case None => None
    case Some(k) =>
      if k == j then None
      else match (ReadMarked(d, k), ReadMarked(d, k + 5))
           case (Some(activation), Some(qcParent)) =>
             Some(TailRead(activation, RoundOf(timeouts, qcParent), k + 10))
           case _ => None
  }

  function AfterSecond(d: Payload, j: nat): Option<TailRead> {
    match TimeoutCount(d, j)
    case None => TailEnd(d, j, [])
    case Some(r) =>
      match ReadTimeouts(d, r.next, r.value)
      case None => None
      case Some(timeouts) => TailEnd(d, r.next + 5 * r.value, timeouts)
  }

  function ParseTail(d: Payload, at: nat): Option<TailRead> {
    if Get(d, at) != Some(0xfc) then None
    else match ReadVarint(d, at + 5)
         case None => None
         case Some(second) => AfterSecond(d, second.next)
  }

  // ---------- the parent slot ----------

  datatype BlockHeader = BlockHeader(proposer: seq<byte>, round: u32, hashes: seq<seq<byte>>)

  datatype Slot = Slot(header: BlockHeader, legacy: bool, activation: u32, end: nat)

  function Hashes(d: Payload, k: nat, count: nat): (r: seq<seq<byte>>)
    requires k + 32 * count <= |d|
    ensures |r| == count
  {
    seq(count, i requires 0 <= i < count => d[k + 32 * i..k + 32 * i + 32])
  }

  function ReadHashes(d: Payload, k: nat, count: nat): (r: Option<seq<seq<byte>>>)
    ensures r.Some? ==> |r.value| == count && k + 32 * count <= |d|
  {
    if count > MAX_BUNDLE_HASHES || k + 32 * count > |d| then None else Some(Hashes(d, k, count))
  }

  /** A count and that many hashes. */
  function ReadCounted(d: Payload, i: nat): Option<(seq<seq<byte>>, nat)> {
    match ReadVarint(d, i)
    case None => None
    case Some(count) =>
      match ReadHashes(d, count.next, count.value)
      case None => None
      case Some(hashes) => Some((hashes, count.next + 32 * count.value))
  }

  function ParseLegacy(d: Payload, proposer: seq<byte>, i: nat): Option<Slot> {
    match ReadMarked(d, i)
    case None => None
    case Some(round) =>
      match ReadCounted(d, i + 5)
      case None => None
      case Some((hashes, end)) => Some(Slot(BlockHeader(proposer, round, hashes), true, 0, end))
  }

  function ParseCurrent(d: Payload, proposer: seq<byte>, i: nat): Option<Slot> {
    match ReadCounted(d, i)
    case None => None
    case Some((hashes, end)) =>
      match ParseTail(d, end)
      case None => None
      case Some(t) => Some(Slot(BlockHeader(proposer, t.round, hashes), false, t.activation, t.end))
  }

  function ParseSlot(d: Payload): Option<Slot> {
    match SlotStart(d)
    case None => None
    case Some(p) =>
      match Field(d, p, 20)
      case None => None
      case Some(proposer) =>
        match Get(d, p + 20)
        case None => None
        case Some(b) => if b == 0xfc then ParseLegacy(d, proposer, p + 20) else ParseCurrent(d, proposer, p + 20)
  }
}
