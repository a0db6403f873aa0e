/** The own-record search of `tailed_records` in `src/ordering.rs`, as functions, and what it finds. */
module OrderingSearch {
  import opened Common
  import opened OrderingLayout
  import opened OrderingCodec

  const MIN_TAIL: nat := 20
  const MAX_COUNT: nat := 250

  /** `[fc activation][fc parent]` at `j`, the parent being the slot's round or up to TAIL_TC_MAX below. */
  predicate EndsAt(d: Payload, slot: Slot, j: nat) {
    && ReadMarked(d, j) == Some(slot.activation)
    && ReadMarked(d, j + 5).Some?
    && (slot.header.round - TAIL_TC_MAX) % 0x1_0000_0000 <= ReadMarked(d, j + 5).value <= slot.header.round
  }

  function OwnRound(slot: Slot): u32 {
    (slot.header.round + 1) % 0x1_0000_0000
  }

  /** Where the count byte of a record with `c` hashes stands when its tail is the `t` bytes to `end`. */
  function CountIndex(end: nat, c: nat, t: nat): int {
    end - t - 1 - 32 * c
  }

  /** The structural check: the count byte behind a proposer, a small signer count and a u64 marker,
      and a tail that parses to exactly `end` with the slot's activation and the own round. */
  predicate Hit(d: Payload, slot: Slot, end: nat, c: nat, t: nat) {
    var idx := CountIndex(end, c, t);
    && 30 <= idx && end <= |d|
    && d[idx] == c
    && d[idx - 21] < 0xfb
    && d[idx - 30] == 0xfd
    && ParseTail(d, end - t) == Some(TailRead(slot.activation, OwnRound(slot), end))
  }

  datatype Found = Nothing | Only(idx: nat) | Ambiguous

  predicate Inside(d: Payload, f: Found) {
    f.Only? ==> 30 <= f.idx < |d|
  }

  function Note(f: Found, idx: nat): Found {
    match f
    case Nothing => Only(idx)
    case Only(k) => if k == idx then f else Ambiguous
    case Ambiguous => Ambiguous
  }

  function ScanTails(d: Payload, slot: Slot, end: nat, c: nat, t: nat, f: Found): (r: Found)
    requires Inside(d, f)
    ensures Inside(d, r)
    decreases RECORD_TAIL_MAX + 1 - t
  {
    if t > RECORD_TAIL_MAX || f.Ambiguous? then f
    else ScanTails(d, slot, end, c, t + 1, if Hit(d, slot, end, c, t) then Note(f, CountIndex(end, c, t)) else f)
  }

  function ScanCounts(d: Payload, slot: Slot, end: nat, c: nat, f: Found): (r: Found)
    requires Inside(d, f)
    ensures Inside(d, r)
    decreases MAX_COUNT + 1 - c
  {
    if c > MAX_COUNT || f.Ambiguous? then f
    else ScanCounts(d, slot, end, c + 1, ScanTails(d, slot, end, c, MIN_TAIL, f))
  }

  function ScanEnds(d: Payload, slot: Slot, ends: seq<nat>, f: Found): (r: Found)
    requires Inside(d, f)
    ensures Inside(d, r)
    decreases |ends|
  {
    if ends == [] || f.Ambiguous? then f
    else ScanEnds(d, slot, ends[1..], ScanCounts(d, slot, ends[0], 0, f))
  }

  /** The tail ends at or after `j`, in order. */
  function Ends(d: Payload, slot: Slot, j: nat): seq<nat>
    decreases |d| - j
  {
    if j + 10 > |d| then []
    else (if EndsAt(d, slot, j) then [j + 10] else []) + Ends(d, slot, j + 1)
  }

  function Search(d: Payload, slot: Slot): (f: Found)
    ensures Inside(d, f)
  {
    ScanEnds(d, slot, Ends(d, slot, slot.end), Nothing)
  }

  /** The record whose count byte is at `idx`, unless it has no hashes. */
  function RecordAt(d: Payload, slot: Slot, idx: nat): seq<BlockHeader>
    requires 30 <= idx < |d|
  {
    if d[idx] == 0 then []
    else match ReadHashes(d, idx + 1, d[idx])
         case None => []
         case Some(hashes) => [BlockHeader(d[idx - 20..idx], OwnRound(slot), hashes)]
  }

  function Parent(slot: Slot): seq<BlockHeader> {
    if slot.header.hashes == [] then [] else [slot.header]
  }

  function Tailed(d: Payload, slot: Slot): seq<BlockHeader> {
    Parent(slot) + match Search(d, slot)
                   case Only(idx) => RecordAt(d, slot, idx)
                   case _ => []
  }

  // ---------- what the search finds ----------

  /** `f` says how many indices `s` has: none, one and which, or more than one. */
  ghost predicate Reflects(f: Found, s: iset<nat>) {
    match f
    case Nothing => s == iset{}
    case Only(k) => s == iset{k}
    case Ambiguous => exists i, j :: i in s && j in s && i != j
  }

  ghost function TailHits(d: Payload, slot: Slot, end: nat, c: nat, from: nat): iset<nat> {
    iset t: nat | from <= t <= RECORD_TAIL_MAX && Hit(d, slot, end, c, t) :: CountIndex(end, c, t)
  }

  ghost function CountHits(d: Payload, slot: Slot, end: nat, from: nat): iset<nat> {
    iset c: nat, i: nat | from <= c <= MAX_COUNT && i in TailHits(d, slot, end, c, MIN_TAIL) :: i
  }

  ghost function EndHits(d: Payload, slot: Slot, ends: seq<nat>): iset<nat> {
    iset e: nat, i: nat | e in ends && i in CountHits(d, slot, e, 0) :: i
  }

  lemma NoteReflects(f: Found, s: iset<nat>, idx: nat)
    requires Reflects(f, s)
    ensures Reflects(Note(f, idx), s + iset{idx})
  {
    if f.Only? && f.idx != idx {
      assert f.idx in s + iset{idx} && idx in s + iset{idx};
    }
    if f.Ambiguous? {
      var i, j :| i in s && j in s && i != j;
      assert i in s + iset{idx} && j in s + iset{idx};
    }
    if f.Nothing? {
      assert s + iset{idx} == iset{idx};
    }
  }

  lemma MoreStaysAmbiguous(s: iset<nat>, more: iset<nat>)
    requires Reflects(Ambiguous, s)
    ensures Reflects(Ambiguous, s + more)
  {
    var i, j :| i in s && j in s && i != j;
    assert i in s + more && j in s + more;
  }

  lemma {:induction false} TailsReflect(d: Payload, slot: Slot, end: nat, c: nat, t: nat, f: Found, s: iset<nat>)
    requires Inside(d, f) && Reflects(f, s)
    ensures Reflects(ScanTails(d, slot, end, c, t, f), s + TailHits(d, slot, end, c, t))
    decreases RECORD_TAIL_MAX + 1 - t
  {
    hide Hit, Reflects, CountIndex;
    var hits := TailHits(d, slot, end, c, t);
    if t > RECORD_TAIL_MAX {
      assert s + hits == s;
    } else if f.Ambiguous? {
      MoreStaysAmbiguous(s, hits);
    } else {
      var later := TailHits(d, slot, end, c, t + 1);
      if Hit(d, slot, end, c, t) {
        HitInside(d, slot, end, c, t);
        var idx := CountIndex(end, c, t);
        NoteReflects(f, s, idx);
        TailsReflect(d, slot, end, c, t + 1, Note(f, idx), s + iset{idx});
        assert s + iset{idx} + later == s + hits;
      } else {
        TailsReflect(d, slot, end, c, t + 1, f, s);
        assert later == hits;
      }
    }
  }

  lemma HitInside(d: Payload, slot: Slot, end: nat, c: nat, t: nat)
    requires Hit(d, slot, end, c, t)
    ensures 30 <= CountIndex(end, c, t) < |d|
  {
  }

  lemma {:induction false} CountsReflect(d: Payload, slot: Slot, end: nat, c: nat, f: Found, s: iset<nat>)
    requires Inside(d, f) && Reflects(f, s)
    ensures Reflects(ScanCounts(d, slot, end, c, f), s + CountHits(d, slot, end, c))
    decreases MAX_COUNT + 1 - c
  {
    hide TailHits, Reflects, ScanTails;
    var hits := CountHits(d, slot, end, c);
    if c > MAX_COUNT {
      assert s + hits == s;
    } else if f.Ambiguous? {
      MoreStaysAmbiguous(s, hits);
    } else {
      TailsReflect(d, slot, end, c, MIN_TAIL, f, s);
      var here := TailHits(d, slot, end, c, MIN_TAIL);
      CountsReflect(d, slot, end, c + 1, ScanTails(d, slot, end, c, MIN_TAIL, f), s + here);
      assert s + here + CountHits(d, slot, end, c + 1) == s + hits;
    }
  }

  lemma {:induction false} EndsReflect(d: Payload, slot: Slot, ends: seq<nat>, f: Found, s: iset<nat>)
    requires Inside(d, f) && Reflects(f, s)
    ensures Reflects(ScanEnds(d, slot, ends, f), s + EndHits(d, slot, ends))
    decreases |ends|
  {
    hide CountHits, Reflects, ScanCounts;
    var hits := EndHits(d, slot, ends);
    if ends == [] {
      assert s + hits == s;
    } else if f.Ambiguous? {
      MoreStaysAmbiguous(s, hits);
    } else {
      CountsReflect(d, slot, ends[0], 0, f, s);
      var here := CountHits(d, slot, ends[0], 0);
      EndsReflect(d, slot, ends[1..], ScanCounts(d, slot, ends[0], 0, f), s + here);
      assert s + here + EndHits(d, slot, ends[1..]) == s + hits;
    }
  }

  lemma {:induction false} EndsComplete(d: Payload, slot: Slot, j: nat)
    ensures forall e :: e in Ends(d, slot, j) <==> j + 10 <= e <= |d| && EndsAt(d, slot, e - 10)
    decreases |d| - j
  {
    hide EndsAt;
    if j + 10 <= |d| {
      EndsComplete(d, slot, j + 1);
    }
  }

  /** The count byte of some record that passes the structural check. */
  ghost predicate Candidate(d: Payload, slot: Slot, idx: nat) {
    exists end: nat, c: nat, t: nat :: CandidateBy(d, slot, idx, end, c, t)
  }

  predicate CandidateBy(d: Payload, slot: Slot, idx: nat, end: nat, c: nat, t: nat) {
    && slot.end + 10 <= end <= |d| && EndsAt(d, slot, end - 10)
    && c <= MAX_COUNT && MIN_TAIL <= t <= RECORD_TAIL_MAX
    && Hit(d, slot, end, c, t) && idx == CountIndex(end, c, t)
  }

  /** The structural check at `idx`, byte by byte: a u64 marker, a small signer count, a count byte of at
      most 250, and behind that many hashes a tail of 20 to 69 bytes that carries the slot's activation
      and the next round, ends at or after the slot, and closes with the activation and a parent at most
      TAIL_TC_MAX rounds before the slot's. */
  lemma CandidateIff(d: Payload, slot: Slot, idx: nat)
    ensures Candidate(d, slot, idx)
            <==> && 30 <= idx < |d| && d[idx - 30] == 0xfd && d[idx - 21] < 0xfb && d[idx] <= 250
                 && var at := idx + 1 + 32 * d[idx] as nat;
                    && ParseTail(d, at).Some?
                    && var t := ParseTail(d, at).value;
                       && t.activation == slot.activation && t.round == (slot.header.round + 1) % 0x1_0000_0000
                       && at + 20 <= t.end <= at + 69 && slot.end + 10 <= t.end <= |d|
                       && ReadMarked(d, t.end - 10) == Some(slot.activation)
                       && ReadMarked(d, t.end - 5).Some?
                       && (slot.header.round - 8) % 0x1_0000_0000 <= ReadMarked(d, t.end - 5).value <= slot.header.round
  {
    hide ParseTail, ReadMarked;
    if Candidate(d, slot, idx) {
      var end: nat, c: nat, t: nat :| CandidateBy(d, slot, idx, end, c, t);
      assert d[idx] as nat == c && end - t == idx + 1 + 32 * c;
    }
    if 30 <= idx < |d| && d[idx] <= 250 {
      var c := d[idx] as nat;
      var at := idx + 1 + 32 * c;
      if ParseTail(d, at).Some? && ParseTail(d, at).value.end >= at {
        var end := ParseTail(d, at).value.end;
        assert CandidateBy(d, slot, idx, end, c, end - at) ==> Candidate(d, slot, idx);
      }
    }
  }

  /** On arbitrary bytes: the search settles on an index exactly when it is the only one in the whole
      payload that passes the structural check. */
  lemma SearchIsUniqueCandidate(d: Payload, slot: Slot)
    ensures Search(d, slot) == Nothing <==> forall i :: !Candidate(d, slot, i)
    ensures forall k :: Search(d, slot) == Only(k)
                        <==> Candidate(d, slot, k) && forall i :: Candidate(d, slot, i) ==> i == k
  {
    hide ScanEnds, Ends, EndHits;
    var ends := Ends(d, slot, slot.end);
    EndsReflect(d, slot, ends, Nothing, iset{});
    var hits := EndHits(d, slot, ends);
    assert iset{} + hits == hits;
    HitsAreCandidates(d, slot);
    var f := Search(d, slot);
    assert Reflects(f, hits);
    if f.Only? {
      assert f.idx in hits;
    }
  }

  lemma HitsAreCandidates(d: Payload, slot: Slot)
    ensures forall i :: i in EndHits(d, slot, Ends(d, slot, slot.end)) <==> Candidate(d, slot, i)
  {
    hide Hit, EndsAt, Ends, CountIndex;
    EndsComplete(d, slot, slot.end);
    forall i
      ensures i in EndHits(d, slot, Ends(d, slot, slot.end)) <==> Candidate(d, slot, i)
    {
      if i in EndHits(d, slot, Ends(d, slot, slot.end)) {
        var e :| e in Ends(d, slot, slot.end) && i in CountHits(d, slot, e, 0);
        var c: nat :| c <= MAX_COUNT && i in TailHits(d, slot, e, c, MIN_TAIL);
        var t: nat :| MIN_TAIL <= t <= RECORD_TAIL_MAX && Hit(d, slot, e, c, t) && i == CountIndex(e, c, t);
        assert CandidateBy(d, slot, i, e, c, t);
      }
      if Candidate(d, slot, i) {
        var e: nat, c: nat, t: nat :| CandidateBy(d, slot, i, e, c, t);
        assert i in TailHits(d, slot, e, c, MIN_TAIL);
        assert i in CountHits(d, slot, e, 0);
      }
    }
  }

  // ---------- the whole result ----------

  /** `k` is the only index of the payload that passes the structural check. */
  ghost predicate Sole(d: Payload, slot: Slot, k: nat) {
    Candidate(d, slot, k) && forall i :: Candidate(d, slot, i) ==> i == k
  }

  /** A record of the own round: count byte at `k`, proposer before it, hashes after it. */
  predicate Holds(d: Payload, k: nat) {
    20 <= k < |d| && d[k] != 0 && k + 1 + 32 * d[k] as nat <= |d|
  }

  function OwnAt(d: Payload, slot: Slot, k: nat): BlockHeader
    requires Holds(d, k)
  {
    BlockHeader(d[k - 20..k], OwnRound(slot), Hashes(d, k + 1, d[k] as nat))
  }

  /** A candidate's hashes end before its tail does, so they are there to be read. */
  lemma CandidateReads(d: Payload, slot: Slot, k: nat)
    requires Candidate(d, slot, k)
    ensures 30 <= k < |d| && (d[k] != 0 ==> Holds(d, k))
    ensures RecordAt(d, slot, k) == if d[k] == 0 then [] else [OwnAt(d, slot, k)]
  {
    hide ParseTail, EndsAt, Hashes, OwnRound;
  }

  lemma SoleIsOnly(d: Payload, slot: Slot)
    ensures forall k: nat :: Sole(d, slot, k) <==> Search(d, slot) == Only(k)
  {
    hide Search, Candidate;
    SearchIsUniqueCandidate(d, slot);
  }

  lemma TailedBy(d: Payload, slot: Slot)
    ensures match Search(d, slot)
            case Only(k) => d[k] != 0 ==> Holds(d, k) && Tailed(d, slot) == Parent(slot) + [OwnAt(d, slot, k)]
            case _ => true
    ensures Tailed(d, slot) != Parent(slot) <==> Search(d, slot).Only? && d[Search(d, slot).idx] != 0
  {
    hide Search, Candidate, RecordAt, OwnAt, Parent, Holds;
    SearchIsUniqueCandidate(d, slot);
    var f := Search(d, slot);
    if f.Only? {
      assert f == Only(f.idx) && Candidate(d, slot, f.idx);
      CandidateReads(d, slot, f.idx);
      var own := RecordAt(d, slot, f.idx);
      assert |Tailed(d, slot)| == |Parent(slot)| + |own|;
      assert own == [] ==> Parent(slot) + own == Parent(slot);
    } else {
      var none: seq<BlockHeader> := [];
      assert Tailed(d, slot) == Parent(slot) + none == Parent(slot);
    }
  }

  /** On arbitrary bytes: an own record is returned, and it is the bytes around `k`, exactly when `k`
      is the only index of the payload that passes the structural check and its count is not zero. */
  lemma OwnRecordIff(d: Payload, slot: Slot)
    ensures forall k: nat :: Sole(d, slot, k) && k < |d| && d[k] != 0 ==>
              Holds(d, k) && Tailed(d, slot) == Parent(slot) + [OwnAt(d, slot, k)]
    ensures Tailed(d, slot) != Parent(slot) <==> exists k: nat :: Sole(d, slot, k) && k < |d| && d[k] != 0
  {
    hide Search, Sole, Tailed, OwnAt, Holds, Parent;
    SoleIsOnly(d, slot);
    TailedBy(d, slot);
    var f := Search(d, slot);
    if f.Only? {
      assert f == Only(f.idx);
    }
  }
}
