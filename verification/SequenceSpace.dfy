/** 32-bit TCP sequence arithmetic (section 3.4 of RFC 9293) against unbounded stream offsets. */
module SequenceSpace {
  import opened Common

  const WORD: int := 0x1_0000_0000
  const HALF: int := 0x8000_0000

  /** `u32::wrapping_add`. */
  function WrappingAdd(a: u32, n: nat): u32 {
    (a + n) % WORD
  }

  /** Signed distance from `b` to `a`: the wrapped difference read as two's complement. */
  function SeqDiff(a: u32, b: u32): (d: int)
    ensures -HALF <= d < HALF
    ensures d == 0 <==> a == b
  {
    var w := if a >= b then a - b else a - b + WORD;  // wrapping_sub
    if w < HALF then w else w - WORD
  }

  /** The sequence number a sender with initial data number `isn` puts on stream offset `off`. */
  function Wire(isn: u32, off: nat): u32 {
    (isn + off) % WORD
  }

  /** Within half the space, wrapped distance is true distance. */
  lemma DiffIsDistance(isn: u32, a: nat, b: nat)
    requires -HALF <= a - b < HALF
    ensures SeqDiff(Wire(isn, a), Wire(isn, b)) == a - b
  {
    var x, y := isn + a, isn + b;
    assert x == WORD * (x / WORD) + x % WORD;
    assert y == WORD * (y / WORD) + y % WORD;
    var q := x / WORD - y / WORD;
    assert x % WORD - y % WORD == (a - b) - WORD * q;
    ModUnique(x % WORD - y % WORD, a - b, -q);
  }

  lemma ModUnique(u: int, d: int, q: int)
    requires u == d + WORD * q
    requires -HALF <= d < HALF
    ensures u % WORD == if d >= 0 then d else d + WORD
  {
    var r := if d >= 0 then d else d + WORD;
    var p := if d >= 0 then q else q - 1;
    assert u == WORD * p + r;
  }

  /** A sequence number and its distance from a known position determine the offset it stands for. */
  lemma DiffLocates(isn: u32, k: u32, pos: nat)
    requires pos + SeqDiff(k, Wire(isn, pos)) >= 0
    ensures Wire(isn, pos + SeqDiff(k, Wire(isn, pos))) == k
  {
    var d := SeqDiff(k, Wire(isn, pos));
    var x := isn + pos;
    assert x == WORD * (x / WORD) + x % WORD;
    var v := k - x % WORD;
    assert v == WORD * (v / WORD) + v % WORD;
    assert exists c :: d == v + WORD * c by {
      if v % WORD < HALF {
        assert d == v + WORD * (-(v / WORD));
      } else {
        assert d == v + WORD * (-(v / WORD) - 1);
      }
    }
    var c :| d == v + WORD * c;
    assert x + d == WORD * (x / WORD + c) + k;
  }

  lemma WireAdvances(isn: u32, pos: nat, n: nat)
    ensures WrappingAdd(Wire(isn, pos), n) == Wire(isn, pos + n)
  {
    var x := isn + pos;
    assert x == WORD * (x / WORD) + x % WORD;
    var y := x % WORD + n;
    assert y == WORD * (y / WORD) + y % WORD;
    assert x + n == WORD * (x / WORD + y / WORD) + y % WORD;
  }

  /** Moving the reference point forward shortens every distance, while the result stays in range. */
  lemma DiffShifts(k: u32, next: u32, n: nat)
    requires -HALF <= SeqDiff(k, next) - n
    ensures SeqDiff(k, WrappingAdd(next, n)) == SeqDiff(k, next) - n
  {
    var d := SeqDiff(k, next);
    var pos := next + WORD;
    assert Wire(0, pos) == next;
    DiffLocates(0, k, pos);
    assert Wire(0, pos + d) == k;
    WireAdvances(0, pos, n);
    DiffIsDistance(0, pos + d, pos + n);
  }
}
