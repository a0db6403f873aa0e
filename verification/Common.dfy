/** Small types shared by every model in the project. */
module Common {

  datatype Option<+T> = None | Some(value: T) {
    function GetOr(default: T): T {
      match this
      case None => default
      case Some(v) => v
    }
  }

  type byte = b: nat | b < 256
  type u32 = x: nat | x < 0x1_0000_0000

  const MAX_U64: nat := 0xFFFF_FFFF_FFFF_FFFF

  /** `Instant` and wall clock readings are natural numbers; the unit is the one the source uses. */
  type Time = nat

  function Min(a: int, b: int): int {
    if a <= b then a else b
  }

  function Max(a: int, b: int): int {
    if a <= b then b else a
  }

  /** `Instant::saturating_duration_since`: never negative. */
  function Since(now: Time, earlier: Time): nat {
    if now >= earlier then now - earlier else 0
  }

  /** `to_ascii_lowercase`. */
  function Lower(s: string): (r: string)
    ensures |r| == |s|
  {
    seq(|s|, i requires 0 <= i < |s| => if 'A' <= s[i] <= 'Z' then (s[i] as int + 32) as char else s[i])
  }

  predicate Distinct<T(==)>(s: seq<T>) {
    forall i, j :: 0 <= i < j < |s| ==> s[i] != s[j]
  }

  /** The keys of a map, or the members of a set, in the order an iteration visits them. */
  method Listed<K(==, !new)>(s: set<K>) returns (order: seq<K>)
    ensures Distinct(order) && forall k :: k in order <==> k in s
  {
    order := [];
    var rest := s;
    while rest != {}
      invariant rest <= s && Distinct(order)
      invariant forall k :: k in order <==> k in s && k !in rest
      decreases rest
    {
      var k :| k in rest;
      order, rest := order + [k], rest - {k};
    }
  }
}
