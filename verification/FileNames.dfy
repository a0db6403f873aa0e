/** Outbox file names of `src/axiom.rs`: `{order:020}-{id}-{events}.ndjson`, and the two readers that
    recovery relies on. */
module FileNames {
  import opened Common

  const ORDER_DIGITS: nat := 20
  const MAX_EVENTS: nat := 10_000
  const SUFFIX: string := ".ndjson"

  // ---------- decimal text ----------

  predicate IsDigit(c: char) {
    '0' <= c <= '9'
  }

  predicate AllDigits(s: string) {
    forall i :: 0 <= i < |s| ==> IsDigit(s[i])
  }

  function Digit(d: nat): (c: char)
    requires d < 10
    ensures IsDigit(c) && c as int - '0' as int == d
  {
    ('0' as int + d) as char
  }

  function Power(k: nat): nat {
    if k == 0 then 1 else 10 * Power(k - 1)
  }

  /** `n` in exactly `k` digits. */
  function Fixed(n: nat, k: nat): (s: string)
    ensures |s| == k && AllDigits(s)
  {
    if k == 0 then "" else Fixed(n / 10, k - 1) + [Digit(n % 10)]
  }

  /** `n` without leading zeros. */
  function Decimal(n: nat): (s: string)
    ensures s != "" && AllDigits(s)
  {
    if n < 10 then [Digit(n)] else Decimal(n / 10) + [Digit(n % 10)]
  }

  function Value(s: string): nat
    requires AllDigits(s)
    decreases |s|
  {
    if s == "" then 0 else Value(s[..|s| - 1]) * 10 + (s[|s| - 1] as int - '0' as int)
  }

  /** `parse::<u64>`: an optional plus, then digits, not too large. */
  function ParseU64(s: string): Option<nat> {
    var digits := if s != "" && s[0] == '+' then s[1..] else s;
    if digits == "" || !AllDigits(digits) || Value(digits) > MAX_U64 then None else Some(Value(digits))
  }

  lemma {:induction false} FixedValue(n: nat, k: nat)
    requires n < Power(k)
    ensures Value(Fixed(n, k)) == n
    decreases k
  {
    if k > 0 {
      Tenth(n, k);
      FixedValue(n / 10, k - 1);
      var s := Fixed(n, k);
      assert s[..|s| - 1] == Fixed(n / 10, k - 1);
    }
  }

  lemma Tenth(n: nat, k: nat)
    requires k > 0 && n < Power(k)
    ensures n / 10 < Power(k - 1)
  {
    hide *;
    Shift(k);
  }

  lemma Shift(k: nat)
    requires k > 0
    ensures Power(k) == 10 * Power(k - 1)
  {
  }

  lemma {:induction false} DecimalValue(n: nat)
    ensures Value(Decimal(n)) == n
    decreases n
  {
    var s := Decimal(n);
    if n < 10 {
      assert s[..|s| - 1] == "";
      assert Value("") == 0;
    } else {
      DecimalValue(n / 10);
      assert s[..|s| - 1] == Decimal(n / 10);
    }
  }

  lemma DigitsParse(s: string)
    requires s != "" && AllDigits(s)
    ensures ParseU64(s) == if Value(s) > MAX_U64 then None else Some(Value(s))
  {
    assert IsDigit(s[0]) && s[0] != '+';
  }

  // ---------- splitting ----------

  /** The first dash at or after `from`, or the end. */
  function FirstDash(s: string, from: nat): (i: nat)
    requires from <= |s|
    ensures from <= i <= |s|
    ensures forall j :: from <= j < i ==> s[j] != '-'
    ensures i < |s| ==> s[i] == '-'
    decreases |s| - from
  {
    if from == |s| || s[from] == '-' then from else FirstDash(s, from + 1)
  }

  /** One past the last dash, or nothing. */
  function LastDash(s: string): (i: Option<nat>)
    ensures i.Some? ==> i.value < |s| && s[i.value] == '-' && forall j :: i.value < j < |s| ==> s[j] != '-'
    ensures i.None? ==> forall j :: 0 <= j < |s| ==> s[j] != '-'
    decreases |s|
  {
    if s == "" then None
    else if s[|s| - 1] == '-' then Some(|s| - 1)
    else LastDash(s[..|s| - 1])
  }

  // ---------- names ----------

  function Name(order: nat, id: string, events: nat): string {
    Fixed(order, ORDER_DIGITS) + "-" + id + "-" + Decimal(events) + SUFFIX
  }

  /** `order_from_name`. */
  function OrderFromName(name: string): Option<nat> {
    var dash := FirstDash(name, 0);
    if dash == |name| || dash != ORDER_DIGITS then None else ParseU64(name[..dash])
  }

  predicate EndsWithSuffix(name: string) {
    |name| >= |SUFFIX| && name[|name| - |SUFFIX|..] == SUFFIX
  }

  /** `event_count_from_name`. */
  function EventsFromName(name: string): Option<nat> {
    if !EndsWithSuffix(name) then None
    else
      var stem := name[..|name| - |SUFFIX|];
      var dash := LastDash(stem);
      if dash.None? then None
      else
        var count := ParseU64(stem[dash.value + 1..]);
        if count.Some? && 0 < count.value <= MAX_EVENTS then count else None
  }

  lemma OrderFits(order: nat)
    requires order <= MAX_U64
    ensures order < Power(ORDER_DIGITS)
  {
    assert Power(5) == 100_000;
    assert Power(10) == 10_000_000_000;
    assert Power(15) == 1_000_000_000_000_000;
    assert Power(20) == 100_000_000_000_000_000_000;
  }

  lemma {:induction false} DigitsHaveNoDash(s: string)
    requires AllDigits(s)
    ensures '-' !in s
  {
  }

  /** Recovery reads back the ordering key of every name that was written. */
  lemma OrderReadsBack(order: nat, id: string, events: nat)
    requires order <= MAX_U64
    ensures OrderFromName(Name(order, id, events)) == Some(order)
  {
    hide Fixed, Decimal, Value, ParseU64, Power;
    var digits, name := Fixed(order, ORDER_DIGITS), Name(order, id, events);
    DigitsHaveNoDash(digits);
    assert name[..ORDER_DIGITS] == digits;
    assert name[ORDER_DIGITS] == '-';
    forall j | 0 <= j < ORDER_DIGITS
      ensures name[j] != '-'
    {
      assert name[j] == digits[j] && digits[j] in digits;
    }
    assert FirstDash(name, 0) == ORDER_DIGITS;
    OrderFits(order);
    FixedValue(order, ORDER_DIGITS);
    DigitsParse(digits);
  }

  lemma StemOf(order: nat, id: string, events: nat)
    ensures var name := Name(order, id, events);
            EndsWithSuffix(name)
            && name[..|name| - |SUFFIX|] == Fixed(order, ORDER_DIGITS) + "-" + id + "-" + Decimal(events)
  {
    hide Fixed, Decimal;
  }

  lemma {:induction false} LastDashOf(head: string, count: string)
    requires '-' !in count
    ensures LastDash(head + "-" + count) == Some(|head|)
    decreases |count|
  {
    var stem := head + "-" + count;
    if count == "" {
      assert stem[|stem| - 1] == '-';
    } else {
      var n := |count| - 1;
      assert stem[|stem| - 1] == count[n] && count[n] in count;
      assert stem[..|stem| - 1] == head + "-" + count[..n];
      LastDashOf(head, count[..n]);
    }
  }

  /** And its event count, exactly when a batch of that size is allowed. */
  lemma EventsReadBack(order: nat, id: string, events: nat)
    ensures EventsFromName(Name(order, id, events)) == if 0 < events <= MAX_EVENTS then Some(events) else None
  {
    hide Fixed, Decimal, Value, LastDash, Name, EndsWithSuffix, ParseU64;
    StemOf(order, id, events);
    var head, count := Fixed(order, ORDER_DIGITS) + "-" + id, Decimal(events);
    DigitsHaveNoDash(count);
    LastDashOf(head, count);
    assert (head + "-" + count)[|head| + 1..] == count;
    assert head + "-" + count == Fixed(order, ORDER_DIGITS) + "-" + id + "-" + Decimal(events);
    DecimalValue(events);
    DigitsParse(count);
  }

  /** Files with different ordering keys have different names. */
  lemma NamesTellOrdersApart(a: nat, b: nat, id: string, other: string, m: nat, n: nat)
    requires a <= MAX_U64 && b <= MAX_U64 && a != b
    ensures Name(a, id, m) != Name(b, other, n)
  {
    hide Name, OrderFromName;
    OrderReadsBack(a, id, m);
    OrderReadsBack(b, other, n);
  }
}
