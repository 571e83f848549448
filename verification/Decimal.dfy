/** Decimal text of integers.

    What `String(n)`, `strconv.FormatInt` and `strconv.ParseInt` do, and that a 64-bit integer comes back from its
    text. */
module Decimal {
  import opened Sequences

  predicate IsDigit(c: char) {
    '0' <= c <= '9'
  }

  function DigitOf(d: nat): (c: char)
    requires d < 10
    ensures IsDigit(c) && DigitValue(c) == d
  {
    ('0' as int + d) as char
  }

  function DigitValue(c: char): nat
    requires IsDigit(c)
  {
    c as int - '0' as int
  }

  function FormatNat(n: nat): (s: string)
    ensures s != [] && (forall c <- s :: IsDigit(c))
  {
    if n < 10 then [DigitOf(n)] else FormatNat(n / 10) + [DigitOf(n % 10)]
  }

  function FormatInt(n: int): (s: string)
    ensures s != [] && (forall c <- s :: IsDigit(c) || c == '-')
  {
    if n < 0 then ['-'] + FormatNat(-n) else FormatNat(n)
  }

  predicate AllDigits(s: string) {
    s != [] && forall c <- s :: IsDigit(c)
  }

  function NatValue(s: string): nat
    requires AllDigits(s)
  {
    var d := DigitValue(s[|s| - 1]);
    if |s| == 1 then d else NatValue(s[..|s| - 1]) * 10 + d
  }

  const MIN_INT64: int := -0x8000_0000_0000_0000
  const MAX_INT64: int := 0x7FFF_FFFF_FFFF_FFFF

  predicate IsInt64(n: int) {
    MIN_INT64 <= n <= MAX_INT64
  }

  /** Base 10, 64 bits: an optional sign, digits, and a value in range. */
  function ParseInt64(s: string): Option<int> {
    if s == [] then None
    else
      var digits := if s[0] == '-' || s[0] == '+' then s[1..] else s;
      if !AllDigits(digits) then None
      else
        var v: int := NatValue(digits);
        var n := if s[0] == '-' then -v else v;
        if IsInt64(n) then Some(n) else None
  }

  lemma {:induction false} NatRoundTrip(n: nat)
    ensures NatValue(FormatNat(n)) == n
  {
    if n >= 10 {
      NatRoundTrip(n / 10);
      var s := FormatNat(n);
      assert s[..|s| - 1] == FormatNat(n / 10);
    }
  }

  lemma Int64RoundTrip(n: int)
    requires IsInt64(n)
    ensures ParseInt64(FormatInt(n)) == Some(n)
  {
    var s := FormatInt(n);
    if n < 0 {
      NatRoundTrip(-n);
      assert s[1..] == FormatNat(-n);
    } else {
      NatRoundTrip(n);
      assert s[0] in s;
    }
  }

  lemma FormatIntInjective(m: int, n: int)
    requires FormatInt(m) == FormatInt(n)
    ensures m == n
  {
    var s := FormatInt(m);
    assert s[0] in s;
    if m < 0 {
      assert n < 0;
      assert s[1..] == FormatNat(-m) == FormatNat(-n);
      NatRoundTrip(-m);
      NatRoundTrip(-n);
    } else {
      NatRoundTrip(m);
      NatRoundTrip(n);
    }
  }
}
