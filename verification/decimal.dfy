/** Machine integer ranges and the decimal text conversions of Rust's standard
    library that the interpreter relies on: `to_string` on integers and booleans,
    and `str::parse` into `u64`, `i64` and `bool`. Only ASCII text is modelled. */
module Decimal {
  import opened Wrappers

  const U64_MAX: int := 0xffff_ffff_ffff_ffff
  const I64_MIN: int := -0x8000_0000_0000_0000
  const I64_MAX: int := 0x7fff_ffff_ffff_ffff

  type u64 = x: int | 0 <= x <= U64_MAX
  type i64 = x: int | I64_MIN <= x <= I64_MAX

  predicate IsDigit(c: char) {
    '0' <= c <= '9'
  }

  predicate AllDigits(s: string) {
    forall i | 0 <= i < |s| :: IsDigit(s[i])
  }

  function DigitValue(c: char): (d: nat)
    requires IsDigit(c)
    ensures d < 10
  {
    c as int - '0' as int
  }

  function DigitChar(d: nat): (c: char)
    requires d < 10
    ensures IsDigit(c) && DigitValue(c) == d
  {
    ('0' as int + d) as char
  }

  /** The value of a run of decimal digits, most significant digit first. */
  function DigitsValue(s: string): nat
    requires AllDigits(s)
  {
    if s == [] then 0 else 10 * DigitsValue(s[..|s| - 1]) + DigitValue(s[|s| - 1])
  }

  /** `n.to_string()` for a non-negative integer: the shortest decimal numeral of `n`. */
  function NatToString(n: nat): (s: string)
    ensures 0 < |s| && AllDigits(s)
    ensures DigitsValue(s) == n
    ensures |s| > 1 ==> s[0] != '0'
  {
    if n < 10 then [DigitChar(n)]
    else
      var s := NatToString(n / 10) + [DigitChar(n % 10)];
      assert s[..|s| - 1] == NatToString(n / 10);
      s
  }

  /** `i.to_string()`: the decimal numeral of `|i|`, preceded by `-` when `i` is negative. */
  function IntToString(i: int): (s: string)
    ensures 0 < |s|
    ensures s[0] == '-' <==> i < 0
    ensures i < 0 ==> s[1..] == NatToString(-i)
    ensures 0 <= i ==> s == NatToString(i)
  {
    if i < 0 then "-" + NatToString(-i) else NatToString(i)
  }

  /** `b.to_string()`. */
  function BoolToString(b: bool): string {
    if b then "true" else "false"
  }

  /** `s.parse::<u64>()`: an optional `+` and at least one digit, whose value fits in 64 bits. */
  function ParseU64(s: string): Option<u64> {
    var digits := if 0 < |s| && s[0] == '+' then s[1..] else s;
    if digits != [] && AllDigits(digits) && DigitsValue(digits) <= U64_MAX then Some(DigitsValue(digits))
    else None
  }

  /** `s.parse::<i64>()`: an optional sign and at least one digit, whose value fits in 64 signed bits. */
  function ParseI64(s: string): Option<i64> {
    if 0 < |s| && s[0] == '-' then
      var digits := s[1..];
      if digits != [] && AllDigits(digits) && I64_MIN <= -(DigitsValue(digits) as int) then Some(-(DigitsValue(digits) as int))
      else None
    else
      var digits := if 0 < |s| && s[0] == '+' then s[1..] else s;
      if digits != [] && AllDigits(digits) && DigitsValue(digits) <= I64_MAX then Some(DigitsValue(digits))
      else None
  }

  /** `s.parse::<bool>()`: exactly `true` or `false`. */
  function ParseBool(s: string): Option<bool> {
    if s == "true" then Some(true) else if s == "false" then Some(false) else None
  }

  /** Rendering an `i64` and parsing it back as an `i64` gives the same number. */
  lemma ParseI64OfIntToString(i: i64)
    ensures ParseI64(IntToString(i)) == Some(i)
  {
    var s := IntToString(i);
    if i < 0 {
      assert s[1..] == NatToString(-(i as int));
    } else {
      assert s[0] != '+' by { assert IsDigit(s[0]); }
    }
  }

  /** No rendered integer reads as a boolean. */
  lemma ParseBoolOfIntToString(i: int)
    ensures ParseBool(IntToString(i)) == None
  {
    var s := IntToString(i);
    if i >= 0 {
      assert IsDigit(s[0]);
    }
    assert s[0] != 't' && s[0] != 'f';
  }

  /** No rendered boolean reads as an integer. */
  lemma ParseI64OfBoolToString(b: bool)
    ensures ParseI64(BoolToString(b)) == None
  {
    var s := BoolToString(b);
    assert !IsDigit(s[0]);
  }

  /** A run of digits reads as a `u64` exactly when its value fits. */
  lemma ParseU64OfDigits(s: string)
    requires s != [] && AllDigits(s)
    ensures ParseU64(s) == (if DigitsValue(s) <= U64_MAX then Some(DigitsValue(s)) else None)
  {
    assert IsDigit(s[0]);
  }
}
