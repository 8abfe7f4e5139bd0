/**
 * The pieces of the Java and Kotlin standard libraries whose exact results
 * matter to the reminder keys: 32-bit `int` arithmetic, `String.hashCode()`,
 * `Int.toString()` and Kotlin's `String.toLongOrNull()`.
 */
module Jvm {
  import opened Wrappers

  const TWO_32: int := 0x1_0000_0000
  const INT_MIN: int := -0x8000_0000
  const INT_MAX: int := 0x7FFF_FFFF
  const LONG_MIN: int := -0x8000_0000_0000_0000
  const LONG_MAX: int := 0x7FFF_FFFF_FFFF_FFFF

  /** Java's narrowing of an exact integer to a two's-complement `int`. */
  function ToInt32(x: int): (r: int)
    ensures INT_MIN <= r <= INT_MAX
    ensures (r - x) % TWO_32 == 0
  {
    var m := x % TWO_32;
    if m <= INT_MAX then m else m - TWO_32
  }

  /** Two integers congruent modulo 2^32 narrow to the same `int`. */
  lemma ToInt32Congruent(x: int, y: int)
    requires (x - y) % TWO_32 == 0
    ensures ToInt32(x) == ToInt32(y)
  {
    var k := (x - y) / TWO_32;
    assert x == y + k * TWO_32;
    assert x % TWO_32 == y % TWO_32;
  }

  /** Congruence modulo 2^32 survives multiplying both sides by `m`. */
  lemma ScaleCongruent(a: int, b: int, m: int)
    requires (a - b) % TWO_32 == 0
    ensures (m * a - m * b) % TWO_32 == 0
  {
    var k := (a - b) / TWO_32;
    assert a - b == k * TWO_32;
    assert m * a - m * b == m * (a - b);
    assert m * (a - b) == (m * k) * TWO_32;
  }

  /** The UTF-16 code units of one character, as Java stores it in a String. */
  function Utf16Units(c: char): (u: seq<int>)
    ensures 1 <= |u| <= 2
    ensures forall i | 0 <= i < |u| :: 0 <= u[i] < 0x1_0000
  {
    var n := c as int;
    if n < 0x1_0000 then [n]
    else [0xD800 + (n - 0x1_0000) / 0x400, 0xDC00 + (n - 0x1_0000) % 0x400]
  }

  /** The UTF-16 code units of a string. */
  function Utf16(s: string): seq<int> {
    if s == [] then [] else Utf16Units(s[0]) + Utf16(s[1..])
  }

  /** The loop of `String.hashCode()`: `h = 31 * h + unit` over the code
      units, in 32-bit `int` arithmetic, starting from 0. */
  function HashLoop(u: seq<int>): int
    decreases |u|
  {
    if u == [] then 0 else ToInt32(31 * HashLoop(u[..|u| - 1]) + u[|u| - 1])
  }

  /** `String.hashCode()`. */
  function HashCode(s: string): (h: int)
    ensures INT_MIN <= h <= INT_MAX
  {
    HashLoop(Utf16(s))
  }

  function Pow31(n: nat): nat {
    if n == 0 then 1 else 31 * Pow31(n - 1)
  }

  /** The closed form the Java SE API gives for `hashCode`:
      `s[0]*31^(n-1) + s[1]*31^(n-2) + ... + s[n-1]`, before narrowing. */
  function HashSum(u: seq<int>): int {
    if u == [] then 0 else u[0] * Pow31(|u| - 1) + HashSum(u[1..])
  }

  lemma {:induction false} HashSumSnoc(u: seq<int>, c: int)
    ensures HashSum(u + [c]) == 31 * HashSum(u) + c
    decreases |u|
  {
    if u == [] {
      assert [] + [c] == [c];
    } else {
      assert (u + [c])[1..] == u[1..] + [c];
      HashSumSnoc(u[1..], c);
      var p := Pow31(|u| - 1);
      assert Pow31(|u|) == 31 * p;
      calc {
        HashSum(u + [c]);
        u[0] * Pow31(|u|) + HashSum(u[1..] + [c]);
        u[0] * (31 * p) + 31 * HashSum(u[1..]) + c;
        { assert u[0] * (31 * p) == 31 * (u[0] * p); }
        31 * (u[0] * p + HashSum(u[1..])) + c;
        31 * HashSum(u) + c;
      }
    }
  }

  /** The 32-bit loop computes the closed form narrowed to an `int`. */
  lemma {:induction false} HashLoopClosedForm(u: seq<int>)
    ensures HashLoop(u) == ToInt32(HashSum(u))
    decreases |u|
  {
    if u != [] {
      var p, c := u[..|u| - 1], u[|u| - 1];
      assert p + [c] == u;
      HashLoopClosedForm(p);
      HashSumSnoc(p, c);
      var h, e := HashLoop(p), HashSum(p);
      ScaleCongruent(h, e, 31);
      assert (31 * h + c) - (31 * e + c) == 31 * h - 31 * e;
      ToInt32Congruent(31 * h + c, 31 * e + c);
    }
  }

  /** `String.hashCode()` agrees with the formula of the Java SE API. */
  lemma HashCodeClosedForm(s: string)
    ensures HashCode(s) == ToInt32(HashSum(Utf16(s)))
  {
    HashLoopClosedForm(Utf16(s));
  }

  predicate IsDigit(c: char) {
    '0' <= c <= '9'
  }

  predicate AllDigits(s: string) {
    forall i | 0 <= i < |s| :: IsDigit(s[i])
  }

  function DigitChar(d: int): (c: char)
    requires 0 <= d < 10
    ensures IsDigit(c) && c as int - '0' as int == d
  {
    ('0' as int + d) as char
  }

  /** The decimal digits of a natural number, without leading zeros. */
  function NatToString(n: nat): string
    decreases n
  {
    if n < 10 then [DigitChar(n)] else NatToString(n / 10) + [DigitChar(n % 10)]
  }

  /** `Int.toString()` and `Long.toString()`: a minus sign for negative numbers,
      then the decimal digits of the magnitude. */
  function IntToString(n: int): (s: string)
    ensures |s| >= 1
    ensures s[0] == '-' <==> n < 0
  {
    if n < 0 then "-" + NatToString(-n)
    else
      NatToStringAllDigits(n);
      NatToString(n)
  }

  /** The value of a string of decimal digits. */
  function DigitsValue(s: string): nat
    requires AllDigits(s)
  {
    if s == [] then 0 else 10 * DigitsValue(s[..|s| - 1]) + (s[|s| - 1] as int - '0' as int)
  }

  /** The result of `toLongOrNull` once the sign has been read. */
  function SignedValue(digits: string, negative: bool): (r: Option<int>)
    ensures r.Some? ==> LONG_MIN <= r.value <= LONG_MAX
  {
    if digits == [] || !AllDigits(digits) then None
    else
      var v: int := if negative then 0 - DigitsValue(digits) as int else DigitsValue(digits);
      if LONG_MIN <= v <= LONG_MAX then Some(v) else None
  }

  /** Kotlin's `String.toLongOrNull()` in radix 10: an optional leading `+` or
      `-`, then at least one digit; null on any other character or when the
      value leaves the `Long` range. */
  function ParseLong(s: string): (r: Option<int>)
    ensures r.Some? ==> LONG_MIN <= r.value <= LONG_MAX
    ensures r.Some? ==> exists i :: 0 <= i < |s| && IsDigit(s[i])
  {
    if |s| == 0 then None
    else if s[0] < '0' then
      if |s| == 1 then None
      else if s[0] == '-' then SignedValue(s[1..], true)
      else if s[0] == '+' then SignedValue(s[1..], false)
      else None
    else SignedValue(s, false)
  }

  /** `NatToString` gives a non-empty string of digits. */
  lemma {:induction false} NatToStringAllDigits(n: nat)
    ensures |NatToString(n)| >= 1 && AllDigits(NatToString(n))
    decreases n
  {
    if n >= 10 {
      NatToStringAllDigits(n / 10);
      var s := NatToString(n);
      var p := NatToString(n / 10);
      assert s == p + [DigitChar(n % 10)];
      forall i | 0 <= i < |s| ensures IsDigit(s[i]) {
        if i < |p| { assert s[i] == p[i]; }
      }
    }
  }

  /** The value of the digits `NatToString` writes is the number. */
  lemma {:induction false} NatToStringValue(n: nat)
    ensures AllDigits(NatToString(n)) && DigitsValue(NatToString(n)) == n
    decreases n
  {
    NatToStringAllDigits(n);
    if n >= 10 {
      NatToStringValue(n / 10);
      var s := NatToString(n);
      assert s[..|s| - 1] == NatToString(n / 10);
    }
  }

  /** A decimal numeral: an optional minus sign, then one or more digits. */
  predicate IsNumeral(s: string) {
    && |s| >= 1
    && (IsDigit(s[0]) || (s[0] == '-' && |s| >= 2))
    && forall i | 1 <= i < |s| :: IsDigit(s[i])
  }

  /** Every `toString` of a number is a numeral, so a string holding any other
      character (a letter, a space) is the `toString` of no number. */
  lemma IntToStringIsNumeral(n: int)
    ensures IsNumeral(IntToString(n))
  {
    if n < 0 {
      NatToStringAllDigits(-n);
      var d := NatToString(-n);
      var s := IntToString(n);
      assert s == "-" + d;
      forall i | 1 <= i < |s| ensures IsDigit(s[i]) {
        assert s[i] == d[i - 1];
      }
    } else {
      NatToStringAllDigits(n);
    }
  }

  /** The digits of a magnitude within the `Long` range read back as that
      magnitude, with the sign. */
  lemma SignedValueOfNatString(m: nat, negative: bool)
    requires if negative then m <= -LONG_MIN else m <= LONG_MAX
    ensures SignedValue(NatToString(m), negative) == Some(if negative then -(m as int) else m as int)
  {
    NatToStringValue(m);
  }

  /** Round trip: `n.toString().toLongOrNull() == n` for every `Long`. */
  lemma ParseLongOfToString(n: int)
    requires LONG_MIN <= n <= LONG_MAX
    ensures ParseLong(IntToString(n)) == Some(n)
  {
    var s := IntToString(n);
    if n < 0 {
      NatToStringAllDigits(-n);
      assert s[1..] == NatToString(-n);
      SignedValueOfNatString(-n, true);
    } else {
      NatToStringAllDigits(n);
      assert IsDigit(s[0]);
      SignedValueOfNatString(n, false);
    }
  }
}
