/**
 * The Kotlin string predicates the app relies on: `isBlank` and
 * `contains(other, ignoreCase = true)`.  Strings are sequences of Unicode
 * scalar values; the case mappings (`uppercaseChar`, `lowercaseChar`) come
 * from the platform's Unicode tables and are taken as parameters.
 */
module Text {

  /** Kotlin's `Char.isWhitespace()` on the JVM: `Character.isWhitespace`
      or `Character.isSpaceChar`. */
  predicate IsWhitespace(c: char): (b: bool)
    ensures c == ' ' || c == '\t' || c == '\n' || c == '\r' ==> b
    ensures 0x21 <= c as int <= 0x7E ==> !b
    ensures b ==> c as int <= 0x3000
  {
    var n := c as int;
    (0x09 <= n <= 0x0D) || (0x1C <= n <= 0x20) || n == 0xA0 || n == 0x1680
    || (0x2000 <= n <= 0x200A) || n == 0x2028 || n == 0x2029 || n == 0x202F
    || n == 0x205F || n == 0x3000
  }

  /** `isBlank()`: empty, or whitespace only. */
  predicate IsBlank(s: string): (b: bool)
    ensures |s| == 0 ==> b
    ensures (forall i | 0 <= i < |s| :: s[i] == ' ') ==> b
    ensures b ==> forall i | 0 <= i < |s| :: !(0x21 <= s[i] as int <= 0x7E)
  {
    forall i | 0 <= i < |s| :: IsWhitespace(s[i])
  }

  /** `isNotBlank()`: some character is not whitespace, so the string is not empty. */
  predicate IsNotBlank(s: string): (b: bool)
    ensures b <==> exists i :: 0 <= i < |s| && !IsWhitespace(s[i])
    ensures b ==> |s| > 0
  {
    !IsBlank(s)
  }

  /** `Char.equals(other, ignoreCase = true)`: equal, equal in upper case, or
      equal after lower-casing the upper-case forms. */
  predicate CharEqualsIgnoreCase(a: char, b: char, upper: char -> char, lower: char -> char) {
    a == b || upper(a) == upper(b) || lower(upper(a)) == lower(upper(b))
  }

  /** `other` occurs in `text` at offset `start`, comparing characters ignoring case. */
  predicate RegionMatches(text: string, start: int, other: string, upper: char -> char, lower: char -> char) {
    0 <= start && start + |other| <= |text|
    && forall k | 0 <= k < |other| :: CharEqualsIgnoreCase(text[start + k], other[k], upper, lower)
  }

  /** `indexOf(other, from, ignoreCase = true)`: tries the offsets `from`,
      `from + 1`, ..., `|text|` in turn and answers the first that matches, or -1. */
  function IndexOfIgnoreCase(text: string, other: string, from: nat, upper: char -> char, lower: char -> char): (r: int)
    ensures r == -1 || (from <= r <= |text| && RegionMatches(text, r, other, upper, lower))
    ensures r == -1 ==> forall j | from <= j <= |text| :: !RegionMatches(text, j, other, upper, lower)
    ensures r != -1 ==> forall j | from <= j < r :: !RegionMatches(text, j, other, upper, lower)
    decreases |text| + 1 - from
  {
    if from > |text| then -1
    else if RegionMatches(text, from, other, upper, lower) then from
    else IndexOfIgnoreCase(text, other, from + 1, upper, lower)
  }

  /** `text.contains(other, ignoreCase = true)`. */
  function ContainsIgnoreCase(text: string, other: string, upper: char -> char, lower: char -> char): (b: bool)
    ensures b <==> exists j :: 0 <= j <= |text| && RegionMatches(text, j, other, upper, lower)
  {
    IndexOfIgnoreCase(text, other, 0, upper, lower) >= 0
  }

  /** Every string contains the empty string. */
  lemma ContainsEmpty(text: string, upper: char -> char, lower: char -> char)
    ensures ContainsIgnoreCase(text, "", upper, lower)
  {
    assert RegionMatches(text, 0, "", upper, lower);
  }
}
