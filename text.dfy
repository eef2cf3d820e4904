/**
 * The pieces of Kotlin's string library the core relies on: `indexOf`,
 * `contains`, ASCII `lowercase()` and the `%02d` conversion of
 * `String.format`.
 */
module Text {

  /** `t` occurs in `s` starting at index `i`. */
  predicate IsAt(s: string, t: string, i: nat) {
    i + |t| <= |s| && s[i..i + |t|] == t
  }

  /** Kotlin's `s.contains(t)`. */
  predicate Contains(s: string, t: string) {
    exists i: nat | i <= |s| :: IsAt(s, t, i)
  }

  /** The first occurrence of `t` in `s` at or after `from`, or -1 when there is none. */
  function Search(s: string, t: string, from: nat): (r: int)
    ensures r == -1 || (from <= r && IsAt(s, t, r))
    ensures forall j: nat :: from <= j && (r == -1 || j < r) ==> !IsAt(s, t, j)
    decreases |s| + 1 - from
  {
    if from + |t| > |s| then -1
    else if s[from..from + |t|] == t then from
    else Search(s, t, from + 1)
  }

  /** Kotlin's `s.indexOf(t)`: the first occurrence, -1 when absent (0 for an empty `t`). */
  function IndexOf(s: string, t: string): (r: int)
    ensures r >= 0 ==> IsAt(s, t, r) && forall j: nat :: j < r ==> !IsAt(s, t, j)
    ensures r < 0 <==> !Contains(s, t)
  {
    Search(s, t, 0)
  }

  /** `lowercase()` on one character, for the ASCII range. */
  function LowerChar(c: char): char {
    if 'A' <= c <= 'Z' then (c as int + 32) as char else c
  }

  /** `lowercase()` restricted to ASCII: upper-case letters are mapped, all else is kept. */
  function Lowercase(s: string): (r: string)
    ensures |r| == |s|
    ensures forall i :: 0 <= i < |s| ==> r[i] == LowerChar(s[i])
    ensures forall i :: 0 <= i < |r| ==> !('A' <= r[i] <= 'Z')
  {
    seq(|s|, i requires 0 <= i < |s| => LowerChar(s[i]))
  }

  /** Lower-casing twice is lower-casing once. */
  lemma LowercaseIdempotent(s: string)
    ensures Lowercase(Lowercase(s)) == Lowercase(s)
  {
  }

  predicate IsDigit(c: char) {
    '0' <= c <= '9'
  }

  predicate AllDigits(s: string) {
    forall i :: 0 <= i < |s| ==> IsDigit(s[i])
  }

  function DigitChar(d: nat): (c: char)
    requires d < 10
    ensures IsDigit(c) && c as int - '0' as int == d
  {
    ('0' as int + d) as char
  }

  function DigitValue(c: char): nat
    requires IsDigit(c)
  {
    c as int - '0' as int
  }

  /** The decimal numeral of `s`, read most significant digit first. */
  function ParseDecimal(s: string): nat
    requires AllDigits(s)
  {
    if s == [] then 0 else 10 * ParseDecimal(s[..|s| - 1]) + DigitValue(s[|s| - 1])
  }

  /** The shortest decimal numeral of `n` (Java's `%d` on a non-negative value). */
  function Decimal(n: nat): (r: string)
    ensures |r| >= 1 && AllDigits(r)
    ensures n < 10 <==> |r| == 1
    ensures n > 0 ==> r[0] != '0'
    ensures ParseDecimal(r) == n
  {
    if n < 10 then [DigitChar(n)]
    else
      var r := Decimal(n / 10) + [DigitChar(n % 10)];
      assert r[..|r| - 1] == Decimal(n / 10);
      r
  }

  /** A leading zero does not change the value of a numeral. */
  lemma {:induction false} LeadingZero(s: string)
    requires AllDigits(s)
    ensures AllDigits("0" + s) && ParseDecimal("0" + s) == ParseDecimal(s)
  {
    if s != [] {
      var z := "0" + s;
      assert z[..|z| - 1] == "0" + s[..|s| - 1];
      LeadingZero(s[..|s| - 1]);
    }
  }

  /**
   * Java's `%02d`: at least two characters, zero-padded; a negative value
   * is written with its sign and is never padded further ("-5").
   */
  function Pad2(n: int): (r: string)
    ensures n >= 0 ==> AllDigits(r) && ParseDecimal(r) == n
    ensures n >= 0 ==> |r| >= 2 && (n < 100 <==> |r| == 2)
    ensures n < 0 ==> |r| >= 2 && r[0] == '-' && AllDigits(r[1..]) && ParseDecimal(r[1..]) == -n
    ensures n >= 10 ==> r[0] != '0'
    ensures n < 0 ==> r[1] != '0'
  {
    if n < 0 then
      var r := "-" + Decimal(-n);
      assert r[1..] == Decimal(-n);
      r
    else if n < 10 then
      LeadingZero(Decimal(n));
      "0" + Decimal(n)
    else Decimal(n)
  }

  /** A two-character `%02d` field holds exactly its tens digit and its units digit. */
  lemma Pad2Digits(n: int)
    requires 0 <= n < 100
    ensures |Pad2(n)| == 2 && AllDigits(Pad2(n))
    ensures DigitValue(Pad2(n)[0]) == n / 10 && DigitValue(Pad2(n)[1]) == n % 10
  {
    var r := Pad2(n);
    assert r[..1] == [r[0]];
    assert ParseDecimal(r[..1]) == DigitValue(r[0]);
  }
}
