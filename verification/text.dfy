/** String helpers standing in for Python built-ins the core relies on:
    truthiness of optional strings, `str.upper`/`str.lower` (ASCII letters
    only) and decimal rendering of integers in f-strings. */
module Text {
  import opened Wrappers

  /** Python truthiness of an optional string: present and non-empty. */
  predicate Truthy(s: Option<string>) {
    s.Some? && s.value != ""
  }

  predicate IsLowerAscii(c: char) { 'a' <= c <= 'z' }
  predicate IsUpperAscii(c: char) { 'A' <= c <= 'Z' }

  function UpperChar(c: char): char {
    if IsLowerAscii(c) then (c as int - 32) as char else c
  }

  function LowerChar(c: char): char {
    if IsUpperAscii(c) then (c as int + 32) as char else c
  }

  /** `s.upper()` restricted to ASCII letters. */
  function Upper(s: string): (r: string)
    ensures |r| == |s|
    ensures forall i :: 0 <= i < |s| ==> r[i] == UpperChar(s[i])
  {
    seq(|s|, i requires 0 <= i < |s| => UpperChar(s[i]))
  }

  /** `s.lower()` restricted to ASCII letters. */
  function Lower(s: string): (r: string)
    ensures |r| == |s|
    ensures forall i :: 0 <= i < |s| ==> r[i] == LowerChar(s[i])
  {
    seq(|s|, i requires 0 <= i < |s| => LowerChar(s[i]))
  }

  /** Upper-casing leaves no lower-case letter behind and is idempotent. */
  lemma UpperIsNormalForm(s: string)
    ensures forall i :: 0 <= i < |s| ==> !IsLowerAscii(Upper(s)[i])
    ensures Upper(Upper(s)) == Upper(s)
  {
  }

  /** Lower-casing forgets exactly the case of letters: two strings that
      differ only in letter case lower-case to the same string. */
  lemma LowerIgnoresCase(s: string)
    ensures Lower(Upper(s)) == Lower(s)
    ensures Lower(Lower(s)) == Lower(s)
  {
  }

  predicate IsDigit(c: char) { '0' <= c <= '9' }

  predicate AllDigits(s: string) {
    forall i :: 0 <= i < |s| ==> IsDigit(s[i])
  }

  function DigitChar(d: nat): (c: char)
    requires d < 10
    ensures IsDigit(c)
  {
    (d + '0' as int) as char
  }

  function DigitValue(c: char): nat
    requires IsDigit(c)
  {
    c as int - '0' as int
  }

  /** The decimal rendering Python's `str(n)` gives a non-negative integer. */
  function NatToString(n: nat): (s: string)
    ensures |s| >= 1
    ensures AllDigits(s)
    ensures n > 0 ==> s[0] != '0'
    decreases n
  {
    if n < 10 then [DigitChar(n)] else NatToString(n / 10) + [DigitChar(n % 10)]
  }

  /** `str(i)` for any integer. */
  function IntToString(i: int): (s: string)
    ensures |s| >= 1
  {
    if i < 0 then "-" + NatToString(-i) else NatToString(i)
  }

  /** Reading a digit string back as a number: the inverse of NatToString. */
  function ParseNat(s: string): nat
    requires AllDigits(s)
  {
    if |s| == 0 then 0 else ParseNat(s[..|s| - 1]) * 10 + DigitValue(s[|s| - 1])
  }

  lemma {:induction false} ParseNatToString(n: nat)
    ensures ParseNat(NatToString(n)) == n
    decreases n
  {
    if n >= 10 {
      var s := NatToString(n);
      assert s[..|s| - 1] == NatToString(n / 10);
      ParseNatToString(n / 10);
    }
  }

  /** Distinct numbers render as distinct strings. */
  lemma NatToStringInjective(m: nat, n: nat)
    requires NatToString(m) == NatToString(n)
    ensures m == n
  {
    ParseNatToString(m);
    ParseNatToString(n);
  }
}
