/** String operations the source takes from JavaScript's built-ins:
    `String.prototype.toLowerCase` (ASCII letters only), `includes`/`indexOf`,
    `String(n)` for integers and `Number(s)` for decimal digit strings. */
module Text {
  import opened Collections

  /** ASCII lower case of one character; every other character is unchanged. */
  function LowerChar(c: char): (d: char)
    ensures 'A' <= c <= 'Z' ==> 'a' <= d <= 'z' && d as int - c as int == 32
    ensures !('A' <= c <= 'Z') ==> d == c
  {
    if 'A' <= c <= 'Z' then (c as int + 32) as char else c
  }

  function Lower(s: string): (r: string)
    ensures |r| == |s|
  {
    seq(|s|, i requires 0 <= i < |s| => LowerChar(s[i]))
  }

  /** `pat` occurs in `s` starting at index `i`. */
  ghost predicate OccursAt(s: string, pat: string, i: int) {
    0 <= i && i + |pat| <= |s| && s[i..i + |pat|] == pat
  }

  /** `i` is where the leftmost occurrence of `pat` in `s` begins. */
  ghost predicate FirstOccurrence(s: string, pat: string, i: int) {
    OccursAt(s, pat, i) && forall j :: 0 <= j < i ==> !OccursAt(s, pat, j)
  }

  /** The leftmost occurrence of `pat` in `s` at or after `from`: `s.indexOf(pat, from)`. */
  function IndexOfFrom(s: string, pat: string, from: nat): (r: Option<nat>)
    ensures r.Some? ==> from <= r.value && OccursAt(s, pat, r.value)
    ensures r.Some? ==> forall j :: from <= j < r.value ==> !OccursAt(s, pat, j)
    ensures r.None? ==> forall j :: from <= j ==> !OccursAt(s, pat, j)
    decreases |s| - from
  {
    if from + |pat| > |s| then None
    else if s[from..from + |pat|] == pat then Some(from)
    else IndexOfFrom(s, pat, from + 1)
  }

  function IndexOf(s: string, pat: string): (r: Option<nat>)
    ensures r.Some? ==> FirstOccurrence(s, pat, r.value)
    ensures r.None? <==> forall j :: !OccursAt(s, pat, j)
  {
    IndexOfFrom(s, pat, 0)
  }

  /** `s.includes(pat)`. */
  predicate Includes(s: string, pat: string)
  {
    IndexOf(s, pat).Some?
  }

  lemma IncludesIffOccurs(s: string, pat: string)
    ensures Includes(s, pat) <==> exists j :: OccursAt(s, pat, j)
  {
    if !Includes(s, pat) {
      assert forall j :: !OccursAt(s, pat, j);
    }
  }

  // ---------------------------------------------------------------------
  // Decimal text of integers
  // ---------------------------------------------------------------------

  predicate IsDigit(c: char) {
    '0' <= c <= '9'
  }

  function DigitChar(d: nat): (c: char)
    requires d < 10
    ensures IsDigit(c)
  {
    ('0' as int + d) as char
  }

  function DigitValue(c: char): (d: nat)
    requires IsDigit(c)
    ensures d < 10 && DigitChar(d) == c
  {
    c as int - '0' as int
  }

  /** `String(n)` for a non-negative integer: its decimal digits, no leading zero. */
  function NatToString(n: nat): (s: string)
    ensures |s| >= 1
    ensures forall i :: 0 <= i < |s| ==> IsDigit(s[i])
    ensures |s| > 1 ==> s[0] != '0'
    decreases n
  {
    if n < 10 then [DigitChar(n)] else NatToString(n / 10) + [DigitChar(n % 10)]
  }

  /** `String(i)` for an integer of magnitude below 10^21 (JavaScript writes
      larger ones in exponent form, which is not modelled). */
  function IntToString(i: int): (s: string)
    ensures |s| >= 1
    ensures forall k :: 0 <= k < |s| ==> IsDigit(s[k]) || s[k] == '-'
  {
    if i < 0 then "-" + NatToString(-i) else NatToString(i)
  }

  /** The value of a string of decimal digits. */
  function DigitsValue(s: string): nat
    requires forall i :: 0 <= i < |s| ==> IsDigit(s[i])
  {
    if s == [] then 0 else 10 * DigitsValue(s[..|s| - 1]) + DigitValue(s[|s| - 1])
  }

  predicate AllDigits(s: string) {
    forall i :: 0 <= i < |s| ==> IsDigit(s[i])
  }

  /** `Number(s)` on a non-empty string of decimal digits, which reads as its
      value; any other string is rejected (None), although JavaScript's
      `Number` also reads blanks, signs, fractions, exponents and hexadecimal. */
  function ParseNat(s: string): (r: Option<nat>)
    ensures r.Some? <==> |s| > 0 && AllDigits(s)
  {
    if |s| > 0 && AllDigits(s) then Some(DigitsValue(s)) else None
  }

  /** A leading zero does not change the value of a digit string. */
  lemma {:induction false} DigitsValueLeadingZero(s: string)
    requires AllDigits(s)
    ensures AllDigits("0" + s) && DigitsValue("0" + s) == DigitsValue(s)
    decreases |s|
  {
    if s != [] {
      var t := "0" + s;
      assert t[..|t| - 1] == "0" + s[..|s| - 1];
      DigitsValueLeadingZero(s[..|s| - 1]);
    }
  }

  /** Leading zeros are ignored, as in `Number("007") == 7`. */
  lemma ParseNatLeadingZero(s: string)
    requires |s| > 0 && AllDigits(s)
    ensures ParseNat("0" + s) == ParseNat(s)
    ensures ParseNat("007") == Some(7)
  {
    DigitsValueLeadingZero(s);
    assert "7"[..0] == "";
    assert DigitsValue("7") == 7;
    DigitsValueLeadingZero("7");
    assert "0" + "7" == "07";
    DigitsValueLeadingZero("07");
    assert "0" + "07" == "007";
  }

  lemma {:induction false} DigitsValueOfNatToString(n: nat)
    ensures DigitsValue(NatToString(n)) == n
    decreases n
  {
    if n >= 10 {
      var s := NatToString(n);
      assert s[..|s| - 1] == NatToString(n / 10);
      DigitsValueOfNatToString(n / 10);
    }
  }

  /** The integer text `String(n)` produces is read back as `n`. */
  lemma ParseNatToString(n: nat)
    ensures ParseNat(NatToString(n)) == Some(n)
  {
    DigitsValueOfNatToString(n);
  }
}
