/**
  Decimal rendering of integers, as JavaScript's `Number.prototype.toString`
  produces it for an integral value of moderate size: an optional `-` sign
  followed by the decimal digits, without leading zeros.  A parser is given
  beside the renderer so that the rendering can be shown to lose nothing.
 */
module Decimal {

  predicate IsDigit(c: char) {
    '0' <= c <= '9'
  }

  /** Every character is a decimal digit. */
  predicate AllDigits(s: string) {
    forall i :: 0 <= i < |s| ==> IsDigit(s[i])
  }

  function DigitChar(d: nat): (c: char)
    requires d < 10
    ensures IsDigit(c)
    ensures (c as int) - ('0' as int) == d
  {
    ('0' as int + d) as char
  }

  function DigitValue(c: char): (d: nat)
    requires IsDigit(c)
    ensures d < 10
    ensures DigitChar(d) == c
  {
    (c as int) - ('0' as int)
  }

  /** The decimal digits of `n`, most significant first. */
  function NatToString(n: nat): (s: string)
    ensures |s| >= 1
    ensures AllDigits(s)
    ensures |s| > 1 ==> s[0] != '0'
    decreases n
  {
    if n < 10 then [DigitChar(n)] else NatToString(n / 10) + [DigitChar(n % 10)]
  }

  /** A natural number as JavaScript prints it: one or more digits, and no
      leading zero unless the number is zero itself. */
  predicate IsNatText(s: string) {
    |s| >= 1 && AllDigits(s) && (|s| > 1 ==> s[0] != '0')
  }

  /** An integer as JavaScript prints it: a natural number's text, or a minus
      sign before the text of a positive one (there is no "-0"). */
  predicate IsIntText(s: string) {
    |s| >= 1 &&
    if s[0] == '-' then IsNatText(s[1..]) && s[1..] != "0" else IsNatText(s)
  }

  /** An integer as JavaScript prints it: a minus sign for negative values. */
  function IntToString(n: int): (s: string)
    ensures IsIntText(s)
    ensures (n < 0) == (s[0] == '-')
    ensures n >= 0 && |s| > 1 ==> s[0] != '0'
    ensures n < 0 ==> |s| >= 2 && s[1] != '0'
  {
    if n < 0 then
      NatRoundTrip(-n);
      assert ParseNat("0") == 0;
      "-" + NatToString(-n)
    else NatToString(n)
  }

  /** The value of a string of decimal digits, most significant first. */
  function ParseNat(s: string): (n: nat)
    requires AllDigits(s)
    decreases |s|
  {
    if |s| == 0 then 0 else ParseNat(s[..|s| - 1]) * 10 + DigitValue(s[|s| - 1])
  }

  /** Reads back what `IntToString` writes. */
  function ParseInt(s: string): (n: int)
    requires IsIntText(s)
  {
    if s[0] == '-' then -(ParseNat(s[1..]) as int) else ParseNat(s)
  }

  lemma {:induction false} NatRoundTrip(n: nat)
    ensures ParseNat(NatToString(n)) == n
    decreases n
  {
    if n >= 10 {
      var s := NatToString(n);
      assert s[..|s| - 1] == NatToString(n / 10);
      assert s[|s| - 1] == DigitChar(n % 10);
      NatRoundTrip(n / 10);
    }
  }

  /** Rendering an integer and reading it back gives the integer. */
  lemma IntRoundTrip(n: int)
    ensures ParseInt(IntToString(n)) == n
  {
    var s := IntToString(n);
    if n < 0 {
      assert s[1..] == NatToString(-n);
      NatRoundTrip(-n);
    } else {
      NatRoundTrip(n);
    }
  }

  /** Printing the value of a well-formed natural number text gives that text
      back: the printed form is the only text for its number. */
  lemma {:induction false} NatTextRoundTrip(t: string)
    requires IsNatText(t)
    ensures NatToString(ParseNat(t)) == t
    decreases |t|
  {
    if |t| > 1 {
      var p := t[..|t| - 1];
      var d := DigitValue(t[|t| - 1]);
      assert p[0] == t[0];
      NatTextRoundTrip(p);
      var m := ParseNat(p);
      assert m != 0;
      var n := m * 10 + d;
      assert n / 10 == m && n % 10 == d;
      assert t == p + [t[|t| - 1]];
    }
  }

  /** Every well-formed integer text is what `IntToString` prints for its value. */
  lemma IntTextRoundTrip(t: string)
    requires IsIntText(t)
    ensures IntToString(ParseInt(t)) == t
  {
    if t[0] == '-' {
      var m := ParseNat(t[1..]);
      NatTextRoundTrip(t[1..]);
      assert m != 0;
      assert t == "-" + t[1..];
    } else {
      NatTextRoundTrip(t);
    }
  }

  /** Distinct integers are printed differently. */
  lemma IntToStringInjective(m: int, n: int)
    requires IntToString(m) == IntToString(n)
    ensures m == n
  {
    IntRoundTrip(m);
    IntRoundTrip(n);
  }

  /** No printed integer contains a space, so a following suffix can be split off. */
  lemma IntToStringHasNoSpace(n: int)
    ensures ' ' !in IntToString(n)
  {
    var s := IntToString(n);
    if n >= 0 {
      assert forall i :: 0 <= i < |s| ==> s[i] != ' ';
    } else {
      assert forall i :: 1 <= i < |s| ==> s[i] == s[1..][i - 1] && s[i] != ' ';
    }
  }
}
