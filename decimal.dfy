/**
 * Decimal text as Python 2 reads and writes it: `int(s)` on a string,
 * `str(n)` on a natural number, and fixed-width zero padding (the shape of
 * a Wayback timestamp field).
 */
module Decimal {
  import opened Wrappers

  predicate IsDigit(c: char) {
    '0' <= c <= '9'
  }

  predicate AllDigits(s: string) {
    forall i :: 0 <= i < |s| ==> IsDigit(s[i])
  }

  function DigitValue(c: char): (d: nat)
    requires IsDigit(c)
    ensures d < 10
  {
    c as int - '0' as int
  }

  function DigitChar(d: nat): (c: char)
    requires d < 10
    ensures IsDigit(c) && DigitValue(c) == d
  {
    ('0' as int + d) as char
  }

  function Pow10(w: nat): (p: nat)
    ensures p >= 1
  {
    if w == 0 then 1 else 10 * Pow10(w - 1)
  }

  /** The number a string of decimal digits denotes, most significant digit first. */
  function Value(s: string): (v: nat)
    requires AllDigits(s)
    ensures v < Pow10(|s|)
    decreases |s|
  {
    if s == [] then 0 else Value(s[..|s| - 1]) * 10 + DigitValue(s[|s| - 1])
  }

  /** `n` written in exactly `w` digits, with leading zeros (only the low `w` digits survive). */
  function Pad(n: nat, w: nat): (s: string)
    ensures |s| == w && AllDigits(s)
  {
    if w == 0 then "" else Pad(n / 10, w - 1) + [DigitChar(n % 10)]
  }

  /** Python's `str(n)` for a natural number: its shortest decimal spelling. */
  function NatToString(n: nat): (s: string)
    ensures s != [] && AllDigits(s)
    ensures |s| > 1 ==> s[0] != '0'
  {
    if n < 10 then [DigitChar(n)] else NatToString(n / 10) + [DigitChar(n % 10)]
  }

  /** Whitespace as Python 2's `int()` skips it around a number. */
  predicate IsSpace(c: char) {
    c == ' ' || c == '\t' || c == '\n' || c == '\r' || c == '\U{000B}' || c == '\U{000C}'
  }

  function TrimLeft(s: string): string {
    if s != [] && IsSpace(s[0]) then TrimLeft(s[1..]) else s
  }

  function TrimRight(s: string): string {
    if s != [] && IsSpace(s[|s| - 1]) then TrimRight(s[..|s| - 1]) else s
  }

  /**
   * Python 2's `int(s)`: whitespace, an optional sign, whitespace again,
   * one or more decimal digits, then whitespace. Anything else raises
   * ValueError, here None.
   */
  function ParseInt(s: string): Option<int> {
    var t := TrimLeft(s);
    var signed := t != [] && (t[0] == '+' || t[0] == '-');
    var digits := TrimRight(if signed then TrimLeft(t[1..]) else t);
    if digits != [] && AllDigits(digits) then
      var magnitude: int := Value(digits);
      Some(if signed && t[0] == '-' then -magnitude else magnitude)
    else None
  }

  /** Reading back a padded number gives the number, when it fits the width. */
  lemma {:induction false} PadValue(n: nat, w: nat)
    requires n < Pow10(w)
    ensures Value(Pad(n, w)) == n
    decreases w
  {
    if w > 0 {
      var s := Pad(n, w);
      assert s[..|s| - 1] == Pad(n / 10, w - 1);
      PadValue(n / 10, w - 1);
    }
  }

  /** Padding the value of a digit string to its own width gives the string back. */
  lemma {:induction false} ValuePad(s: string)
    requires AllDigits(s)
    ensures Pad(Value(s), |s|) == s
    decreases |s|
  {
    if s != [] {
      var init := s[..|s| - 1];
      var last := DigitValue(s[|s| - 1]);
      ValuePad(init);
      DivideByTen(Value(init), last);
      assert s == init + [DigitChar(last)];
    }
  }

  /** `int(str(n)) == n`, on the digit level. */
  lemma {:induction false} NatToStringValue(n: nat)
    ensures Value(NatToString(n)) == n
    decreases n
  {
    if n >= 10 {
      var s := NatToString(n);
      assert s[..|s| - 1] == NatToString(n / 10);
      NatToStringValue(n / 10);
    }
  }

  lemma {:induction false} LeadingDigitNonZero(s: string)
    requires AllDigits(s) && s != [] && s[0] != '0'
    ensures Value(s) >= Pow10(|s| - 1)
    decreases |s|
  {
    if |s| > 1 {
      LeadingDigitNonZero(s[..|s| - 1]);
    }
  }

  /** `str(int(s)) == s` for a digit string without superfluous leading zeros. */
  lemma {:induction false} ValueNatToString(s: string)
    requires AllDigits(s) && s != [] && (|s| > 1 ==> s[0] != '0')
    ensures NatToString(Value(s)) == s
    decreases |s|
  {
    if |s| > 1 {
      var init := s[..|s| - 1];
      var last := DigitValue(s[|s| - 1]);
      assert init[0] == s[0];
      LeadingDigitNonZero(init);
      ValueNatToString(init);
      DivideByTen(Value(init), last);
      assert s == init + [DigitChar(last)];
    }
  }

  lemma DivideByTen(q: nat, d: nat)
    requires d < 10
    ensures (q * 10 + d) / 10 == q && (q * 10 + d) % 10 == d
  {
  }

  /** Two numbers with the same spelling are the same number. */
  lemma NatToStringInjective(a: nat, b: nat)
    requires NatToString(a) == NatToString(b)
    ensures a == b
  {
    NatToStringValue(a);
    NatToStringValue(b);
  }

  /** `int()` of a plain digit string is its decimal value; of the empty string it fails. */
  lemma ParseIntOfDigits(s: string)
    requires AllDigits(s)
    ensures ParseInt(s) == if s == [] then None else Some(Value(s))
  {
  }

  /** `int(str(n)) == n`. */
  lemma ParseIntNatToString(n: nat)
    ensures ParseInt(NatToString(n)) == Some(n)
  {
    ParseIntOfDigits(NatToString(n));
    NatToStringValue(n);
  }

  /** `int()` of a zero-padded field gives the number back. */
  lemma ParseIntPad(n: nat, w: nat)
    requires 0 < w && n < Pow10(w)
    ensures ParseInt(Pad(n, w)) == Some(n)
  {
    ParseIntOfDigits(Pad(n, w));
    PadValue(n, w);
  }

  /** The sign may be separated from the digits by whitespace: `int("- 12") == -12`. */
  lemma SpaceAfterSign()
    ensures ParseInt("- 12") == Some(-12)
    ensures ParseInt(" + 7 ") == Some(7)
    ensures ParseInt("+") == None && ParseInt("- ") == None && ParseInt("1 2") == None
  {
    SpacedNegative();
    SpacedPositive();
    SignsWithoutDigits();
  }

  /** `int("- 12")`: whitespace after the minus sign. */
  lemma SpacedNegative()
    ensures ParseInt("- 12") == Some(-12)
  {
    assert TrimLeft(" 12") == "12";
    assert TrimRight("12") == "12";
    assert Value("12") == 12 by {
      assert "12"[..1] == "1";
    }
  }

  /** `int(" + 7 ")`: whitespace around the sign and the digits. */
  lemma SpacedPositive()
    ensures ParseInt(" + 7 ") == Some(7)
  {
    assert TrimLeft(" 7 ") == "7 ";
    assert TrimRight("7 ") == "7";
  }

  /** A sign with no digits, or digits split by a space, is not a number. */
  lemma SignsWithoutDigits()
    ensures ParseInt("+") == None && ParseInt("- ") == None && ParseInt("1 2") == None
  {
    assert TrimRight("1 2") == "1 2";
  }
}
