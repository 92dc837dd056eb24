/**
 * Base-10 integer rendering as done by Go's strconv.FormatInt(v, 10) and
 * strconv.FormatUint(v, 10), together with the parser that inverts it.
 * The parser is the independent reference: every rendering parses back to
 * its value, and every canonical digit string is the rendering of its value.
 */
module Decimal {

  predicate IsDigit(c: char) {
    '0' <= c <= '9'
  }

  predicate AllDigits(s: string) {
    forall i :: 0 <= i < |s| ==> IsDigit(s[i])
  }

  /** A non-empty digit string without a leading zero (except "0" itself). */
  predicate Canonical(s: string) {
    |s| >= 1 && AllDigits(s) && (s[0] == '0' ==> |s| == 1)
  }

  /** An optional minus sign followed by a canonical digit string; no "-0". */
  predicate IsSignedDecimal(s: string) {
    |s| >= 1 &&
    if s[0] == '-' then Canonical(s[1..]) && s[1..] != "0" else Canonical(s)
  }

  function DigitChar(d: nat): (c: char)
    requires d < 10
    ensures IsDigit(c)
    ensures c == '0' <==> d == 0
  {
    ('0' as int + d) as char
  }

  function DigitValue(c: char): (d: nat)
    requires IsDigit(c)
    ensures d < 10 && DigitChar(d) == c
  {
    c as int - '0' as int
  }

  /** The decimal digits of n, most significant first. */
  function Digits(n: nat): (s: string)
    ensures Canonical(s)
    ensures s[0] == '0' <==> n == 0
    decreases n
  {
    if n < 10 then [DigitChar(n)] else Digits(n / 10) + [DigitChar(n % 10)]
  }

  /** The value of a digit string (the empty string reads as 0). */
  function ParseDigits(s: string): nat
    requires AllDigits(s)
    decreases |s|
  {
    if s == [] then 0 else ParseDigits(s[..|s| - 1]) * 10 + DigitValue(s[|s| - 1])
  }

  function ParseInt(s: string): int
    requires IsSignedDecimal(s)
  {
    if s[0] == '-' then -(ParseDigits(s[1..]) as int) else ParseDigits(s)
  }

  lemma {:induction false} ParseDigitsOfDigits(n: nat)
    ensures ParseDigits(Digits(n)) == n
    decreases n
  {
    var s := Digits(n);
    if n < 10 {
      assert s[..|s| - 1] == [];
    } else {
      assert s[..|s| - 1] == Digits(n / 10);
      ParseDigitsOfDigits(n / 10);
    }
  }

  lemma {:induction false} ParseDigitsPositive(s: string)
    requires Canonical(s) && s[0] != '0'
    ensures ParseDigits(s) >= 1
    decreases |s|
  {
    if |s| > 1 {
      var init := s[..|s| - 1];
      assert init[0] == s[0];
      ParseDigitsPositive(init);
    } else {
      assert s[..|s| - 1] == [];
    }
  }

  /** A canonical digit string is exactly the rendering of its value. */
  lemma {:induction false} DigitsOfParseDigits(s: string)
    requires Canonical(s)
    ensures Digits(ParseDigits(s)) == s
    decreases |s|
  {
    var last := s[|s| - 1];
    var init := s[..|s| - 1];
    if |s| == 1 {
      assert init == [];
      assert s == [last];
    } else {
      assert init[0] == s[0];
      ParseDigitsPositive(init);
      DigitsOfParseDigits(init);
      var n := ParseDigits(s);
      assert n == ParseDigits(init) * 10 + DigitValue(last);
      assert n / 10 == ParseDigits(init) && n % 10 == DigitValue(last);
      assert s == init + [last];
    }
  }

  /** strconv.FormatInt(v, 10): a sign only for negative values, then the digits of |v|. */
  function FormatInt(v: int): (s: string)
    ensures IsSignedDecimal(s) && ParseInt(s) == v
    ensures s[0] == '-' <==> v < 0
  {
    if v < 0 then
      ParseDigitsOfDigits(-v);
      var s := "-" + Digits(-v);
      assert s[1..] == Digits(-v);
      s
    else
      ParseDigitsOfDigits(v);
      Digits(v)
  }

  /** strconv.FormatUint(v, 10): digits only, never a sign. */
  function FormatUint(v: nat): (s: string)
    ensures Canonical(s) && ParseDigits(s) == v
  {
    ParseDigitsOfDigits(v);
    Digits(v)
  }

  /** Every signed decimal string is the rendering of the value it denotes. */
  lemma FormatIntOfParseInt(s: string)
    requires IsSignedDecimal(s)
    ensures FormatInt(ParseInt(s)) == s
  {
    if s[0] == '-' {
      DigitsOfParseDigits(s[1..]);
      ParseDigitsPositive(s[1..]);
      assert s == "-" + s[1..];
    } else {
      DigitsOfParseDigits(s);
    }
  }
}
