/**
 * The decimal text of an integer, as a JavaScript template literal `${n}` writes it
 * (an optional '-' followed by digits with no leading zero), together with its
 * inverse, a parser that accepts exactly the texts the printer produces.
 */
module Decimal {
  import opened Options

  predicate IsDigit(c: char) { '0' <= c <= '9' }

  function DigitValue(c: char): nat
    requires IsDigit(c)
  {
    c as int - '0' as int
  }

  function DigitChar(d: nat): (c: char)
    requires d < 10
    ensures IsDigit(c) && DigitValue(c) == d
  {
    ('0' as int + d) as char
  }

  predicate AllDigits(s: string) {
    forall i :: 0 <= i < |s| ==> IsDigit(s[i])
  }

  /** The number a string of digits denotes, most significant digit first. */
  function DigitsValue(s: string): nat
    requires AllDigits(s)
    decreases |s|
  {
    if s == [] then 0 else DigitsValue(s[..|s| - 1]) * 10 + DigitValue(s[|s| - 1])
  }

  /** A non-empty digit string without a leading zero (except "0" itself). */
  predicate IsCanonical(s: string) {
    |s| > 0 && AllDigits(s) && (s[0] == '0' ==> |s| == 1)
  }

  /** The decimal text of a natural number: canonical, and it denotes `n`. */
  function NatToDecimal(n: nat): (s: string)
    ensures IsCanonical(s) && DigitsValue(s) == n
    decreases n
  {
    if n < 10 then
      [DigitChar(n)]
    else
      var p := NatToDecimal(n / 10);
      var s := p + [DigitChar(n % 10)];
      assert s[..|s| - 1] == p;
      s
  }

  /** Inverse of `NatToDecimal`: accepts every canonical digit string, and what it accepts is printed text. */
  function ParseNat(s: string): (r: Option<nat>)
    ensures r.Some? ==> NatToDecimal(r.value) == s
    ensures IsCanonical(s) ==> r.Some?
  {
    if IsCanonical(s) then
      CanonicalIsPrinted(s);
      Some(DigitsValue(s))
    else
      None
  }

  /** Inverse of `IntToDecimal`: "-0" and leading zeros are rejected, as the printer never writes them. */
  function ParseInt(s: string): (r: Option<int>)
  {
    if |s| > 0 && s[0] == '-' then
      match ParseNat(s[1..])
      case Some(m) => if m > 0 then Some(-(m as int)) else None
      case None => None
    else
      match ParseNat(s)
      case Some(m) => Some(m)
      case None => None
  }

  /** The text `${n}` gives an integer `n`; parsing it gives `n` back. */
  function IntToDecimal(n: int): (s: string)
    ensures ParseInt(s) == Some(n)
  {
    if n < 0 then
      var s := "-" + NatToDecimal(-n);
      assert s[1..] == NatToDecimal(-n);
      s
    else
      NatToDecimal(n)
  }

  lemma {:induction false} LeadingNonZero(s: string)
    requires |s| > 0 && AllDigits(s) && s[0] != '0'
    ensures DigitsValue(s) >= 1
    decreases |s|
  {
    if |s| > 1 {
      var p := s[..|s| - 1];
      assert p[0] == s[0];
      LeadingNonZero(p);
    }
  }

  /** Every canonical digit string is the printed form of the number it denotes. */
  lemma {:induction false} CanonicalIsPrinted(s: string)
    requires IsCanonical(s)
    ensures NatToDecimal(DigitsValue(s)) == s
    decreases |s|
  {
    if |s| == 1 {
      assert s[..0] == [];
      assert [DigitChar(DigitValue(s[0]))] == s;
    } else {
      var p := s[..|s| - 1];
      assert p[0] == s[0];
      LeadingNonZero(p);
      CanonicalIsPrinted(p);
      var n := DigitsValue(s);
      var d := DigitValue(s[|s| - 1]);
      assert n == DigitsValue(p) * 10 + d;
      assert n / 10 == DigitsValue(p) && n % 10 == d;
      assert DigitChar(d) == s[|s| - 1];
      assert p + [s[|s| - 1]] == s;
    }
  }

  /** Printing and parsing are inverse on all integers and all strings. */
  lemma ParseIntExact(s: string, n: int)
    ensures ParseInt(s) == Some(n) <==> s == IntToDecimal(n)
  {
    if ParseInt(s) == Some(n) {
      if |s| > 0 && s[0] == '-' {
        CanonicalIsPrinted(s[1..]);
        assert s == "-" + s[1..];
      } else {
        CanonicalIsPrinted(s);
      }
    }
  }

  lemma IntToDecimalInjective(a: int, b: int)
    ensures IntToDecimal(a) == IntToDecimal(b) <==> a == b
  {
    if IntToDecimal(a) == IntToDecimal(b) {
      assert ParseInt(IntToDecimal(b)) == Some(a);
    }
  }
}
