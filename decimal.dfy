/**
 * The check behind @Digits(integer=3, fraction=0) on a String: Hibernate
 * Validator parses the text with java.math.BigDecimal(String) (a parse error
 * makes it invalid) and compares precision - scale with the integer bound and
 * max(0, scale) with the fraction bound. Only the precision and the scale of
 * the parsed number matter, so that is all the parse below keeps.
 */
module Decimal {
  import opened Text
  import opened Optional

  /** precision(): significant digits of the unscaled value (1 for zero); scale(): digits after the point, minus the exponent. */
  datatype Shape = Shape(precision: nat, scale: int)

  predicate IsSign(c: char) {
    c == '+' || c == '-'
  }

  predicate IsExponentMark(c: char) {
    c == 'e' || c == 'E'
  }

  /** The position of the first exponent mark, or |s| when there is none. */
  function ExponentIndex(s: string): (r: nat)
    ensures r <= |s|
    ensures r < |s| ==> IsExponentMark(s[r])
    ensures forall i :: 0 <= i < r ==> !IsExponentMark(s[i])
  {
    if s == [] then 0 else if IsExponentMark(s[0]) then 0 else 1 + ExponentIndex(s[1..])
  }

  /** The position of the first decimal point, or |s| when there is none. */
  function PointIndex(s: string): (r: nat)
    ensures r <= |s|
    ensures r < |s| ==> s[r] == '.'
    ensures forall i :: 0 <= i < r ==> s[i] != '.'
  {
    if s == [] then 0 else if s[0] == '.' then 0 else 1 + PointIndex(s[1..])
  }

  /** The digits left once the leading zeros are dropped. */
  function StripLeadingZeros(s: string): (r: string)
    ensures |r| <= |s| && r == s[|s| - |r|..]
    ensures forall i :: 0 <= i < |s| - |r| ==> s[i] == '0'
    ensures r == [] || r[0] != '0'
  {
    if |s| > 0 && s[0] == '0' then StripLeadingZeros(s[1..]) else s
  }

  function Pow10(n: nat): (r: nat)
    ensures r >= 1
  {
    if n == 0 then 1 else 10 * Pow10(n - 1)
  }

  /**
   * BigDecimal's precision for the digit string of the unscaled value: the
   * number of decimal digits of that value, and 1 when it is zero.
   */
  function Precision(digits: string): (r: nat)
    ensures r >= 1
    ensures AllDigits(digits) ==> DecimalValue(digits) < Pow10(r)
    ensures AllDigits(digits) ==> DecimalValue(digits) == 0 || Pow10(r - 1) <= DecimalValue(digits)
    ensures AllDigits(digits) && DecimalValue(digits) == 0 ==> r == 1
  {
    var significant := StripLeadingZeros(digits);
    SignificantDigitsValue(digits);
    if significant == [] then 1 else |significant|
  }

  /** Appending digits b shifts the value of a by |b| places. */
  lemma {:induction false} DecimalConcat(a: string, b: string)
    requires AllDigits(a) && AllDigits(b)
    ensures AllDigits(a + b)
    ensures DecimalValue(a + b) == DecimalValue(a) * Pow10(|b|) + DecimalValue(b)
    decreases |b|
  {
    if b == [] {
      assert a + b == a;
    } else {
      var front := b[..|b| - 1];
      var ab := a + b;
      assert ab[..|ab| - 1] == a + front;
      assert ab[|ab| - 1] == b[|b| - 1];
      DecimalConcat(a, front);
      var va, vf, p, d := DecimalValue(a), DecimalValue(front), Pow10(|front|), DigitValue(b[|b| - 1]);
      assert DecimalValue(ab) == 10 * (va * p + vf) + d;
      assert DecimalValue(b) == 10 * vf + d;
      assert Pow10(|b|) == 10 * p;
      ShiftDistributes(va, p, vf);
    }
  }

  lemma ShiftDistributes(x: nat, y: nat, z: nat)
    ensures 10 * (x * y + z) == x * (10 * y) + 10 * z
  {
  }

  /** Digits strings of length n are worth less than 10^n. */
  lemma {:induction false} DecimalBelowPow10(s: string)
    requires AllDigits(s)
    ensures DecimalValue(s) < Pow10(|s|)
    decreases |s|
  {
    if s != [] {
      var front := s[..|s| - 1];
      assert AllDigits(front);
      DecimalBelowPow10(front);
    }
  }

  /** A string of zeros is worth zero. */
  lemma {:induction false} ZerosValue(s: string)
    requires forall i :: 0 <= i < |s| ==> s[i] == '0'
    ensures AllDigits(s) && DecimalValue(s) == 0
    decreases |s|
  {
    if s != [] {
      ZerosValue(s[..|s| - 1]);
    }
  }

  /** A string of digits led by a non-zero digit is worth at least 10^(n-1). */
  lemma LeadingDigitValue(s: string)
    requires |s| > 0 && AllDigits(s) && s[0] != '0'
    ensures Pow10(|s| - 1) <= DecimalValue(s)
  {
    var first, rest := [s[0]], s[1..];
    assert s == first + rest;
    assert first[..0] == [];
    assert DecimalValue(first) == DigitValue(s[0]) >= 1;
    DecimalConcat(first, rest);
  }

  /** Leading zeros are worth nothing: the value is that of the significant digits. */
  lemma SignificantDigitsValue(digits: string)
    ensures var significant := StripLeadingZeros(digits);
      AllDigits(digits) ==>
        && AllDigits(significant)
        && DecimalValue(digits) == DecimalValue(significant)
        && (significant == [] <==> DecimalValue(digits) == 0)
        && DecimalValue(significant) < Pow10(|significant|)
        && (significant != [] ==> Pow10(|significant| - 1) <= DecimalValue(significant))
  {
    var significant := StripLeadingZeros(digits);
    if AllDigits(digits) {
      var zeros := digits[..|digits| - |significant|];
      assert digits == zeros + significant;
      ZerosValue(zeros);
      DecimalConcat(zeros, significant);
      DecimalBelowPow10(significant);
      if significant != [] {
        LeadingDigitValue(significant);
      }
    }
  }

  /** The exponent after an 'e' or 'E': an optional sign, then at least one digit. */
  function ParseExponent(t: string): (r: Option<int>)
    ensures r.Some? <==> (var digits := if |t| > 0 && IsSign(t[0]) then t[1..] else t;
                          |digits| > 0 && AllDigits(digits))
  {
    var negative := |t| > 0 && t[0] == '-';
    var digits := if |t| > 0 && IsSign(t[0]) then t[1..] else t;
    if |digits| > 0 && AllDigits(digits)
    then var magnitude: int := DecimalValue(digits); Some(if negative then -magnitude else magnitude)
    else None
  }

  /** The text after an optional leading sign. */
  function Unsigned(s: string): string {
    if |s| > 0 && IsSign(s[0]) then s[1..] else s
  }

  /**
   * new BigDecimal(s): an optional sign, digits with at most one '.', at
   * least one digit, then optionally an exponent; anything else is a
   * NumberFormatException, here None.
   */
  function Parse(s: string): Option<Shape> {
    var body := Unsigned(s);
    var e := ExponentIndex(body);
    if e == |body| then ParseMantissa(body, 0)
    else match ParseExponent(body[e + 1..])
      case None => None
      case Some(exponent) => ParseMantissa(body[..e], exponent)
  }

  /** The digits before the exponent: an integer part, optionally '.' and a fraction, one digit at least. */
  function ParseMantissa(mantissa: string, exponent: int): Option<Shape> {
    var p := PointIndex(mantissa);
    var integerPart := mantissa[..p];
    var fraction := if p < |mantissa| then mantissa[p + 1..] else "";
    if AllDigits(integerPart) && AllDigits(fraction) && |integerPart| + |fraction| > 0
    then Some(Shape(Precision(integerPart + fraction), |fraction| - exponent))
    else None
  }

  /** DigitsValidatorForCharSequence.isValid: null passes; otherwise parse, then bound both parts. */
  predicate DigitsValid(s: Option<string>, maxInteger: nat, maxFraction: nat) {
    match s
    case None => true
    case Some(text) =>
      match Parse(text)
      case None => false
      case Some(shape) =>
        shape.precision - shape.scale <= maxInteger
        && (if shape.scale < 0 then 0 else shape.scale) <= maxFraction
  }

  /** A plain run of digits parses to scale 0 and the precision of its significant digits. */
  lemma PlainDigitsShape(s: string)
    requires |s| > 0 && AllDigits(s)
    ensures Parse(s) == Some(Shape(Precision(s), 0))
  {
    assert !IsSign(s[0]);
    assert Unsigned(s) == s;
    NoMarks(s);
    assert s[..|s|] == s;
    assert s + "" == s;
  }

  lemma NoMarks(s: string)
    requires AllDigits(s)
    ensures ExponentIndex(s) == |s| && PointIndex(s) == |s|
  {
  }

  /** The sign is read off before anything else and changes neither precision nor scale. */
  lemma SignIgnored(sign: char, s: string)
    requires IsSign(sign)
    requires s == [] || !IsSign(s[0])
    ensures Parse([sign] + s) == Parse(s)
  {
    assert Unsigned([sign] + s) == s == Unsigned(s);
  }

  /**
   * For a run of digits, @Digits(integer=3, fraction=0) holds iff at most
   * three digits remain once leading zeros are dropped: an upper bound, so
   * one- and two-digit values pass.
   */
  lemma PlainDigitsValidIff(s: string)
    requires |s| > 0 && AllDigits(s)
    ensures DigitsValid(Some(s), 3, 0) <==> |StripLeadingZeros(s)| <= 3
  {
    PlainDigitsShape(s);
  }

  /** A fraction digit after the point gives scale >= 1, which fraction=0 rejects. */
  lemma FractionRejected(integerPart: string, fraction: string)
    requires AllDigits(integerPart) && AllDigits(fraction) && |fraction| > 0
    ensures !DigitsValid(Some(integerPart + "." + fraction), 3, 0)
  {
    var s := integerPart + "." + fraction;
    PointSplit(integerPart, fraction);
    assert s[..|s|] == s;
    assert ParseMantissa(s, 0) == Some(Shape(Precision(integerPart + fraction), |fraction|));
  }

  /** Digits, one point, digits: unsigned, no exponent, and the point splits the two runs. */
  lemma PointSplit(integerPart: string, fraction: string)
    requires AllDigits(integerPart) && AllDigits(fraction)
    ensures var s := integerPart + "." + fraction;
      && Unsigned(s) == s && ExponentIndex(s) == |s| && PointIndex(s) == |integerPart|
      && s[..|integerPart|] == integerPart && s[|integerPart| + 1..] == fraction
  {
    var s := integerPart + "." + fraction;
    if |integerPart| > 0 {
      assert !IsSign(s[0]) by { assert s[0] == integerPart[0]; }
    } else {
      assert s[0] == '.';
    }
    NoExponentAroundPoint(integerPart, fraction);
    assert ExponentIndex(s) == |s|;
    NoMarks(integerPart);
    assert PointIndex(s) == |integerPart| by {
      assert s[|integerPart|] == '.';
      assert forall i :: 0 <= i < |integerPart| ==> s[i] == integerPart[i];
    }
    assert s[..|integerPart|] == integerPart;
    assert s[|integerPart| + 1..] == fraction;
  }

  lemma NoExponentAroundPoint(integerPart: string, fraction: string)
    requires AllDigits(integerPart) && AllDigits(fraction)
    ensures var s := integerPart + "." + fraction; forall i :: 0 <= i < |s| ==> !IsExponentMark(s[i])
  {
    var s := integerPart + "." + fraction;
    forall i | 0 <= i < |s| ensures !IsExponentMark(s[i]) {
      if i < |integerPart| {
        assert s[i] == integerPart[i];
      } else if i > |integerPart| {
        assert s[i] == fraction[i - |integerPart| - 1];
      }
    }
  }

  /** Three digits pass, and so do fewer: the bound is not an exact length. */
  lemma CvvUpToThreeDigits()
    ensures DigitsValid(Some("123"), 3, 0) && DigitsValid(Some("12"), 3, 0) && DigitsValid(Some("7"), 3, 0)
  {
    assert AllDigits("123") && AllDigits("12") && AllDigits("7");
    PlainDigitsValidIff("123");
    PlainDigitsValidIff("12");
    PlainDigitsValidIff("7");
  }

  /** Four significant digits fail; a leading zero does not count. */
  lemma CvvFourDigits()
    ensures !DigitsValid(Some("1234"), 3, 0) && DigitsValid(Some("0123"), 3, 0)
  {
    assert AllDigits("1234") && AllDigits("0123");
    assert StripLeadingZeros("1234") == "1234";
    assert "0123"[1..] == "123";
    assert StripLeadingZeros("0123") == "123";
    PlainDigitsValidIff("1234");
    PlainDigitsValidIff("0123");
  }

  /** A leading sign is accepted and ignored. */
  lemma CvvSignSample()
    ensures DigitsValid(Some("-12"), 3, 0)
  {
    assert AllDigits("12");
    PlainDigitsValidIff("12");
    SignIgnored('-', "12");
    assert "-12" == ['-'] + "12";
  }

  /** A point with no fraction digits after it changes nothing. */
  lemma TrailingPointIgnored(s: string)
    requires |s| > 0 && AllDigits(s)
    ensures Parse(s + ".") == Parse(s)
  {
    var t := s + ".";
    assert t[0] == s[0] && Unsigned(t) == t;
    assert forall i :: 0 <= i < |t| ==> !IsExponentMark(t[i]) by {
      forall i | 0 <= i < |t| ensures !IsExponentMark(t[i]) {
        if i < |s| {
          assert t[i] == s[i];
        }
      }
    }
    assert ExponentIndex(t) == |t|;
    assert PointIndex(t) == |s| by {
      assert t[|s|] == '.';
      assert forall i :: 0 <= i < |s| ==> t[i] == s[i];
    }
    assert t[..|s|] == s && t[|s| + 1..] == "" && s + "" == s;
    PlainDigitsShape(s);
  }

  /** An exponent digit after a run of digits keeps the precision and lowers the scale by its value. */
  lemma ExponentShift(s: string, e: char)
    requires |s| > 0 && AllDigits(s) && IsDigit(e)
    ensures Parse(s + "E" + [e]) == Some(Shape(Precision(s), 0 - DigitValue(e) as int))
  {
    var t := s + "E" + [e];
    ExponentSplit(s, e);
    ParseAtExponent(t, |s|);
    ExponentDigit(e);
    MantissaDigits(s, DigitValue(e) as int);
  }

  lemma ExponentSplit(s: string, e: char)
    requires |s| > 0 && AllDigits(s)
    ensures Unsigned(s + "E" + [e]) == s + "E" + [e]
    ensures ExponentIndex(s + "E" + [e]) == |s|
    ensures (s + "E" + [e])[..|s|] == s && (s + "E" + [e])[|s| + 1..] == [e]
  {
    var t := s + "E" + [e];
    assert t[0] == s[0];
    assert t[|s|] == 'E';
    assert forall i :: 0 <= i < |s| ==> t[i] == s[i];
  }

  lemma ParseAtExponent(body: string, i: nat)
    requires Unsigned(body) == body && i < |body| && ExponentIndex(body) == i
    ensures Parse(body) == match ParseExponent(body[i + 1..])
      case None => None
      case Some(x) => ParseMantissa(body[..i], x)
  {
  }

  lemma ExponentDigit(e: char)
    requires IsDigit(e)
    ensures ParseExponent([e]) == Some(DigitValue(e) as int)
  {
    assert [e][..0] == [];
    assert DecimalValue([e]) == DigitValue(e);
  }

  lemma MantissaDigits(s: string, exponent: int)
    requires |s| > 0 && AllDigits(s)
    ensures ParseMantissa(s, exponent) == Some(Shape(Precision(s), 0 - exponent))
  {
    NoMarks(s);
    assert s[..|s|] == s && s + "" == s;
  }

  /** "12." passes like "12"; one fraction digit, even a zero, fails. */
  lemma CvvPointSamples()
    ensures DigitsValid(Some("12."), 3, 0) && !DigitsValid(Some("1.0"), 3, 0)
  {
    FractionRejected("1", "0");
    assert "1" + "." + "0" == "1.0";
    TwoDigitsAndPoint("12.");
  }

  lemma TwoDigitsAndPoint(t: string)
    requires |t| == 3 && IsDigit(t[0]) && t[0] != '0' && IsDigit(t[1]) && t[2] == '.'
    ensures DigitsValid(Some(t), 3, 0)
  {
    var s := t[..2];
    assert AllDigits(s) && StripLeadingZeros(s) == s;
    assert t == s + ".";
    TrailingPointIgnored(s);
    PlainDigitsValidIff(s);
  }

  /** With one exponent digit, @Digits(integer=3, fraction=0) holds iff precision plus exponent is at most three. */
  lemma ExponentValidIff(s: string, e: char)
    requires |s| > 0 && AllDigits(s) && IsDigit(e)
    ensures DigitsValid(Some(s + "E" + [e]), 3, 0) <==> Precision(s) + DigitValue(e) as int <= 3
  {
    ExponentShift(s, e);
  }

  /** An exponent moves digits into the integer part: 1E2 is 100 and passes, 1E3 is 1000 and fails. */
  lemma CvvExponentSamples()
    ensures DigitsValid(Some("1E2"), 3, 0) && !DigitsValid(Some("1E3"), 3, 0)
  {
    OneWithExponent("1E2", '2');
    OneWithExponent("1E3", '3');
  }

  lemma OneWithExponent(t: string, e: char)
    requires IsDigit(e) && t == ['1', 'E', e]
    ensures DigitsValid(Some(t), 3, 0) <==> DigitValue(e) <= 2
  {
    var one := ['1'];
    assert AllDigits(one) && StripLeadingZeros(one) == one;
    assert t == one + "E" + [e];
    ExponentValidIff(one, e);
  }

  /** Text that is not a number fails, and null passes. */
  lemma CvvMalformedSamples()
    ensures !DigitsValid(Some(""), 3, 0) && !DigitsValid(Some("abc"), 3, 0) && !DigitsValid(Some(" 123"), 3, 0)
    ensures DigitsValid(None, 3, 0)
  {
    NotANumber("abc");
    NotANumber(" 123");
  }

  /** Without a point or an exponent, a first character that is neither a digit nor a sign is a parse error. */
  lemma NotANumber(s: string)
    requires |s| > 0 && !IsDigit(s[0]) && !IsSign(s[0])
    requires forall i :: 0 <= i < |s| ==> s[i] != '.' && !IsExponentMark(s[i])
    ensures Parse(s) == None
  {
    assert Unsigned(s) == s;
    assert ExponentIndex(s) == |s| && PointIndex(s) == |s|;
    assert s[..|s|] == s;
  }
}
