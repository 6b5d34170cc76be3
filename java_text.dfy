/**
 * The parts of the Java platform the cursor relies on to turn text into values:
 * case-insensitive comparison (String.equalsIgnoreCase), signed decimal parsing
 * with a range check (Byte/Short/Integer/Long.valueOf), decimal rendering
 * (Integer.toString) and Boolean.valueOf.  Only ASCII letters have a case and
 * only ASCII digits are digits.
 */
module JavaText {
  import opened Wrappers

  const ByteMin: int := -0x80
  const ByteMax: int := 0x7F
  const ShortMin: int := -0x8000
  const ShortMax: int := 0x7FFF
  const IntMin: int := -0x8000_0000
  const IntMax: int := 0x7FFF_FFFF
  const LongMin: int := -0x8000_0000_0000_0000
  const LongMax: int := 0x7FFF_FFFF_FFFF_FFFF

  /** A Java int. */
  type Int32 = i: int | IntMin <= i <= IntMax

  // ---------------------------------------------------------------- case

  function ToUpperCase(c: char): char {
    if 'a' <= c <= 'z' then (c as int - 32) as char else c
  }

  function ToLowerCase(c: char): char {
    if 'A' <= c <= 'Z' then (c as int + 32) as char else c
  }

  /** The per-character test of String.regionMatches with ignoreCase set. */
  predicate CharsMatchIgnoringCase(a: char, b: char) {
    a == b
    || ToUpperCase(a) == ToUpperCase(b)
    || ToLowerCase(ToUpperCase(a)) == ToLowerCase(ToUpperCase(b))
  }

  predicate EqualsIgnoreCase(a: string, b: string) {
    |a| == |b| && forall i | 0 <= i < |a| :: CharsMatchIgnoringCase(a[i], b[i])
  }

  function LowerCase(s: string): string {
    seq(|s|, i requires 0 <= i < |s| => ToLowerCase(s[i]))
  }

  lemma CharsMatchIffSameLowerCase(a: char, b: char)
    ensures CharsMatchIgnoringCase(a, b) <==> ToLowerCase(a) == ToLowerCase(b)
  {
  }

  /** Two strings are equal ignoring case exactly when their lower-case forms are equal. */
  lemma EqualsIgnoreCaseIffSameLowerCase(a: string, b: string)
    ensures EqualsIgnoreCase(a, b) <==> LowerCase(a) == LowerCase(b)
  {
    if EqualsIgnoreCase(a, b) {
      forall i | 0 <= i < |a| ensures LowerCase(a)[i] == LowerCase(b)[i] {
        CharsMatchIffSameLowerCase(a[i], b[i]);
      }
    }
    if LowerCase(a) == LowerCase(b) {
      forall i | 0 <= i < |a| ensures CharsMatchIgnoringCase(a[i], b[i]) {
        assert LowerCase(a)[i] == LowerCase(b)[i];
        CharsMatchIffSameLowerCase(a[i], b[i]);
      }
    }
  }

  /** equalsIgnoreCase is an equivalence relation. */
  lemma EqualsIgnoreCaseIsEquivalence(a: string, b: string, c: string)
    ensures EqualsIgnoreCase(a, a)
    ensures EqualsIgnoreCase(a, b) ==> EqualsIgnoreCase(b, a)
    ensures EqualsIgnoreCase(a, b) && EqualsIgnoreCase(b, c) ==> EqualsIgnoreCase(a, c)
  {
    EqualsIgnoreCaseIffSameLowerCase(a, a);
    EqualsIgnoreCaseIffSameLowerCase(a, b);
    EqualsIgnoreCaseIffSameLowerCase(b, a);
    EqualsIgnoreCaseIffSameLowerCase(b, c);
    EqualsIgnoreCaseIffSameLowerCase(a, c);
  }

  // ---------------------------------------------------------------- decimal

  predicate IsDigit(c: char) { '0' <= c <= '9' }

  predicate AllDigits(s: string) { forall i | 0 <= i < |s| :: IsDigit(s[i]) }

  function DigitValue(c: char): nat
    requires IsDigit(c)
  {
    c as int - '0' as int
  }

  function DigitChar(d: nat): char
    requires d < 10
  {
    ('0' as int + d) as char
  }

  /** The value of a string of decimal digits, most significant first. */
  function DigitsValue(s: string): nat
    requires AllDigits(s)
    decreases |s|
  {
    if s == [] then 0 else DigitsValue(s[..|s| - 1]) * 10 + DigitValue(s[|s| - 1])
  }

  /**
   * Integer.parseInt / Long.parseLong in radix 10 before the range check: an
   * optional '-' or '+' followed by at least one digit.
   */
  function ParseDecimal(s: string): Option<int> {
    if |s| == 0 then None
    else if s[0] == '-' || s[0] == '+' then
      if |s| > 1 && AllDigits(s[1..]) then
        var v: int := DigitsValue(s[1..]); Some(if s[0] == '-' then -v else v)
      else None
    else if AllDigits(s) then Some(DigitsValue(s))
    else None
  }

  /** valueOf for an integral type whose values are lo..hi; None is a NumberFormatException. */
  function ParseIntegral(s: string, lo: int, hi: int): (r: Option<int>)
    ensures r.Some? ==> lo <= r.value <= hi
    ensures r.Some? <==> ParseDecimal(s).Some? && lo <= ParseDecimal(s).value <= hi
    ensures r.Some? ==> r.value == ParseDecimal(s).value
  {
    match ParseDecimal(s)
    case Some(v) => if lo <= v <= hi then Some(v) else None
    case None => None
  }

  /** The decimal rendering of a natural number, without leading zeros. */
  function NatText(n: nat): string
    decreases n
  {
    if n < 10 then [DigitChar(n)] else NatText(n / 10) + [DigitChar(n % 10)]
  }

  /** Integer.toString / Long.toString. */
  function DecimalText(n: int): string {
    if n < 0 then "-" + NatText(-n) else NatText(n)
  }

  lemma {:induction false} DigitsValueSnoc(s: string, c: char)
    requires AllDigits(s) && IsDigit(c)
    ensures AllDigits(s + [c])
    ensures DigitsValue(s + [c]) == DigitsValue(s) * 10 + DigitValue(c)
  {
    assert (s + [c])[..|s|] == s;
  }

  lemma {:induction false} NatTextDigits(n: nat)
    ensures |NatText(n)| > 0 && AllDigits(NatText(n))
    ensures DigitsValue(NatText(n)) == n
    ensures NatText(n)[0] != '0' || n == 0
    decreases n
  {
    if n >= 10 {
      NatTextDigits(n / 10);
      DigitsValueSnoc(NatText(n / 10), DigitChar(n % 10));
    }
  }

  /** Parsing the rendering of any integer gives that integer back. */
  lemma ParseDecimalText(n: int)
    ensures ParseDecimal(DecimalText(n)) == Some(n)
  {
    var d := NatText(if n < 0 then -n else n);
    NatTextDigits(if n < 0 then -n else n);
    if n < 0 {
      assert DecimalText(n)[1..] == d;
    }
  }

  /** valueOf accepts the rendering of n exactly when n lies in the type's range. */
  lemma ParseIntegralText(n: int, lo: int, hi: int)
    ensures ParseIntegral(DecimalText(n), lo, hi) == if lo <= n <= hi then Some(n) else None
  {
    ParseDecimalText(n);
  }

  /** A decimal as Integer.toString writes it: no '+', no leading zero, no "-0". */
  predicate IsCanonicalDecimal(s: string) {
    var digits := if |s| > 0 && s[0] == '-' then s[1..] else s;
    |digits| > 0 && AllDigits(digits) && (digits[0] != '0' || (|digits| == 1 && digits == s))
  }

  lemma {:induction false} NatTextOfDigits(d: string)
    requires |d| > 0 && AllDigits(d) && (d[0] != '0' || |d| == 1)
    ensures NatText(DigitsValue(d)) == d
    ensures d[0] != '0' ==> DigitsValue(d) > 0
    decreases |d|
  {
    var init := d[..|d| - 1];
    if |d| > 1 {
      assert init[0] == d[0];
      NatTextOfDigits(init);
      var v := DigitsValue(d);
      assert v / 10 == DigitsValue(init) && v % 10 == DigitValue(d[|d| - 1]);
      assert d == init + [d[|d| - 1]];
    }
  }

  /**
   * The converse round trip: a canonical decimal is the rendering of the number
   * it parses to, so canonical text and integers are in one-to-one correspondence.
   */
  lemma CanonicalDecimalText(s: string)
    requires IsCanonicalDecimal(s)
    ensures ParseDecimal(s).Some? && DecimalText(ParseDecimal(s).value) == s
  {
    if s[0] == '-' {
      var d := s[1..];
      NatTextOfDigits(d);
      assert s == "-" + d;
    } else {
      NatTextOfDigits(s);
    }
  }

  // ---------------------------------------------------------------- boolean

  /** Boolean.valueOf(String): true exactly for "true" in any mix of cases; never fails. */
  function ParseBoolean(s: string): (b: bool)
    ensures b <==> LowerCase(s) == "true"
  {
    EqualsIgnoreCaseIffSameLowerCase("true", s);
    assert LowerCase("true") == "true";
    EqualsIgnoreCase("true", s)
  }
}
