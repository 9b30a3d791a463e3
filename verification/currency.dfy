/**
 * Turning a currency-formatted amount such as "$1,000.00" into an exact
 * decimal: every '$' and ',' is removed, then the rest is read as a decimal
 * numeral in the notation `new BigDecimal(String)` accepts (optional sign,
 * digits with an optional decimal point, optional exponent).
 */
module Currency {
  import opened Wrappers
  import Increments

  /** The characters removed from an amount before it is parsed. */
  predicate IsCurrencyMark(c: char) {
    c == '$' || c == ','
  }

  predicate NoCurrencyMarks(s: string) {
    forall i :: 0 <= i < |s| ==> !IsCurrencyMark(s[i])
  }

  /** Removes every '$' and ',' and keeps the other characters in order. */
  function StripCurrency(s: string): (r: string)
    ensures |r| <= |s|
    ensures NoCurrencyMarks(r)
    ensures |r| == |s| <==> NoCurrencyMarks(s)
  {
    if s == [] then []
    else if IsCurrencyMark(s[0]) then StripCurrency(s[1..])
    else [s[0]] + StripCurrency(s[1..])
  }

  /** Stripping works character by character: it distributes over concatenation. */
  lemma {:induction false} StripCurrencyConcat(a: string, b: string)
    ensures StripCurrency(a + b) == StripCurrency(a) + StripCurrency(b)
  {
    if a == [] {
      assert a + b == b;
    } else {
      assert (a + b)[0] == a[0];
      assert (a + b)[1..] == a[1..] + b;
      StripCurrencyConcat(a[1..], b);
    }
  }

  /** A string without currency marks is left as it is; hence stripping is idempotent. */
  lemma {:induction false} StripCurrencyKeepsPlain(s: string)
    requires NoCurrencyMarks(s)
    ensures StripCurrency(s) == s
  {
    if s != [] {
      StripCurrencyKeepsPlain(s[1..]);
    }
  }

  predicate IsDigit(c: char) {
    '0' <= c <= '9'
  }

  predicate AllDigits(s: string) {
    forall i :: 0 <= i < |s| ==> IsDigit(s[i])
  }

  /** The value of a string of decimal digits, most significant first. */
  function DigitsValue(s: string): nat
    requires AllDigits(s)
  {
    if s == [] then 0
    else DigitsValue(s[..|s| - 1]) * 10 + (s[|s| - 1] as int - '0' as int)
  }

  function Pow10(n: nat): (r: nat)
    ensures 1 <= r
  {
    if n == 0 then 1 else 10 * Pow10(n - 1)
  }

  /** 10 raised to an integer power, as an exact rational. */
  function Scale(e: int): (r: real)
    ensures 0.0 < r
  {
    if e >= 0 then Pow10(e) as real else 1.0 / Pow10(-e) as real
  }

  /** Position of the first character of `s` in `marks`, or |s| when there is none. */
  function IndexOf(s: string, marks: set<char>): (i: nat)
    ensures i <= |s|
    ensures i < |s| ==> s[i] in marks
    ensures forall j :: 0 <= j < i ==> s[j] !in marks
  {
    if s == [] then 0
    else if s[0] in marks then 0
    else 1 + IndexOf(s[1..], marks)
  }

  predicate HasSign(s: string) {
    |s| > 0 && (s[0] == '+' || s[0] == '-')
  }

  /** What follows an optional leading sign. */
  function Unsigned(s: string): string {
    if HasSign(s) then s[1..] else s
  }

  /** An exponent: an optional sign followed by at least one digit. */
  function ParseExponent(s: string): Option<int> {
    var digits := Unsigned(s);
    if digits == [] || !AllDigits(digits) then None
    else if HasSign(s) && s[0] == '-' then Some(-(DigitsValue(digits) as int))
    else Some(DigitsValue(digits))
  }

  /** The value of the numeral whole.fraction. */
  function FixedValue(whole: string, fraction: string): (r: real)
    requires AllDigits(whole) && AllDigits(fraction)
    ensures 0.0 <= r
  {
    DigitsValue(whole) as real + DigitsValue(fraction) as real / Pow10(|fraction|) as real
  }

  /** An integer part and a fraction part, at least one of them non-empty. */
  function ParseFixed(whole: string, fraction: string): Option<real> {
    if !AllDigits(whole) || !AllDigits(fraction) || (whole == [] && fraction == []) then None
    else Some(FixedValue(whole, fraction))
  }

  /** Digits around an optional decimal point. */
  function ParseMantissa(m: string): Option<real> {
    var point := IndexOf(m, {'.'});
    ParseFixed(m[..point], if point < |m| then m[point + 1..] else [])
  }

  /** A mantissa followed by an optional exponent introduced by 'e' or 'E'. */
  function ParseUnsigned(body: string): (r: Option<real>)
    ensures r.Some? ==> 0.0 <= r.value
  {
    var e := IndexOf(body, {'e', 'E'});
    var mantissa :- ParseMantissa(body[..e]);
    var exponent :- if e < |body| then ParseExponent(body[e + 1..]) else Some(0);
    assert 0.0 <= mantissa * Scale(exponent) by {
      Increments.MulMonotone(0.0, mantissa, Scale(exponent));
    }
    Some(mantissa * Scale(exponent))
  }

  /**
   * A decimal numeral: an optional sign, then an integer part and a fraction
   * part around an optional point (at least one of them non-empty), then an
   * optional exponent. None stands for NumberFormatException.
   */
  function ParseDecimal(s: string): (r: Option<real>)
    // only a leading '-' makes an amount negative
    ensures r.Some? && r.value < 0.0 ==> HasSign(s) && s[0] == '-'
  {
    var magnitude :- ParseUnsigned(Unsigned(s));
    Some(if HasSign(s) && s[0] == '-' then -magnitude else magnitude)
  }

  /** A plain run of digits denotes its natural value. */
  lemma ParseDigits(s: string)
    requires s != [] && AllDigits(s)
    ensures ParseDecimal(s) == Some(DigitsValue(s) as real)
  {
    IndexOfAbsent(s, {'e', 'E'});
    IndexOfAbsent(s, {'.'});
    assert s[..|s|] == s;
    assert ParseMantissa(s) == ParseFixed(s, []);
    assert Scale(0) == 1.0;
  }

  /** A fixed-point numeral "whole.fraction" denotes whole + fraction / 10^|fraction|. */
  lemma ParseFixedPoint(whole: string, fraction: string)
    requires AllDigits(whole) && AllDigits(fraction)
    requires whole != [] || fraction != []
    ensures ParseDecimal(whole + "." + fraction) == Some(FixedValue(whole, fraction))
  {
    var s := whole + "." + fraction;
    forall i | 0 <= i < |s| ensures s[i] !in {'e', 'E'} {
      if i < |whole| {
        assert s[i] == whole[i];
      } else if i > |whole| {
        assert s[i] == fraction[i - |whole| - 1];
      }
    }
    assert s[0] == if whole != [] then whole[0] else '.';
    PlainNumeral(s);
    FixedPointMantissa(whole, fraction);
  }

  lemma FixedPointMantissa(whole: string, fraction: string)
    requires AllDigits(whole)
    ensures ParseMantissa(whole + "." + fraction) == ParseFixed(whole, fraction)
  {
    var s := whole + "." + fraction;
    assert s[..|whole|] == whole;
    IndexOfPrefix(s, |whole|, {'.'});
    assert s[|whole| + 1..] == fraction;
  }

  /** An unsigned numeral without exponent is read as its mantissa. */
  lemma PlainNumeral(s: string)
    requires !HasSign(s)
    requires forall i :: 0 <= i < |s| ==> s[i] !in {'e', 'E'}
    ensures ParseDecimal(s) == ParseMantissa(s)
  {
    IndexOfAbsent(s, {'e', 'E'});
    assert s[..|s|] == s;
    assert Scale(0) == 1.0;
  }

  /** A leading '-' negates an unsigned numeral, and a malformed one stays malformed. */
  lemma ParseNegated(s: string)
    requires s != [] && s[0] != '+' && s[0] != '-'
    ensures ParseDecimal(s).Some? ==> ParseDecimal("-" + s) == Some(-ParseDecimal(s).value)
    ensures ParseDecimal(s).None? ==> ParseDecimal("-" + s).None?
  {
    var t := "-" + s;
    assert t[0] == '-' && t[1..] == s;
    assert HasSign(t) && !HasSign(s);
    assert Unsigned(t) == s && Unsigned(s) == s;
    assert ParseDecimal(s) == ParseUnsigned(s);
  }

  lemma IndexOfPrefix(s: string, n: nat, marks: set<char>)
    requires n < |s| && s[n] in marks
    requires forall i :: 0 <= i < n ==> s[i] !in marks
    ensures IndexOf(s, marks) == n
  {
  }

  lemma IndexOfAbsent(s: string, marks: set<char>)
    requires forall i :: 0 <= i < |s| ==> s[i] !in marks
    ensures IndexOf(s, marks) == |s|
  {
  }

  /** How a currency-formatted amount is read: strip, then parse. */
  function ParseAmount(raw: string): (r: Option<real>)
    // an amount written without '$' or ',' is read as a plain numeral
    ensures NoCurrencyMarks(raw) ==> r == ParseDecimal(raw)
  {
    if NoCurrencyMarks(raw) then StripCurrencyKeepsPlain(raw); ParseDecimal(StripCurrency(raw))
    else ParseDecimal(StripCurrency(raw))
  }
}
