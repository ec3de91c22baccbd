/** `str::parse::<f64>`: the text grammar and the correctly rounded value. */
module Floats {

  import opened Wrappers
  import opened Text
  import opened Binary64

  function Pow10(n: nat): (p: nat)
    ensures p >= 1
  {
    if n == 0 then 1 else 10 * Pow10(n - 1)
  }

  function Product(x: real, n: nat): (r: real)
    requires x >= 0.0
    ensures r >= 0.0
  {
    x * n as real
  }

  function Ratio(x: real, n: nat): (r: real)
    requires x >= 0.0 && n >= 1
    ensures r >= 0.0 && r * n as real == x
  {
    x / n as real
  }

  /** Exact value of digits with at most one point among them and at least one digit. */
  function Numeral(s: string): (d: Option<real>)
    ensures d.Some? ==> d.value >= 0.0
  {
    var n := IndexOf(s, '.');
    var whole := s[..n];
    var fraction := if n < |s| then s[n + 1..] else "";
    if AllDigits(whole) && AllDigits(fraction) && whole + fraction != "" then
      Some(Ratio(DigitsValue(whole + fraction) as real, Pow10(|fraction|)))
    else None
  }

  /** Equality with a lower-case name, up to the case of ASCII letters. */
  predicate Named(s: string, name: string) {
    |s| == |name| && (s == "" || (LowerAscii(s[0]) == name[0] && Named(s[1..], name[1..])))
  }

  function LowerAscii(c: char): char {
    if 'A' <= c <= 'Z' then (c as int + 32) as char else c
  }

  /** Position of the exponent mark, or the length of `s`. */
  function ExponentMark(s: string): (n: nat)
    ensures n <= |s|
  {
    var e, upper := IndexOf(s, 'e'), IndexOf(s, 'E');
    if e < upper then e else upper
  }

  /** A signed run of digits. */
  function SignedInteger(s: string): Option<int> {
    var body := if s != "" && (s[0] == '+' || s[0] == '-') then s[1..] else s;
    if body == "" || !AllDigits(body) then None
    else Some(if s[0] == '-' then -(DigitsValue(body) as int) else DigitsValue(body))
  }

  /** Decimal notation without a sign: a numeral and an optional power of ten. */
  function Magnitude(s: string): (d: Option<real>)
    ensures d.Some? ==> d.value >= 0.0
  {
    var n := ExponentMark(s);
    if n == |s| then Numeral(s) else
    var mantissa, exponent := Numeral(s[..n]), SignedInteger(s[n + 1..]);
    if mantissa.None? || exponent.None? then None
    else if exponent.value >= 0 then Some(Product(mantissa.value, Pow10(exponent.value)))
    else Some(Ratio(mantissa.value, Pow10(-exponent.value)))
  }

  function ParseF64(s: string): Option<F64> {
    var negative := s != "" && s[0] == '-';
    var body := if s != "" && (s[0] == '+' || s[0] == '-') then s[1..] else s;
    if Named(body, "inf") || Named(body, "infinity") then Some(Infinite(negative))
    else if Named(body, "nan") then Some(NaN)
    else match Magnitude(body)
      case None => None
      case Some(x) => Some(FromReal(negative, x))
  }

  predicate IsNumericChar(c: char) {
    IsDigit(c) || c == '.'
  }

  predicate AllNumeric(s: string) {
    forall i :: 0 <= i < |s| ==> IsNumericChar(s[i])
  }

  /** Text made of digits and points has neither sign, exponent nor name. */
  lemma {:induction false} ParseNumeric(s: string)
    requires AllNumeric(s)
    ensures ParseF64(s) == match Numeral(s) case None => None case Some(x) => Some(FromReal(false, x))
  {
    IndexOfIs(s, 'e', |s|);
    IndexOfIs(s, 'E', |s|);
    if s != "" {
      assert IsNumericChar(s[0]);
    }
  }

  /** A sign in front: plus changes nothing, minus the sign of the value. */
  lemma {:induction false} ParseSigned(s: string)
    requires s != "" && IsNumericChar(s[0])
    ensures ParseF64("+" + s) == ParseF64(s)
    ensures ParseF64("-" + s) == match Magnitude(s) case None => None case Some(x) => Some(FromReal(true, x))
    ensures ParseF64(s) == match Magnitude(s) case None => None case Some(x) => Some(FromReal(false, x))
  {
    assert ("+" + s)[1..] == s && ("-" + s)[1..] == s;
  }

  lemma {:induction false} MarkAfter(s: string, mark: char, exponent: string)
    requires AllNumeric(s) && mark in {'e', 'E'}
    ensures ExponentMark(s + [mark] + exponent) == |s|
  {
    var t := s + [mark] + exponent;
    forall i | 0 <= i < |s| ensures t[i] != 'e' && t[i] != 'E' { assert IsNumericChar(s[i]); }
    IndexOfIs(t, mark, |s|);
    IndexOfFirst(t, 'e');
    IndexOfFirst(t, 'E');
    assert t[|s|] == mark;
    assert IndexOf(t, 'e') >= |s| && IndexOf(t, 'E') >= |s|;
  }

  lemma {:induction false} MagnitudeAt(s: string, mark: char, exponent: string)
    requires AllNumeric(s) && Numeral(s).Some? && mark in {'e', 'E'} && SignedInteger(exponent).Some?
    ensures Magnitude(s + [mark] + exponent) == Some(
      if SignedInteger(exponent).value >= 0 then Product(Numeral(s).value, Pow10(SignedInteger(exponent).value))
      else Ratio(Numeral(s).value, Pow10(-SignedInteger(exponent).value)))
  {
    MarkAfter(s, mark, exponent);
    hide Numeral, ExponentMark, SignedInteger;
    var t := s + [mark] + exponent;
    assert t[..|s|] == s && t[|s| + 1..] == exponent;
  }

  lemma {:induction false} SignedDecimal(k: nat)
    ensures SignedInteger(Decimal(k)) == SignedInteger("+" + Decimal(k)) == Some(k)
    ensures SignedInteger("-" + Decimal(k)).Some? && SignedInteger("-" + Decimal(k)).value == 0 - k
  {
    DecimalRoundTrip(k);
    assert IsDigit(Decimal(k)[0]);
    hide Decimal;
    assert ("+" + Decimal(k))[1..] == Decimal(k) && ("-" + Decimal(k))[1..] == Decimal(k);
  }

  /** Dividing by a power undoes multiplying by it. */
  lemma {:induction false} ProductUndone(x: real, n: nat)
    requires x >= 0.0 && n >= 1
    ensures Ratio(Product(x, n), n) == x
  {
  }

  lemma {:induction false} PowerZero(x: real)
    requires x >= 0.0
    ensures Pow10(0) == 1 && Product(x, 1) == Ratio(x, 1)
  {
  }

  /** An exponent multiplies or divides by that power of ten. */
  lemma {:induction false} ParseScientific(s: string, mark: char, k: nat)
    requires AllNumeric(s) && Numeral(s).Some? && mark in {'e', 'E'}
    ensures Magnitude(s + [mark] + Decimal(k)) == Some(Product(Numeral(s).value, Pow10(k)))
    ensures Magnitude(s + [mark] + ("+" + Decimal(k))) == Some(Product(Numeral(s).value, Pow10(k)))
    ensures Magnitude(s + [mark] + ("-" + Decimal(k))) == Some(Ratio(Numeral(s).value, Pow10(k)))
  {
    hide *;
    SignedDecimal(k);
    PowerZero(Numeral(s).value);
    MagnitudeAt(s, mark, Decimal(k));
    MagnitudeAt(s, mark, "+" + Decimal(k));
    MagnitudeAt(s, mark, "-" + Decimal(k));
  }

  lemma {:induction false} NamedWhen(s: string, name: string)
    requires |s| == |name| && forall i :: 0 <= i < |s| ==> LowerAscii(s[i]) == name[i]
    ensures Named(s, name)
  {
    if s != "" { NamedWhen(s[1..], name[1..]); }
  }

  /** The names of the special values, in any mixture of upper and lower case and with a sign. */
  lemma {:induction false} ParseNames(s: string, name: string)
    requires name in {"inf", "infinity", "nan"}
    requires |s| == |name| && forall i :: 0 <= i < |s| ==> LowerAscii(s[i]) == name[i]
    ensures ParseF64(s) == ParseF64("+" + s) == Some(if name == "nan" then NaN else Infinite(false))
    ensures ParseF64("-" + s) == Some(if name == "nan" then NaN else Infinite(true))
  {
    NamedWhen(s, name);
    assert LowerAscii(s[0]) in {'i', 'n'};
    hide Named, Magnitude;
    assert ("+" + s)[1..] == s && ("-" + s)[1..] == s;
    NotBoth(s);
  }

  lemma {:induction false} NotBoth(s: string)
    ensures Named(s, "nan") ==> !Named(s, "inf") && !Named(s, "infinity")
  {
  }

  /** A run of digits denotes its integer. */
  lemma {:induction false} NumeralOfInteger(n: nat)
    ensures AllNumeric(Decimal(n))
    ensures Numeral(Decimal(n)) == Some(n as real)
  {
    var s := Decimal(n);
    DecimalDigits(n);
    forall i | 0 <= i < |s| ensures s[i] != '.' { assert IsDigit(s[i]); }
    IndexOfIs(s, '.', |s|);
    assert s[..|s|] == s;
    assert s + "" == s;
    DecimalRoundTrip(n);
  }
}
