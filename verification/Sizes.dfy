/**
 ZFS size text: the parser of the ZFS layer and the byte formatter of the command line.
 */
module Sizes {

  import opened Wrappers
  import opened Text
  import opened Binary64
  import opened Floats

  /** The unit suffix that ends `s`. */
  function SuffixOf(s: string): Suffix {
    if EndsWithChar(s, 'T') || EndsWithChar(s, 't') then Tebi
    else if EndsWithChar(s, 'G') || EndsWithChar(s, 'g') then Gibi
    else if EndsWithChar(s, 'M') || EndsWithChar(s, 'm') then Mebi
    else if EndsWithChar(s, 'K') || EndsWithChar(s, 'k') then Kibi
    else if EndsWithChar(s, 'P') || EndsWithChar(s, 'p') then Pebi
    else One
  }

  function Pow1024(n: nat): nat {
    if n == 0 then 1 else 1024 * Pow1024(n - 1)
  }

  /** The letters K, M, G, T and P, of either case, are the powers of 1024; every other ending is none. */
  lemma {:induction false} SuffixLetters(s: string, i: nat, c: char)
    requires i < 5
    ensures SuffixOf(s + ["KMGTP"[i]]).Bytes() == SuffixOf(s + ["kmgtp"[i]]).Bytes() == Pow1024(i + 1)
    ensures c !in "KMGTPkmgtp" ==> SuffixOf(s + [c]) == One
    ensures SuffixOf("") == One && One.Bytes() == 1
  {
    assert Pow1024(1) == 1024 * Pow1024(0);
    assert Pow1024(2) == 0x10_0000;
    assert Pow1024(3) == 0x4000_0000;
    assert Pow1024(4) == 0x100_0000_0000;
    assert Pow1024(5) == 0x4_0000_0000_0000;
  }

  /** The longest prefix of digits and points. */
  function NumericPrefix(s: string): (r: string)
    ensures r <= s
  {
    if s != "" && IsNumericChar(s[0]) then [s[0]] + NumericPrefix(s[1..]) else ""
  }

  lemma {:induction false} NumericPrefixLongest(s: string)
    ensures AllNumeric(NumericPrefix(s))
    ensures |NumericPrefix(s)| < |s| ==> !IsNumericChar(s[|NumericPrefix(s)|])
  {
    if s != "" && IsNumericChar(s[0]) { NumericPrefixLongest(s[1..]); }
  }

  function ParseZfsSize(text: string): (bytes: nat)
    ensures bytes <= U64_MAX
  {
    var s := Trim(text);
    if s == "-" || s == "" then 0 else
    var value := match ParseF64(NumericPrefix(s)) case Some(v) => v case None => Finite(false, 0.0);
    ToU64(Multiply(value, SuffixOf(s)))
  }

  // ---------------------------------------------------------------- what the text says

  /** The decimal number a size text starts with, zero when it starts with none. */
  function Exact(text: string): (d: real)
    ensures d >= 0.0
  {
    match Numeral(NumericPrefix(Trim(text))) case Some(d) => d case None => 0.0
  }

  /** The unit its suffix stands for. */
  function Scale(text: string): Suffix {
    SuffixOf(Trim(text))
  }

  lemma {:induction false} ExactIs(text: string, numeric: string, d: real)
    requires Trim(text) == text && NumericPrefix(text) == numeric && Numeral(numeric) == Some(d)
    ensures Exact(text) == d
  {
  }

  lemma {:induction false} ScaleIs(text: string, u: Suffix)
    requires Trim(text) == text && SuffixOf(text) == u
    ensures Scale(text) == u
  {
  }

  // ---------------------------------------------------------------- one rounding

  /** What the parser makes of an exact numeral `d` in units `u`. */
  function Bytes(d: real, u: Suffix): (bytes: nat)
    requires d >= 0.0
  {
    ToU64(Multiply(FromReal(false, d), u))
  }

  lemma {:induction false} FinerBy(v: real, k: nat, j: nat)
    requires v >= 0.0 && Representable(v, k)
    ensures Representable(v, k + j)
  {
    if j > 0 {
      FinerBy(v, k, j - 1);
      RepresentableFiner(v, k + j - 1);
    }
  }

  lemma {:induction false} ShareHeld(n: nat, u: Suffix)
    requires n <= PRECISION
    ensures Representable(u.Share(n as real), SUBNORMAL_BITS)
    ensures Round(u.Share(n as real)) == u.Share(n as real)
  {
    IntegerRepresentable(n, SUBNORMAL_BITS - 50);
    SuffixMore(n as real, u, SUBNORMAL_BITS - 50);
    FinerBy(u.Share(n as real), SUBNORMAL_BITS - 50 + u.Bits(), 50 - u.Bits());
    RoundExact(u.Share(n as real), SUBNORMAL_BITS);
  }

  /** The numeral is rounded once; the power-of-two multiplier then rounds nothing. */
  lemma {:induction false} BytesRounded(d: real, u: Suffix)
    requires d >= 0.0
    ensures Bytes(d, u) == Min(u.Times(Round(d)).Floor, U64_MAX)
  {
    RoundRepresentable(d, SUBNORMAL_BITS);
    SuffixMore(Round(d), u, SUBNORMAL_BITS);
    CastExact(u.Times(Round(d)));
    if Beyond(Round(d), OVERFLOW_BITS) { OverflowIsLarge(Round(d)); }
  }

  /** An exact product that reaches `n` still reaches it after rounding and the cast. */
  lemma {:induction false} BytesAtLeast(d: real, u: Suffix, n: nat)
    requires d >= 0.0 && n <= PRECISION && n as real <= u.Times(d)
    ensures Bytes(d, u) >= n
  {
    ShareHeld(n, u);
    RoundMonotone(u.Share(n as real), d, SUBNORMAL_BITS);
    BytesRounded(d, u);
  }

  /** An exact product that stays at or below `n` still does after rounding and the cast. */
  lemma {:induction false} BytesAtMost(d: real, u: Suffix, n: nat)
    requires d >= 0.0 && n <= PRECISION && n as real >= u.Times(d)
    ensures Bytes(d, u) <= n
  {
    ShareHeld(n, u);
    RoundMonotone(d, u.Share(n as real), SUBNORMAL_BITS);
    BytesRounded(d, u);
  }

  // ---------------------------------------------------------------- the parser

  lemma {:induction false} ZeroExact()
    ensures FromReal(false, 0.0) == Finite(false, 0.0)
  {
    IntegerRepresentable(0, SUBNORMAL_BITS);
    RoundExact(0.0, SUBNORMAL_BITS);
    if Beyond(0.0, OVERFLOW_BITS) { OverflowIsLarge(0.0); }
  }

  /** The parser is the rounded numeral times the suffix, on every text. */
  lemma {:induction false} ParseIsBytes(text: string)
    ensures ParseZfsSize(text) == Bytes(Exact(text), Scale(text))
  {
    var s := Trim(text);
    var numeric := NumericPrefix(s);
    NumericPrefixLongest(s);
    ParseNumeric(numeric);
    ZeroExact();
    if s == "-" || s == "" {
      assert numeric == "";
      assert Numeral("").None?;
      BytesAtMost(0.0, One, 0);
    }
  }

  /** What a size text says, without any rounding. */
  function ExactBytes(text: string): (x: real)
    ensures x >= 0.0
  {
    Scale(text).Times(Exact(text))
  }

  lemma {:induction false} BytesNearExact(d: real, u: Suffix)
    requires d >= 0.0 && u.Times(d) < TOP
    ensures u.Times(d).Floor <= Bytes(d, u) <= u.Times(d).Floor + 1
  {
    BytesAtLeast(d, u, u.Times(d).Floor);
    BytesAtMost(d, u, u.Times(d).Floor + 1);
  }

  /**
   Below 2^53 the parser never falls short of the exact floor of numeral times multiplier
   and never passes it by more than one.
   */
  lemma {:induction false} ParseNearExact(text: string)
    requires ExactBytes(text) < TOP
    ensures ExactBytes(text).Floor <= ParseZfsSize(text) <= ExactBytes(text).Floor + 1
  {
    ParseIsBytes(text);
    BytesNearExact(Exact(text), Scale(text));
  }

  // ---------------------------------------------------------------- exactly which integer

  lemma {:induction false} ShiftTen(x: real, k: nat)
    requires 0.0 <= x && x * 1024.0 < TOP
    ensures RoundAt(x, k + 10) == RoundAt(x * 1024.0, k) / 1024.0
  {
    assert RoundAt(x, k + 10) == RoundAt(x * 2.0, k + 9) / 2.0;
    assert RoundAt(x * 2.0, k + 9) == RoundAt(x * 4.0, k + 8) / 2.0;
    assert RoundAt(x * 4.0, k + 8) == RoundAt(x * 8.0, k + 7) / 2.0;
    assert RoundAt(x * 8.0, k + 7) == RoundAt(x * 16.0, k + 6) / 2.0;
    assert RoundAt(x * 16.0, k + 6) == RoundAt(x * 32.0, k + 5) / 2.0;
    assert RoundAt(x * 32.0, k + 5) == RoundAt(x * 64.0, k + 4) / 2.0;
    assert RoundAt(x * 64.0, k + 4) == RoundAt(x * 128.0, k + 3) / 2.0;
    assert RoundAt(x * 128.0, k + 3) == RoundAt(x * 256.0, k + 2) / 2.0;
    assert RoundAt(x * 256.0, k + 2) == RoundAt(x * 512.0, k + 1) / 2.0;
    assert RoundAt(x * 512.0, k + 1) == RoundAt(x * 1024.0, k) / 2.0;
  }

  /** Scaling by a suffix and rounding commute while the scaled number stays below 2^53. */
  lemma {:induction false} SuffixShift(x: real, u: Suffix, k: nat)
    requires 0.0 <= x && u.Times(x) < TOP
    ensures u.Times(RoundAt(x, k + u.Bits())) == RoundAt(u.Times(x), k)
  {
    match u
    case One =>
    case Kibi => ShiftTen(x, k);
    case Mebi => ShiftTen(x, k + 10); ShiftTen(x * 1024.0, k);
    case Gibi => ShiftTen(x, k + 20); ShiftTen(x * 1024.0, k + 10); ShiftTen(x * 1048576.0, k);
    case Tebi =>
      ShiftTen(x, k + 30);
      ShiftTen(x * 1024.0, k + 20);
      ShiftTen(x * 1048576.0, k + 10);
      ShiftTen(x * 1073741824.0, k);
    case Pebi =>
      ShiftTen(x, k + 40);
      ShiftTen(x * 1024.0, k + 30);
      ShiftTen(x * 1048576.0, k + 20);
      ShiftTen(x * 1073741824.0, k + 10);
      ShiftTen(x * 1099511627776.0, k);
  }

  lemma {:induction false} BytesExact(d: real, u: Suffix)
    requires d >= 0.0 && u.Times(d) < TOP
    ensures Bytes(d, u) == u.Times(d).Floor + if RoundsUp(u.Times(d)) then 1 else 0
  {
    var x, k := u.Times(d), SUBNORMAL_BITS - u.Bits();
    var n := x.Floor + 1;
    BytesNearExact(d, u);
    BytesRounded(d, u);
    SuffixShift(d, u, k);
    NormalFromHalf(n as real / 2.0, k);
    RoundsUpIff(x, n, k);
    RoundAtMost(x, n, k);
    hide RoundsUp, RoundAt;
    assert Round(d) == RoundAt(d, k + u.Bits());
  }

  /**
   Below 2^53 the parser yields the exact floor of numeral times multiplier, or one more exactly
   when what the text says lies that close under the next integer: by less than half the distance
   to the 53-bit number below that integer, or by just that half when the integer's significand
   is even.
   */
  lemma {:induction false} ParseExact(text: string)
    requires ExactBytes(text) < TOP
    ensures ParseZfsSize(text) == ExactBytes(text).Floor + if RoundsUp(ExactBytes(text)) then 1 else 0
  {
    ParseIsBytes(text);
    BytesExact(Exact(text), Scale(text));
  }

  lemma {:induction false} BytesOfInteger(n: nat, u: Suffix)
    requires n <= PRECISION
    ensures Bytes(n as real, u) == Min(n * u.Bytes(), U64_MAX)
  {
    BytesRounded(n as real, u);
    IntegerRepresentable(n, SUBNORMAL_BITS);
    RoundExact(n as real, SUBNORMAL_BITS);
    assert u.Times(n as real) == (n * u.Bytes()) as real;
  }

  /** An integer numeral up to 2^53 is multiplied exactly and saturated. */
  lemma {:induction false} ParseInteger(text: string, n: nat)
    requires n <= PRECISION && Exact(text) == n as real
    ensures ParseZfsSize(text) == Min(n * Scale(text).Bytes(), U64_MAX)
  {
    ParseIsBytes(text);
    BytesOfInteger(n, Scale(text));
  }

  lemma {:induction false} BytesMonotone(d: real, d': real, u: Suffix)
    requires 0.0 <= d <= d'
    ensures Bytes(d, u) <= Bytes(d', u)
  {
    RoundMonotone(d, d', SUBNORMAL_BITS);
    BytesRounded(d, u);
    BytesRounded(d', u);
  }

  /** Under one suffix, a larger numeral never parses to fewer bytes. */
  lemma {:induction false} ParseMonotone(text: string, text': string)
    requires Scale(text) == Scale(text') && Exact(text) <= Exact(text')
    ensures ParseZfsSize(text) <= ParseZfsSize(text')
  {
    ParseIsBytes(text);
    ParseIsBytes(text');
    BytesMonotone(Exact(text), Exact(text'), Scale(text));
  }

  // ---------------------------------------------------------------- how far off, and when

  lemma {:induction false} WholeAbove(v: real, k: nat)
    requires v >= HALF_TOP && Representable(v, k)
    ensures IsInteger(v)
    decreases v.Floor
  {
    if v >= TOP {
      WholeAbove(v / 2.0, k);
      assert v == (2 * (v / 2.0).Floor) as real;
    }
  }

  /** From 2^53 up the rounded product is whole, so that the cast drops nothing. */
  lemma {:induction false} BytesWhole(d: real, u: Suffix)
    requires d >= 0.0 && u.Times(d) >= TOP
    requires Bytes(d, u) < U64_MAX
    ensures Bytes(d, u) as real == u.Times(Round(d))
  {
    BytesRounded(d, u);
    BytesAtLeast(d, u, PRECISION);
    RoundRepresentable(d, SUBNORMAL_BITS);
    SuffixMore(Round(d), u, SUBNORMAL_BITS);
    WholeAbove(u.Times(Round(d)), SUBNORMAL_BITS);
  }

  lemma {:induction false} BytesRelativeError(d: real, u: Suffix)
    requires d >= 0.0 && u.Times(d) >= TOP
    requires Bytes(d, u) < U64_MAX
    ensures Distance(Bytes(d, u) as real, u.Times(d)) <= u.Times(d) / TOP
  {
    NormalFromHalf(d, SUBNORMAL_BITS);
    RoundError(d, SUBNORMAL_BITS);
    BytesWhole(d, u);
    assert Distance(u.Times(Round(d)), u.Times(d)) * TOP <= u.Times(d);
  }

  /** From 2^53 up, short of saturation, the only error is a relative 2^-53. */
  lemma {:induction false} ParseRelativeError(text: string)
    requires ExactBytes(text) >= TOP
    requires ParseZfsSize(text) < U64_MAX
    ensures Distance(ParseZfsSize(text) as real, ExactBytes(text)) <= ExactBytes(text) / TOP
  {
    ParseIsBytes(text);
    BytesRelativeError(Exact(text), Scale(text));
  }

  /** `k` nines. */
  function Nines(k: nat): (s: string)
    ensures |s| == k && AllDigits(s)
  {
    if k == 0 then "" else Nines(k - 1) + ['9']
  }

  /** Zero, a point and `k` nines. */
  function PointNines(k: nat): string {
    ['0', '.'] + Nines(k)
  }

  lemma {:induction false} NinesValue(k: nat)
    ensures DigitsValue(['0'] + Nines(k)) == Pow10(k) - 1
  {
    var s := ['0'] + Nines(k);
    if k == 0 {
      assert s == "0" && s[..0] == "";
    } else {
      NinesValue(k - 1);
      assert s[..|s| - 1] == ['0'] + Nines(k - 1);
    }
  }

  lemma {:induction false} NumericPrefixAll(s: string)
    requires AllNumeric(s)
    ensures NumericPrefix(s) == s
  {
    var r := NumericPrefix(s);
    NumericPrefixLongest(s);
    assert !(|r| < |s|);
  }

  lemma {:induction false} NinesText(k: nat)
    ensures AllNumeric(PointNines(k))
    ensures Trim(PointNines(k)) == PointNines(k)
    ensures IndexOf(PointNines(k), '.') == 1
    ensures SuffixOf(PointNines(k)) == One
  {
    var s := PointNines(k);
    forall i | 0 <= i < |s| ensures IsNumericChar(s[i]) {
      if i >= 2 { assert s[i] == Nines(k)[i - 2]; }
    }
    assert IsNumericChar(s[|s| - 1]);
    TrimOfTrimmed(s);
    IndexOfIs(s, '.', 1);
  }

  lemma {:induction false} NumeralIs(s: string, whole: string, fraction: string, n: nat, j: nat)
    requires s == whole + ['.'] + fraction && whole != "" && |fraction| == j
    requires AllDigits(whole) && AllDigits(fraction) && AllDigits(whole + fraction)
    requires DigitsValue(whole + fraction) == n
    ensures Numeral(s) == Some(Ratio(n as real, Pow10(j)))
  {
    IndexOfIs(s, '.', |whole|);
    assert s[..|whole|] == whole && s[|whole| + 1..] == fraction;
  }

  lemma {:induction false} NinesNumeral(k: nat)
    ensures Numeral(PointNines(k)) == Some(Ratio((Pow10(k) - 1) as real, Pow10(k)))
  {
    NinesValue(k);
    NumeralIs(PointNines(k), ['0'], Nines(k), Pow10(k) - 1, k);
  }

  lemma {:induction false} NinesPrefix(k: nat)
    ensures NumericPrefix(PointNines(k)) == PointNines(k)
  {
    NinesText(k);
    NumericPrefixAll(PointNines(k));
  }

  lemma {:induction false} NinesExact(k: nat, d: real)
    requires Numeral(PointNines(k)) == Some(d)
    ensures Exact(PointNines(k)) == d
  {
    NinesText(k);
    NinesPrefix(k);
    ExactIs(PointNines(k), PointNines(k), d);
  }

  lemma {:induction false} NinesScale(k: nat)
    ensures Scale(PointNines(k)) == One
  {
    NinesText(k);
    ScaleIs(PointNines(k), One);
  }

  lemma {:induction false} Pow10AtLeast(k: nat, low: nat)
    requires low <= k
    ensures Pow10(low) <= Pow10(k)
  {
    if low < k { Pow10AtLeast(k - 1, low); }
  }

  lemma {:induction false} RealMulDiff(a: real, b: real, c: real)
    ensures (a - b) * c == a * c - b * c
  {
  }

  lemma {:induction false} RealMulLe(gap: real, a: real, b: real)
    requires gap > 0.0 && a <= b
    ensures gap * a <= gap * b
    ensures a < b ==> gap * a < gap * b
  {
  }

  /** One part in `n` is at most 2^-54 exactly when `n` is at least 2^54. */
  lemma {:induction false} PartAgainst(part: real, n: real)
    requires n > 0.0 && part * n == 1.0
    ensures 0.0 < part && (n >= 1.0 ==> part <= 1.0)
    ensures n >= 2.0 * TOP <==> part * (2.0 * TOP) <= 1.0
  {
    assert part > 0.0;
    if n >= 1.0 { RealMulLe(part, 1.0, n); }
    if n >= 2.0 * TOP { RealMulLe(part, 2.0 * TOP, n); } else { RealMulLe(part, n, 2.0 * TOP); }
  }

  lemma {:induction false} HalfGapTen(n: nat)
    requires 0 < n && n * 512 <= PRECISION / 2
    ensures HalfGap(n) == HalfGap(n * 1024) / 1024.0
  {
    assert HalfGap(n) == HalfGap(n * 2) / 2.0;
    assert HalfGap(n * 2) == HalfGap(n * 4) / 2.0;
    assert HalfGap(n * 4) == HalfGap(n * 8) / 2.0;
    assert HalfGap(n * 8) == HalfGap(n * 16) / 2.0;
    assert HalfGap(n * 16) == HalfGap(n * 32) / 2.0;
    assert HalfGap(n * 32) == HalfGap(n * 64) / 2.0;
    assert HalfGap(n * 64) == HalfGap(n * 128) / 2.0;
    assert HalfGap(n * 128) == HalfGap(n * 256) / 2.0;
    assert HalfGap(n * 256) == HalfGap(n * 512) / 2.0;
    assert HalfGap(n * 512) == HalfGap(n * 1024) / 2.0;
  }

  /** Below one, numbers with 53 significant bits come as close as 2^-53. */
  lemma {:induction false} HalfGapOfOne()
    ensures HalfGap(1) * (2.0 * TOP) == 1.0
  {
    HalfGapTen(1);
    HalfGapTen(0x400);
    HalfGapTen(0x10_0000);
    HalfGapTen(0x4000_0000);
    HalfGapTen(0x100_0000_0000);
    assert HalfGap(0x4_0000_0000_0000) == HalfGap(0x8_0000_0000_0000) / 2.0;
    assert HalfGap(0x8_0000_0000_0000) == HalfGap(0x10_0000_0000_0000) / 2.0;
    assert HalfGap(0x10_0000_0000_0000) == HalfGap(0x20_0000_0000_0000) / 2.0;
  }

  lemma {:induction false} NinesRound(d: real, n: nat)
    requires n >= 10 && d * n as real == (n - 1) as real
    ensures 0.0 <= d < 1.0
    ensures RoundsUp(d) <==> n >= 2 * PRECISION
  {
    RealMulDiff(1.0, d, n as real);
    PartAgainst(1.0 - d, n as real);
    HalfGapOfOne();
    assert d.Floor == 0;
  }

  lemma {:induction false} TenPowers(k: nat)
    requires k >= 1
    ensures Pow10(k) >= 10
    ensures Pow10(k) >= 2 * PRECISION <==> k >= 17
  {
    Pow10AtLeast(k, 1);
    assert Pow10(4) == 10000;
    assert Pow10(8) == 100000000;
    assert Pow10(12) == 1000000000000;
    assert Pow10(16) == 10000000000000000;
    if k >= 17 { Pow10AtLeast(k, 17); } else { Pow10AtLeast(16, k); }
  }

  /**
   How the parser passes the exact floor: a point and `k` nines denote a number below one for
   every `k`, yet parse to 1 exactly from seventeen nines on.
   */
  lemma {:induction false} NinesRoundUp(k: nat)
    requires k >= 1
    ensures Exact(PointNines(k)) < 1.0 && Scale(PointNines(k)) == One
    ensures ParseZfsSize(PointNines(k)) == if k >= 17 then 1 else 0
  {
    var text, d := PointNines(k), Ratio((Pow10(k) - 1) as real, Pow10(k));
    TenPowers(k);
    NinesRound(d, Pow10(k));
    NinesNumeral(k);
    NinesExact(k, d);
    NinesScale(k);
    hide ParseZfsSize, Pow10, Ratio, Exact, PointNines, RoundsUp;
    ParseExact(text);
  }

  // ---------------------------------------------------------------- printed integers

  predicate IsSuffixChar(c: char) {
    !IsNumericChar(c) && !IsWhitespace(c) && c != '-'
  }

  lemma {:induction false} NumericPrefixOf(digits: string, c: char)
    requires AllNumeric(digits) && !IsNumericChar(c)
    ensures NumericPrefix(digits + [c]) == digits
  {
    if digits == "" {
      assert digits + [c] == [c];
    } else {
      assert IsNumericChar(digits[0]);
      assert (digits + [c])[1..] == digits[1..] + [c];
      NumericPrefixOf(digits[1..], c);
    }
  }

  lemma {:induction false} PrintedText(n: nat, c: char)
    requires IsSuffixChar(c)
    ensures Trim(Decimal(n) + [c]) == Decimal(n) + [c]
    ensures NumericPrefix(Decimal(n) + [c]) == Decimal(n)
    ensures SuffixOf(Decimal(n) + [c]) == SuffixOf([c])
  {
    var s := Decimal(n) + [c];
    NumeralOfInteger(n);
    assert IsNumericChar(Decimal(n)[0]);
    TrimOfTrimmed(s);
    NumericPrefixOf(Decimal(n), c);
  }

  /** An integer printed before a one-character suffix reads back as that integer and suffix. */
  lemma {:induction false} PrintedInteger(n: nat, c: char)
    requires IsSuffixChar(c)
    ensures Exact(Decimal(n) + [c]) == n as real
    ensures Scale(Decimal(n) + [c]) == SuffixOf([c])
  {
    PrintedText(n, c);
    NumeralOfInteger(n);
    ExactIs(Decimal(n) + [c], Decimal(n), n as real);
    ScaleIs(Decimal(n) + [c], SuffixOf([c]));
  }

  lemma {:induction false} ParsePrinted(n: nat, c: char)
    requires IsSuffixChar(c)
    ensures ParseZfsSize(Decimal(n) + [c]) == Bytes(n as real, SuffixOf([c]))
  {
    PrintedInteger(n, c);
    ParseIsBytes(Decimal(n) + [c]);
  }

  /** `create_pool` prints the record size of a new pool this way. */
  function RecordSizeText(kb: nat): string {
    Decimal(kb) + ['K']
  }

  /** Whether `kb` has a significand of at most 53 bits. */
  predicate FitsSignificand(kb: nat) {
    Representable(kb as real, SUBNORMAL_BITS)
  }

  lemma {:induction false} RoundAgainst(n: nat, bound: nat)
    requires bound in {PRECISION, 2 * PRECISION}
    ensures n <= bound ==> Round(n as real) <= bound as real
    ensures n >= bound ==> Round(n as real) >= bound as real
  {
    IntegerRepresentable(PRECISION, SUBNORMAL_BITS);
    RepresentableDoubled(TOP, SUBNORMAL_BITS);
    RoundExact(bound as real, SUBNORMAL_BITS);
    if n <= bound { RoundMonotone(n as real, bound as real, SUBNORMAL_BITS); }
    if n >= bound { RoundMonotone(bound as real, n as real, SUBNORMAL_BITS); }
  }

  lemma {:induction false} RecordSizeRounded(kb: nat)
    ensures ParseZfsSize(RecordSizeText(kb)) == Bytes(kb as real, Kibi)
  {
    ParsePrinted(kb, 'K');
    assert SuffixOf(['K']) == Kibi;
  }

  /** `kb` rounded to a 53-bit significand. */
  function RoundedKb(kb: nat): (r: nat)
    ensures r as real == Round(kb as real)
  {
    RoundedInteger(kb);
    Round(kb as real).Floor
  }

  lemma {:induction false} RoundedKbFits(kb: nat)
    ensures RoundedKb(kb) == kb <==> FitsSignificand(kb)
    ensures kb <= PRECISION ==> FitsSignificand(kb)
    ensures kb < 2 * PRECISION ==> RoundedKb(kb) <= 2 * PRECISION
    ensures kb >= 2 * PRECISION ==> RoundedKb(kb) >= 2 * PRECISION
  {
    RoundRepresentable(kb as real, SUBNORMAL_BITS);
    if FitsSignificand(kb) { RoundExact(kb as real, SUBNORMAL_BITS); }
    if kb <= PRECISION { IntegerRepresentable(kb, SUBNORMAL_BITS); }
    RoundAgainst(kb, 2 * PRECISION);
  }

  lemma {:induction false} RecordSizeBytes(kb: nat)
    ensures ParseZfsSize(RecordSizeText(kb)) == Min(RoundedKb(kb) * 1024, U64_MAX)
  {
    RecordSizeRounded(kb);
    BytesRounded(kb as real, Kibi);
    assert (RoundedKb(kb) as real * 1024.0).Floor == RoundedKb(kb) * 1024;
  }

  /**
   The record size printed at pool creation is read back as kb * 1024 exactly when `kb` has a
   53-bit significand and the bytes stay within 64 bits; every `kb` up to 2^53 does, and from
   2^54 up the text saturates.
   */
  lemma {:induction false} RecordSizeRoundTrip(kb: nat)
    ensures ParseZfsSize(RecordSizeText(kb)) == kb * 1024 <==> kb < 2 * PRECISION && FitsSignificand(kb)
    ensures kb <= PRECISION ==> FitsSignificand(kb)
    ensures kb >= 2 * PRECISION ==> ParseZfsSize(RecordSizeText(kb)) == U64_MAX
  {
    RecordSizeBytes(kb);
    RoundedKbFits(kb);
    var r := RoundedKb(kb);
    assert r == 2 * PRECISION ==> r * 1024 > U64_MAX;
  }

  /** Rounding an integer yields an integer. */
  lemma {:induction false} RoundedInteger(n: nat)
    ensures IsInteger(Round(n as real))
  {
    if n <= PRECISION {
      IntegerRepresentable(n, SUBNORMAL_BITS);
      RoundExact(n as real, SUBNORMAL_BITS);
    } else {
      LargeIsInteger(n as real, SUBNORMAL_BITS);
    }
  }

  lemma {:induction false} LargeIsInteger(x: real, k: nat)
    requires x >= HALF_TOP
    ensures IsInteger(RoundAt(x, k))
    decreases x.Floor
  {
    if x >= TOP {
      LargeIsInteger(x / 2.0, k);
      var n := RoundAt(x / 2.0, k).Floor;
      assert RoundAt(x, k) == (2 * n) as real;
    }
  }

  // ---------------------------------------------------------------- the byte formatter

  const MIB: nat := 0x10_0000
  const GIB: nat := 0x4000_0000
  const TIB: nat := 0x100_0000_0000

  /** The unit the `devices` table picks: the largest one strictly below the byte count. */
  function UnitOf(b: nat): (u: nat)
    ensures u in {1, MIB, GIB, TIB}
  {
    if b > TIB then TIB else if b > GIB then GIB else if b > MIB then MIB else 1
  }

  function FormatBytes(b: nat): string {
    if b > TIB then Decimal(b / TIB) + ['T']
    else if b > GIB then Decimal(b / GIB) + ['G']
    else if b > MIB then Decimal(b / MIB) + ['M']
    else Decimal(b) + ['B']
  }

  /**
   The text is a whole number of the largest unit that the size exceeds: at a unit itself it still
   counts the next smaller one.
   */
  lemma {:induction false} FormatBytesIs(b: nat) returns (q: nat, i: nat)
    ensures i < 4 && FormatBytes(b) == Decimal(q) + ["BMGT"[i]]
    ensures var units := [1, MIB, GIB, TIB];
      q * units[i] <= b < (q + 1) * units[i] && (i > 0 ==> b > units[i]) && (i < 3 ==> b <= units[i + 1])
  {
    hide Decimal;
    if b > TIB { return b / TIB, 3; }
    if b > GIB { return b / GIB, 2; }
    if b > MIB { return b / MIB, 1; }
    return b, 0;
  }

  /** The byte count read back from the `devices` table. */
  function ReadBack(b: nat): nat {
    ParseZfsSize(FormatBytes(b))
  }

  /** `b` with everything below the unit shown dropped. */
  function Truncated(b: nat): (t: nat)
    ensures t <= b < t + UnitOf(b)
    ensures b > MIB ==> b < 2 * t
    ensures b <= MIB ==> t == b
  {
    if b > TIB then (b / TIB) * TIB
    else if b > GIB then (b / GIB) * GIB
    else if b > MIB then (b / MIB) * MIB
    else b
  }

  lemma {:induction false} TruncatedMonotone(b: nat, b': nat)
    requires b <= b'
    ensures Truncated(b) <= Truncated(b')
  {
  }

  lemma {:induction false} TruncatedIdempotent(b: nat)
    ensures Truncated(Truncated(b)) == Truncated(b)
  {
    if b > TIB { TruncatedMultiple(b / TIB, TIB); }
    else if b > GIB { TruncatedMultiple(b / GIB, GIB); }
    else if b > MIB { TruncatedMultiple(b / MIB, MIB); }
  }

  /** Multiples of a unit that do not reach past the next one are kept. */
  lemma {:induction false} TruncatedMultiple(n: nat, u: nat)
    requires u in {MIB, GIB, TIB} && n >= 1 && (u == TIB || n <= 1024)
    ensures Truncated(n * u) == n * u
  {
    if u == TIB { assert (n * TIB) / TIB == n && (n * TIB) / GIB == n * 1024; }
    else if u == GIB { assert (n * GIB) / GIB == n && (n * GIB) / MIB == n * 1024; }
    else { assert (n * MIB) / MIB == n; }
  }

  lemma {:induction false} FormatSuffixes()
    ensures SuffixOf(['T']) == Tebi && SuffixOf(['G']) == Gibi
    ensures SuffixOf(['M']) == Mebi && SuffixOf(['B']) == One
  {
  }

  lemma {:induction false} ReadBackPrinted(b: nat, n: nat, c: char, u: Suffix)
    requires FormatBytes(b) == Decimal(n) + [c]
    requires IsSuffixChar(c) && SuffixOf([c]) == u && n <= PRECISION
    ensures ReadBack(b) == Min(n * u.Bytes(), U64_MAX)
  {
    ParsePrinted(n, c);
    BytesOfInteger(n, u);
  }

  lemma {:induction false} ReadBackLarge(b: nat)
    requires MIB < b <= U64_MAX
    ensures ReadBack(b) == Truncated(b)
  {
    FormatSuffixes();
    if b > TIB { ReadBackPrinted(b, b / TIB, 'T', Tebi); }
    else if b > GIB { ReadBackPrinted(b, b / GIB, 'G', Gibi); }
    else { ReadBackPrinted(b, b / MIB, 'M', Mebi); }
  }

  lemma {:induction false} ReadBackSmall(b: nat)
    requires b <= MIB
    ensures ReadBack(b) == Truncated(b)
  {
    hide ParseZfsSize, SuffixOf, Decimal, ReadBack;
    FormatSuffixes();
    ReadBackPrinted(b, b, 'B', One);
  }

  /** Parsing a printed byte count drops what is below the unit shown and nothing else. */
  lemma {:induction false} ReadBackTruncates(b: nat)
    requires b <= U64_MAX
    ensures ReadBack(b) == Truncated(b)
  {
    if b > MIB { ReadBackLarge(b); } else { ReadBackSmall(b); }
  }

  /**
   Reading back a printed byte count never gains, loses less than the unit shown, keeps more
   than half of anything above a mebibyte and all of anything up to it.
   */
  lemma {:induction false} ReadBackBounds(b: nat)
    requires b <= U64_MAX
    ensures ReadBack(b) <= b < ReadBack(b) + UnitOf(b)
    ensures b > MIB ==> b < 2 * ReadBack(b)
    ensures b <= MIB ==> ReadBack(b) == b
  {
    ReadBackTruncates(b);
  }

  lemma {:induction false} ReadBackMonotone(b: nat, b': nat)
    requires b <= b' <= U64_MAX
    ensures ReadBack(b) <= ReadBack(b')
  {
    ReadBackTruncates(b);
    ReadBackTruncates(b');
    TruncatedMonotone(b, b');
  }

  /** Printing what was read back and reading it again changes nothing, at unit boundaries too. */
  lemma {:induction false} ReadBackIdempotent(b: nat)
    requires b <= U64_MAX
    ensures ReadBack(ReadBack(b)) == ReadBack(b)
  {
    ReadBackTruncates(b);
    ReadBackTruncates(Truncated(b));
    TruncatedIdempotent(b);
  }
}
