/**
 The binary64 format of IEEE 754-2019, as far as the daemon's size and speed
 parsing touches it: conversion of an exact decimal value (section 4.3.1, round to
 nearest, ties to even), multiplication, and the saturating cast to a 64-bit integer.
 */
module Binary64 {

  import opened Text

  /** 2^53: significands are below it. */
  const PRECISION: nat := 0x20_0000_0000_0000

  const TOP: real := 9007199254740992.0

  /** 2^52: normal significands reach it. */
  const HALF_TOP: real := 4503599627370496.0

  function Distance(v: real, x: real): real {
    if v >= x then v - x else x - v
  }

  // ---------------------------------------------------------------- rounding

  function RoundHalfEven(y: real): (n: int)
    ensures -0.5 <= n as real - y <= 0.5
    ensures (n as real - y == 0.5 || n as real - y == -0.5) ==> n % 2 == 0
  {
    var floor := y.Floor;
    var rest := y - floor as real;
    if rest < 0.5 then floor
    else if rest > 0.5 then floor + 1
    else if floor % 2 == 0 then floor else floor + 1
  }

  /**
   Rounds `x` to a 53-bit significand: `x` is halved or doubled until the significand is its
   integer part. At most `k` doublings are allowed, which makes 2^-k the least positive result.
   */
  function RoundAt(x: real, k: nat): (v: real)
    requires x >= 0.0
    ensures v >= 0.0
    decreases k, x.Floor
  {
    if x >= TOP then RoundAt(x / 2.0, k) * 2.0
    else if x >= HALF_TOP || k == 0 then RoundHalfEven(x) as real
    else RoundAt(x * 2.0, k - 1) / 2.0
  }

  /** The least positive binary64 number is 2^-1074. */
  const SUBNORMAL_BITS: nat := 1074

  /** Rounding to binary64, before overflow is considered. */
  function Round(x: real): (v: real)
    requires x >= 0.0
    ensures v >= 0.0
  {
    RoundAt(x, SUBNORMAL_BITS)
  }

  predicate IsInteger(v: real) {
    v.Floor as real == v
  }

  /** A 53-bit significand times a power of two not below 2^-k. */
  predicate Representable(v: real, k: nat)
    requires v >= 0.0
    decreases k, v.Floor
  {
    if v >= TOP then Representable(v / 2.0, k)
    else if v >= HALF_TOP || k == 0 then IsInteger(v)
    else Representable(v * 2.0, k - 1)
  }

  /** Whether the significand that expresses `v` is even. */
  predicate EvenSignificand(v: real, k: nat)
    requires v >= 0.0
    decreases k, v.Floor
  {
    if v >= TOP then EvenSignificand(v / 2.0, k)
    else if v >= HALF_TOP || k == 0 then v.Floor % 2 == 0
    else EvenSignificand(v * 2.0, k - 1)
  }

  lemma {:induction false} RoundHalfEvenNearest(y: real, n: int)
    ensures Distance(RoundHalfEven(y) as real, y) <= Distance(n as real, y)
  {
    if n > y.Floor {
      assert n as real >= y.Floor as real + 1.0;
    } else {
      assert n as real <= y.Floor as real;
    }
  }

  lemma {:induction false} RoundHalfEvenMonotone(y: real, z: real)
    requires y <= z
    ensures RoundHalfEven(y) <= RoundHalfEven(z)
  {
  }

  lemma {:induction false} IntegerRepresentable(n: nat, k: nat)
    requires n <= PRECISION
    ensures Representable(n as real, k)
    decreases k
  {
    if n < PRECISION / 2 && k > 0 {
      IntegerRepresentable(2 * n, k - 1);
      assert n as real * 2.0 == (2 * n) as real;
    } else if n == PRECISION {
      assert IsInteger(HALF_TOP);
    }
  }

  /** Representable magnitudes are the fixed points of rounding. */
  lemma {:induction false} RoundExact(v: real, k: nat)
    requires v >= 0.0 && Representable(v, k)
    ensures RoundAt(v, k) == v
    decreases k, v.Floor
  {
    if v >= TOP {
      RoundExact(v / 2.0, k);
    } else if !(v >= HALF_TOP || k == 0) {
      RoundExact(v * 2.0, k - 1);
    }
  }

  lemma {:induction false} RoundHalfEvenBinade(x: real)
    ensures x <= TOP ==> RoundHalfEven(x) as real <= TOP
    ensures x <= HALF_TOP ==> RoundHalfEven(x) as real <= HALF_TOP
    ensures x >= HALF_TOP ==> RoundHalfEven(x) as real >= HALF_TOP
    ensures x >= TOP ==> RoundHalfEven(x) as real >= TOP
  {
  }

  /** Below 2^53 rounding does not pass 2^53; from 2^52 up it does not fall below 2^52. */
  lemma {:induction false} RoundBinade(x: real, k: nat)
    requires x >= 0.0
    ensures x <= TOP ==> RoundAt(x, k) <= TOP
    ensures x <= HALF_TOP ==> RoundAt(x, k) <= HALF_TOP
    ensures x >= HALF_TOP ==> RoundAt(x, k) >= HALF_TOP
    ensures x >= TOP ==> RoundAt(x, k) >= TOP
    decreases k, x.Floor
  {
    hide RoundHalfEven;
    if x >= TOP {
      RoundBinade(x / 2.0, k);
    } else if x >= HALF_TOP || k == 0 {
      RoundHalfEvenBinade(x);
    } else {
      RoundBinade(x * 2.0, k - 1);
    }
  }

  lemma {:induction false} RoundMonotone(x: real, y: real, k: nat)
    requires 0.0 <= x <= y
    ensures RoundAt(x, k) <= RoundAt(y, k)
    decreases k, y.Floor
  {
    if x >= TOP {
      RoundMonotone(x / 2.0, y / 2.0, k);
    } else if y >= TOP {
      RoundBinade(x, k);
      RoundBinade(y, k);
    } else if x >= HALF_TOP || k == 0 {
      RoundHalfEvenMonotone(x, y);
    } else if y >= HALF_TOP {
      RoundBinade(x, k);
      RoundBinade(y, k);
    } else {
      RoundMonotone(x * 2.0, y * 2.0, k - 1);
    }
  }

  /** More doublings keep what fewer already reached. */
  lemma {:induction false} RepresentableFiner(v: real, k: nat)
    requires v >= 0.0 && Representable(v, k)
    ensures Representable(v, k + 1)
    decreases k, v.Floor
  {
    if v >= TOP {
      RepresentableFiner(v / 2.0, k);
    } else if v < HALF_TOP {
      if k == 0 {
        IntegerRepresentable(2 * v.Floor, 0);
        assert v * 2.0 == (2 * v.Floor) as real;
      } else {
        RepresentableFiner(v * 2.0, k - 1);
      }
    }
  }

  lemma {:induction false} RepresentableDoubled(v: real, k: nat)
    requires v >= 0.0 && Representable(v, k)
    ensures Representable(v * 2.0, k)
  {
    assert v * 2.0 / 2.0 == v;
    if v < HALF_TOP {
      if k == 0 {
        IntegerRepresentable(2 * v.Floor, 0);
        assert v * 2.0 == (2 * v.Floor) as real;
      } else {
        RepresentableFiner(v * 2.0, k - 1);
      }
    }
  }

  lemma {:induction false} RepresentableHalved(v: real, k: nat)
    requires v >= 0.0 && Representable(v, k)
    ensures Representable(v / 2.0, k + 1)
  {
    assert v / 2.0 * 2.0 == v;
    if v >= TOP {
      RepresentableFiner(v / 2.0, k);
    }
  }

  lemma {:induction false} RoundRepresentable(x: real, k: nat)
    requires x >= 0.0
    ensures Representable(RoundAt(x, k), k)
    decreases k, x.Floor
  {
    if x >= TOP {
      RoundRepresentable(x / 2.0, k);
      RepresentableDoubled(RoundAt(x / 2.0, k), k);
    } else if x >= HALF_TOP || k == 0 {
      RoundHalfEvenMonotone(x, TOP);
      IntegerRepresentable(RoundHalfEven(x), k);
    } else {
      RoundRepresentable(x * 2.0, k - 1);
      RepresentableHalved(RoundAt(x * 2.0, k - 1), k - 1);
    }
  }

  /** No representable magnitude is nearer to `x` than the one rounding picks. */
  lemma {:induction false} RoundNearest(x: real, v: real, k: nat)
    requires x >= 0.0 && v >= 0.0 && Representable(v, k)
    ensures Distance(RoundAt(x, k), x) <= Distance(v, x)
    decreases k, x.Floor
  {
    if x >= TOP {
      if v >= TOP {
        RoundNearest(x / 2.0, v / 2.0, k);
      } else {
        IntegerRepresentable(PRECISION / 2, k);
        RoundNearest(x / 2.0, HALF_TOP, k);
      }
    } else if v >= TOP {
      RoundNearest'Top(x, k);
    } else if x >= HALF_TOP || k == 0 {
      if v >= HALF_TOP || k == 0 {
        RoundHalfEvenNearest(x, v.Floor);
      } else {
        RoundHalfEvenNearest(x, PRECISION / 2);
      }
    } else if v >= HALF_TOP {
      RoundNearest'Half(x, k);
    } else {
      RoundNearest(x * 2.0, v * 2.0, k - 1);
    }
  }

  lemma {:induction false} RoundNearest'Top(x: real, k: nat)
    requires 0.0 <= x < TOP
    ensures Distance(RoundAt(x, k), x) <= TOP - x
    decreases k
  {
    if x >= HALF_TOP || k == 0 {
      RoundHalfEvenNearest(x, PRECISION);
    } else {
      RoundNearest'Top(x * 2.0, k - 1);
    }
  }

  lemma {:induction false} RoundNearest'Half(x: real, k: nat)
    requires 0.0 <= x < HALF_TOP && k > 0
    ensures Distance(RoundAt(x, k), x) <= HALF_TOP - x
  {
    RoundNearest'Top(x * 2.0, k - 1);
  }

  /** When another representable magnitude is as near, the one picked has the even significand. */
  lemma {:induction false} RoundTiesToEven(x: real, v: real, k: nat)
    requires x >= 0.0 && v >= 0.0 && Representable(v, k)
    requires v != RoundAt(x, k) && Distance(RoundAt(x, k), x) == Distance(v, x)
    ensures EvenSignificand(RoundAt(x, k), k)
    decreases k, x.Floor
  {
    hide RoundHalfEven;
    RoundBinade(x, k);
    if x >= TOP {
      IntegerRepresentable(PRECISION, k);
      RoundNearest(x, TOP, k);
      RoundTiesToEven(x / 2.0, v / 2.0, k);
    } else if x >= HALF_TOP || k == 0 {
      IntegerTie(x, v, k);
    } else {
      RoundNearest'Half(x, k);
      IntegerRepresentable(PRECISION, k - 1);
      RoundTiesToEven(x * 2.0, v * 2.0, k - 1);
    }
  }

  lemma {:induction false} IntegerTie(x: real, v: real, k: nat)
    requires 0.0 <= x < TOP && (x >= HALF_TOP || k == 0)
    requires v >= 0.0 && Representable(v, k)
    requires v != RoundAt(x, k) && Distance(RoundAt(x, k), x) == Distance(v, x)
    ensures EvenSignificand(RoundAt(x, k), k)
  {
    var n := RoundHalfEven(x);
    if x >= HALF_TOP { RoundHalfEvenNearest(x, PRECISION / 2); }
    RoundHalfEvenNearest(x, PRECISION);
    assert v <= TOP ==> IsInteger(v);
    assert v.Floor < n || v.Floor > n || v > TOP;
    assert n % 2 == 0;
    RoundHalfEvenMonotone(x, TOP);
    assert EvenSignificand(HALF_TOP, k);
  }

  // ---------------------------------------------------------------- scaling and error

  lemma {:induction false} TwoMore(v: real, k: nat)
    requires v >= 0.0 && Representable(v, k)
    ensures Representable(v * 4.0, k)
    ensures Representable(v / 4.0, k + 2)
  {
    RepresentableDoubled(v, k);
    RepresentableDoubled(v * 2.0, k);
    RepresentableHalved(v, k);
    RepresentableHalved(v / 2.0, k + 1);
    assert v * 2.0 * 2.0 == v * 4.0;
    assert v / 2.0 / 2.0 == v / 4.0;
  }

  lemma {:induction false} TenMore(v: real, k: nat)
    requires v >= 0.0 && Representable(v, k)
    ensures Representable(v * 1024.0, k)
    ensures Representable(v / 1024.0, k + 10)
  {
    TwoMore(v, k);
    TwoMore(v * 4.0, k);
    TwoMore(v * 16.0, k);
    TwoMore(v * 64.0, k);
    TwoMore(v * 256.0, k);
    TwoMore(v / 4.0, k + 2);
    TwoMore(v / 16.0, k + 4);
    TwoMore(v / 64.0, k + 6);
    TwoMore(v / 256.0, k + 8);
  }

  lemma {:induction false} TwentyMore(v: real, k: nat)
    requires v >= 0.0 && Representable(v, k)
    ensures Representable(v * 1048576.0, k)
    ensures Representable(v / 1048576.0, k + 20)
  {
    TenMore(v, k);
    TenMore(v * 1024.0, k);
    TenMore(v / 1024.0, k + 10);
  }

  lemma {:induction false} ThirtyMore(v: real, k: nat)
    requires v >= 0.0 && Representable(v, k)
    ensures Representable(v * 1073741824.0, k)
    ensures Representable(v / 1073741824.0, k + 30)
  {
    TwentyMore(v, k);
    TenMore(v * 1048576.0, k);
    TenMore(v / 1048576.0, k + 20);
    assert v * 1048576.0 * 1024.0 == v * 1073741824.0;
    assert v / 1048576.0 / 1024.0 == v / 1073741824.0;
  }

  lemma {:induction false} FiftyMore(v: real, k: nat)
    requires v >= 0.0 && Representable(v, k)
    ensures Representable(v * 1125899906842624.0, k)
    ensures Representable(v / 1125899906842624.0, k + 50)
  {
    FortyMore(v, k);
    TenMore(v * 1099511627776.0, k);
    TenMore(v / 1099511627776.0, k + 40);
    assert v * 1099511627776.0 * 1024.0 == v * 1125899906842624.0;
    assert v / 1099511627776.0 / 1024.0 == v / 1125899906842624.0;
  }

  lemma {:induction false} FortyMore(v: real, k: nat)
    requires v >= 0.0 && Representable(v, k)
    ensures Representable(v * 1099511627776.0, k)
    ensures Representable(v / 1099511627776.0, k + 40)
  {
    TwentyMore(v, k);
    TwentyMore(v * 1048576.0, k);
    TwentyMore(v / 1048576.0, k + 20);
  }

  /** Whether all 53 significand bits are in use after at most `k` doublings. */
  predicate Normal(x: real, k: nat)
    decreases k
  {
    x >= HALF_TOP || (k > 0 && Normal(x * 2.0, k - 1))
  }

  lemma {:induction false} NormalTen(x: real, k: nat)
    requires Normal(x * 1024.0, k)
    ensures Normal(x, k + 10)
  {
    assert Normal(x * 512.0, k + 1);
    assert Normal(x * 256.0, k + 2);
    assert Normal(x * 128.0, k + 3);
    assert Normal(x * 64.0, k + 4);
    assert Normal(x * 32.0, k + 5);
    assert Normal(x * 16.0, k + 6);
    assert Normal(x * 8.0, k + 7);
    assert Normal(x * 4.0, k + 8);
    assert Normal(x * 2.0, k + 9);
  }

  lemma {:induction false} NormalFromHalf(x: real, k: nat)
    requires x >= 0.5 && k >= 53
    ensures Normal(x, k)
  {
    var j := k - 50;
    var y := x * 1125899906842624.0;
    assert Normal(y * 4.0, j - 2) ==> Normal(y * 2.0, j - 1);
    assert y * 8.0 >= HALF_TOP;
    assert Normal(y * 8.0, j - 3);
    NormalTen(x * 1099511627776.0, j);
    NormalTen(x * 1073741824.0, j + 10);
    NormalTen(x * 1048576.0, j + 20);
    NormalTen(x * 1024.0, j + 30);
    NormalTen(x, j + 40);
  }

  /** In the normal range the error is at most half a unit in the last place: a relative 2^-53. */
  lemma {:induction false} RoundError(x: real, k: nat)
    requires x >= 0.0 && Normal(x, k)
    ensures Distance(RoundAt(x, k), x) * TOP <= x
    decreases k, x.Floor
  {
    if x >= TOP {
      RoundError(x / 2.0, k);
    } else if x < HALF_TOP {
      RoundError(x * 2.0, k - 1);
    }
  }

  // ---------------------------------------------------------------- rounding up to the next integer

  /** Half the distance from `n` to the number below it that has 53 significant bits. */
  function HalfGap(n: nat): (g: real)
    requires 0 < n
    ensures 0.0 < g <= 0.5 && (n <= PRECISION / 2 ==> g <= 0.25)
    decreases PRECISION - n
  {
    if n > PRECISION / 2 then 0.5 else HalfGap(2 * n) / 2.0
  }

  /** Whether `x`, below 2^53, is so close under the next integer that it rounds to it. */
  predicate RoundsUp(x: real)
    requires x >= 0.0
  {
    var n := x.Floor + 1;
    var gap := n as real - x;
    gap < HalfGap(n) || (gap == HalfGap(n) && (n <= PRECISION / 2 || n % 2 == 0))
  }

  lemma {:induction false} RoundAtMost(x: real, n: nat, k: nat)
    requires 0.0 <= x <= n as real && n <= PRECISION
    ensures RoundAt(x, k) <= n as real
  {
    IntegerRepresentable(n, k);
    RoundExact(n as real, k);
    RoundMonotone(x, n as real, k);
  }

  lemma {:induction false} FloorIs(x: real, n: nat)
    requires n as real - 1.0 <= x < n as real
    ensures x.Floor + 1 == n
  {
  }

  /** Rounding takes `x` to the next integer exactly when `x` is that close. */
  lemma {:induction false} RoundsUpIff(x: real, n: nat, k: nat)
    requires 0 < n <= PRECISION && n as real - 1.0 <= x < n as real && 0.0 <= x
    requires Normal(n as real / 2.0, k)
    ensures RoundAt(x, k) == n as real <==> RoundsUp(x)
    decreases k
  {
    FloorIs(x, n);
    if n <= PRECISION / 2 {
      var y := x * 2.0;
      assert RoundAt(x, k) == RoundAt(y, k - 1) / 2.0;
      if y >= (2 * n - 1) as real {
        RoundsUpIff(y, 2 * n, k - 1);
        FloorIs(y, 2 * n);
      } else {
        RoundAtMost(y, 2 * n - 1, k - 1);
      }
    }
  }

  // ---------------------------------------------------------------- values

  type Magnitude = x: real | x >= 0.0

  datatype F64 = NaN | Infinite(negative: bool) | Finite(negative: bool, magnitude: Magnitude)

  /** v >= 2^k. */
  predicate Beyond(v: real, k: nat)
    decreases k, v
  {
    if k == 0 then v >= 1.0 else Beyond(v / 2.0, k - 1)
  }

  lemma {:induction false} BeyondDown(v: real, k: nat)
    requires Beyond(v, k + 1)
    ensures Beyond(v, k)
    decreases k
  {
    if k > 0 { BeyondDown(v / 2.0, k - 1); }
  }

  lemma {:induction false} BeyondLower(v: real, k: nat, low: nat)
    requires low <= k && Beyond(v, k)
    ensures Beyond(v, low)
  {
    if low < k {
      BeyondDown(v, k - 1);
      BeyondLower(v, k - 1, low);
    }
  }

  lemma {:induction false} BeyondSixteen(v: real, k: nat)
    requires Beyond(v, k + 16)
    ensures Beyond(v / 65536.0, k)
  {
    assert Beyond(v / 2.0, k + 15);
    assert Beyond(v / 4.0, k + 14);
    assert Beyond(v / 8.0, k + 13);
    assert Beyond(v / 16.0, k + 12);
    assert Beyond(v / 32.0, k + 11);
    assert Beyond(v / 64.0, k + 10);
    assert Beyond(v / 128.0, k + 9);
    assert Beyond(v / 256.0, k + 8);
    assert Beyond(v / 512.0, k + 7);
    assert Beyond(v / 1024.0, k + 6);
    assert Beyond(v / 2048.0, k + 5);
    assert Beyond(v / 4096.0, k + 4);
    assert Beyond(v / 8192.0, k + 3);
    assert Beyond(v / 16384.0, k + 2);
    assert Beyond(v / 32768.0, k + 1);
  }

  /** Magnitudes from 2^1024 up are not finite. */
  const OVERFLOW_BITS: nat := 1024

  lemma {:induction false} OverflowIsLarge(v: real)
    requires Beyond(v, OVERFLOW_BITS)
    ensures v >= U64_MAX as real + 1.0
  {
    BeyondLower(v, OVERFLOW_BITS, 64);
    BeyondSixteen(v, 48);
    BeyondSixteen(v / 65536.0, 32);
    BeyondSixteen(v / 4294967296.0, 16);
    BeyondSixteen(v / 281474976710656.0, 0);
  }

  /** The binary64 datum for an exact magnitude. */
  function FromReal(negative: bool, x: real): F64
    requires x >= 0.0
  {
    var v := Round(x);
    if Beyond(v, OVERFLOW_BITS) then Infinite(negative) else Finite(negative, v)
  }

  /** The powers of 1024 that a size suffix stands for. */
  datatype Suffix = One | Kibi | Mebi | Gibi | Tebi | Pebi
  {
    function Bytes(): (m: nat)
      ensures m >= 1
    {
      match this
      case One => 1
      case Kibi => 0x400
      case Mebi => 0x10_0000
      case Gibi => 0x4000_0000
      case Tebi => 0x100_0000_0000
      case Pebi => 0x4_0000_0000_0000
    }

    /** Bytes() == 2^Bits(). */
    function Bits(): (e: nat)
      ensures e <= 50
    {
      match this
      case One => 0
      case Kibi => 10
      case Mebi => 20
      case Gibi => 30
      case Tebi => 40
      case Pebi => 50
    }

    /** The exact product with the multiplier. */
    function Times(x: real): (r: real)
      ensures r == x * Bytes() as real
    {
      match this
      case One => x
      case Kibi => x * 1024.0
      case Mebi => x * 1048576.0
      case Gibi => x * 1073741824.0
      case Tebi => x * 1099511627776.0
      case Pebi => x * 1125899906842624.0
    }

    /** The exact quotient by the multiplier. */
    function Share(x: real): (r: real)
      ensures Times(r) == x
    {
      match this
      case One => x
      case Kibi => x / 1024.0
      case Mebi => x / 1048576.0
      case Gibi => x / 1073741824.0
      case Tebi => x / 1099511627776.0
      case Pebi => x / 1125899906842624.0
    }
  }

  /** The binary64 product with a suffix multiplier, which binary64 holds exactly. */
  function Multiply(a: F64, u: Suffix): F64 {
    match a
    case NaN => NaN
    case Infinite(neg) => Infinite(neg)
    case Finite(neg, v) => FromReal(neg, u.Times(v))
  }

  /** Multiplying or dividing by a suffix multiplier keeps a magnitude representable. */
  lemma {:induction false} SuffixMore(v: real, u: Suffix, k: nat)
    requires v >= 0.0 && Representable(v, k)
    ensures Representable(u.Times(v), k)
    ensures Representable(u.Share(v), k + u.Bits())
  {
    match u
    case One =>
    case Kibi => TenMore(v, k);
    case Mebi => TwentyMore(v, k);
    case Gibi => ThirtyMore(v, k);
    case Tebi => FortyMore(v, k);
    case Pebi => FiftyMore(v, k);
  }

  /** The `as u64` cast: truncates, saturates, and sends NaN to zero. */
  function ToU64(a: F64): (n: nat)
    ensures n <= U64_MAX
  {
    match a
    case NaN => 0
    case Infinite(neg) => if neg then 0 else U64_MAX
    case Finite(neg, v) => if neg then 0 else Min(v.Floor, U64_MAX)
  }

  function Min(a: nat, b: nat): nat {
    if a <= b then a else b
  }

  /** The cast of an exactly held magnitude truncates and saturates, overflow included. */
  lemma {:induction false} CastExact(v: real)
    requires v >= 0.0 && Representable(v, SUBNORMAL_BITS)
    ensures ToU64(FromReal(false, v)) == Min(v.Floor, U64_MAX)
  {
    RoundExact(v, SUBNORMAL_BITS);
    if Beyond(v, OVERFLOW_BITS) { OverflowIsLarge(v); }
  }
}
