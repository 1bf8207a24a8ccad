/** Quota conversion (common/quota_math.go): saturating and strict conversions of float64 and decimal
    amounts, with the rounding that a decimal suffers on its way through a 53-bit significand. */
module QuotaMath {
  import opened Wrappers

  /** A float64: the finite values are modelled by the reals they stand for. */
  datatype Float = NaN | NegInf | Finite(value: real) | PosInf

  datatype ClampKind = Overflow | Underflow | NotANumber

  /** A converted amount and, if the value was clamped, why. */
  datatype Checked = Checked(quota: int, clamp: Option<ClampKind>)

  datatype Strict = Ok(quota: int) | Rejected(kind: ClampKind)

  const MAX_QUOTA := 0x7fff_ffff
  const MIN_QUOTA := -0x8000_0000
  const TWO_53 := 0x20_0000_0000_0000
  const MAX_WALLET := TWO_53 - 1

  // ---------------------------------------------------------------- rounding

  /** The conversion int(x) of a float in range. */
  function Truncate(x: real): int {
    if x >= 0.0 then x.Floor else -((-x).Floor)
  }

  /** math.Round and decimal.Round(0): to the nearest integer, halves away from zero. */
  function RoundHalfAway(x: real): int {
    if x >= 0.0 then (x + 0.5).Floor else -((-x + 0.5).Floor)
  }

  function Abs(x: real): real {
    if x < 0.0 then -x else x
  }

  /** An integer is the rounded value exactly when it is nearest, and beyond the value on a tie. */
  ghost predicate IsRounded(x: real, n: int) {
    Abs(n as real - x) <= 0.5 && (Abs(n as real - x) == 0.5 ==> Abs(n as real) > Abs(x))
  }

  lemma RoundedIsNearest(x: real, n: int)
    ensures IsRounded(x, n) <==> n == RoundHalfAway(x)
  {
    FloorBounds(if x >= 0.0 then x + 0.5 else -x + 0.5);
  }

  lemma FloorBounds(x: real)
    ensures x.Floor as real <= x < x.Floor as real + 1.0
  {
  }

  /** Truncation is toward zero: the integer of the same sign, or zero, that is at most one less in magnitude. */
  lemma TruncatedTowardZero(x: real, n: int)
    ensures n == Truncate(x) <==>
            (x >= 0.0 ==> n >= 0 && n as real <= x < n as real + 1.0)
            && (x < 0.0 ==> n <= 0 && n as real - 1.0 < x <= n as real)
  {
    FloorBounds(if x >= 0.0 then x else -x);
  }

  lemma TruncateMonotone(x: real, y: real)
    requires x <= y
    ensures Truncate(x) <= Truncate(y)
  {
  }

  lemma RoundMonotone(x: real, y: real)
    requires x <= y
    ensures RoundHalfAway(x) <= RoundHalfAway(y)
  {
  }

  // ---------------------------------------------------------------- conversions

  /** saturateQuotaBounded. */
  function Saturate(value: Float, max: int, min: int): Checked {
    match value
    case NaN => Checked(0, Some(NotANumber))
    case PosInf => Checked(max, Some(Overflow))
    case NegInf => Checked(min, Some(Underflow))
    case Finite(v) =>
      if v > max as real then Checked(max, Some(Overflow))
      else if v < min as real then Checked(min, Some(Underflow))
      else Checked(Truncate(v), None)
  }

  /** strictQuota. */
  function Strictly(c: Checked): Strict {
    if c.clamp.Some? then Rejected(c.clamp.value) else Ok(c.quota)
  }

  function Rounded(value: Float): Float {
    if value.Finite? then Finite(RoundHalfAway(value.value) as real) else value
  }

  /** QuotaFromFloatChecked and QuotaRoundChecked. */
  function FromFloat(value: Float): Checked {
    Saturate(value, MAX_QUOTA, MIN_QUOTA)
  }

  function Round(value: Float): Checked {
    Saturate(Rounded(value), MAX_QUOTA, MIN_QUOTA)
  }

  predicate AtMost(a: Float, b: Float)
    requires !a.NaN? && !b.NaN?
  {
    a.NegInf? || b.PosInf? || (a.Finite? && b.Finite? && a.value <= b.value)
  }

  /** The saturated value is always in range, and it is the truncated value exactly when nothing was
      clamped, which is when the value itself is in range. */
  lemma SaturateInRange(value: Float, max: int, min: int)
    requires min <= 0 <= max
    ensures var c := Saturate(value, max, min);
            && min <= c.quota <= max
            && (c.clamp.None? <==> value.Finite? && min as real <= value.value <= max as real)
            && (c.clamp.None? && value.value >= 0.0 ==> c.quota as real <= value.value < c.quota as real + 1.0)
            && (c.clamp.None? && value.value < 0.0 ==> c.quota as real - 1.0 < value.value <= c.quota as real)
    ensures var c := Saturate(value, max, min);
            && (c == Checked(0, Some(NotANumber)) <==> value.NaN?)
            && (c == Checked(max, Some(Overflow)) <==> value.PosInf? || (value.Finite? && value.value > max as real))
            && (c == Checked(min, Some(Underflow)) <==> value.NegInf? || (value.Finite? && value.value < min as real))
  {
    if value.Finite? {
      TruncatedTowardZero(value.value, Truncate(value.value));
    }
    if value.Finite? && min as real <= value.value <= max as real {
      TruncateMonotone(min as real, value.value);
      TruncateMonotone(value.value, max as real);
    }
  }

  lemma SaturateMonotone(a: Float, b: Float, max: int, min: int)
    requires min <= 0 <= max && !a.NaN? && !b.NaN? && AtMost(a, b)
    ensures Saturate(a, max, min).quota <= Saturate(b, max, min).quota
  {
    SaturateInRange(a, max, min);
    SaturateInRange(b, max, min);
    if a.Finite? && b.Finite? {
      TruncateMonotone(a.value, b.value);
    }
  }

  lemma RoundQuotaMonotone(a: Float, b: Float)
    requires !a.NaN? && !b.NaN? && AtMost(a, b)
    ensures Round(a).quota <= Round(b).quota
  {
    if a.Finite? && b.Finite? {
      RoundMonotone(a.value, b.value);
    }
    SaturateMonotone(Rounded(a), Rounded(b), MAX_QUOTA, MIN_QUOTA);
  }

  // ---------------------------------------------------------------- 53-bit significands

  function Pow2(e: nat): (p: nat)
    ensures p > 0
  {
    if e == 0 then 1 else 2 * Pow2(e - 1)
  }

  lemma {:induction false} Pow2Sum(a: nat, b: nat)
    ensures Pow2(a + b) == Pow2(a) * Pow2(b)
  {
    if a > 0 {
      Pow2Sum(a - 1, b);
    }
  }

  lemma {:induction false} Pow2Monotone(a: nat, b: nat)
    requires a <= b
    ensures Pow2(a) <= Pow2(b)
  {
    if a < b {
      Pow2Monotone(a, b - 1);
    }
  }

  function Scaled(significand: nat, exponent: nat): nat {
    significand * Pow2(exponent)
  }

  /** The integers a float64 can hold, overflow aside. */
  ghost predicate Representable(v: nat) {
    exists s: nat, e: nat :: s < TWO_53 && v == Scaled(s, e)
  }

  /** How many low bits of `m` do not fit. */
  function Excess(m: nat): nat {
    if m < TWO_53 then 0 else 1 + Excess(m / 2)
  }

  lemma {:induction false} ExcessBounds(m: nat)
    ensures m < TWO_53 * Pow2(Excess(m))
    ensures m >= TWO_53 ==> Excess(m) > 0 && TWO_53 / 2 * Pow2(Excess(m)) <= m
  {
    if m >= TWO_53 {
      ExcessBounds(m / 2);
    }
  }

  /** The nearest multiple of `p`, the even one on a tie. */
  function NearestMultiple(m: nat, p: nat): nat
    requires p > 0
  {
    p * if 2 * (m % p) > p || (2 * (m % p) == p && m / p % 2 == 1) then m / p + 1 else m / p
  }

  /** The conversion of an integer magnitude to a float64. */
  function Nearest(m: nat): nat {
    NearestMultiple(m, Pow2(Excess(m)))
  }

  function Distance(a: int, b: int): nat {
    if a < b then b - a else a - b
  }

  lemma DivMod(m: nat, p: nat)
    requires p > 0
    ensures m == p * (m / p) + m % p && m % p < p
  {
  }

  /** No multiple of `p` is closer. */
  lemma NearestMultipleIsNearest(m: nat, p: nat, k: nat)
    requires p > 0
    ensures Distance(m, NearestMultiple(m, p)) <= Distance(m, p * k)
  {
    DivMod(m, p);
    var q := m / p;
    if k <= q {
      MultiplyMonotone(p, k, q);
    } else {
      MultiplyMonotone(p, q + 1, k);
    }
    assert p * (q + 1) == p * q + p;
  }

  /** Halfway between two multiples the even one is taken. */
  lemma TiesToEven(k: nat, p: nat, m: nat)
    requires p > 0 && Distance(m, p * k) == Distance(m, p * (k + 1)) && p * k <= m <= p * (k + 1)
    ensures NearestMultiple(m, p) == p * if k % 2 == 0 then k else k + 1
  {
    assert p * (k + 1) == p * k + p;
    QuotientIs(m, p, k);
  }

  lemma QuotientIs(m: nat, p: nat, k: nat)
    requires p > 0 && p * k <= m < p * k + p
    ensures m / p == k && m % p == m - p * k
  {
    DivMod(m, p);
    if m / p < k {
      MultiplyMonotone(p, m / p + 1, k);
    } else if m / p > k {
      MultiplyMonotone(p, k + 1, m / p);
    }
  }

  lemma MultiplyMonotone(p: nat, a: nat, b: nat)
    requires a <= b
    ensures p * a <= p * b
  {
  }

  lemma HalfProduct(s: nat, half: nat, low: nat, high: nat)
    requires s <= 2 * half && low <= high
    ensures s * low <= 2 * high * half
  {
    MultiplyMonotone(low, s, 2 * half);
    MultiplyMonotone(2 * half, low, high);
    assert 2 * half * high == 2 * high * half;
  }

  /** A value with a smaller exponent lies below the multiples of 2^x that matter. */
  lemma SmallExponent(s: nat, e: nat, x: nat)
    requires s < TWO_53 && e < x
    ensures Scaled(s, e) <= Pow2(x) * (TWO_53 / 2)
  {
    Pow2Monotone(e, x - 1);
    HalfProduct(s, TWO_53 / 2, Pow2(e), Pow2(x - 1));
  }

  lemma LargeExponent(s: nat, e: nat, x: nat)
    requires e >= x
    ensures Scaled(s, e) == Pow2(x) * Scaled(s, e - x)
  {
    Pow2Sum(e - x, x);
    Reassociate(s, Pow2(e - x), Pow2(x));
  }

  lemma Reassociate(s: nat, a: nat, b: nat)
    ensures s * (a * b) == b * (s * a)
  {
  }

  /** Nothing with a 53-bit significand is closer to `m` than its conversion. */
  lemma NearestIsNearest(m: nat, s: nat, e: nat)
    requires s < TWO_53
    ensures Distance(m, Nearest(m)) <= Distance(m, Scaled(s, e))
  {
    var x := Excess(m);
    if e >= x {
      LargeExponent(s, e, x);
      NearestMultipleIsNearest(m, Pow2(x), Scaled(s, e - x));
    } else {
      SmallExponent(s, e, x);
      ExcessBounds(m);
      NearerThanBelow(m, Pow2(x), TWO_53 / 2, Scaled(s, e));
    }
  }

  lemma NearerThanBelow(m: nat, p: nat, k: nat, v: nat)
    requires p > 0 && v <= p * k <= m
    ensures Distance(m, NearestMultiple(m, p)) <= Distance(m, v)
  {
    NearestMultipleIsNearest(m, p, k);
  }

  lemma QuotientBounds(m: nat, p: nat, low: nat, high: nat)
    requires p > 0 && p * low <= m < p * high
    ensures low <= m / p < high
  {
    DivMod(m, p);
    if m / p < low {
      MultiplyMonotone(p, m / p + 1, low);
    }
    if m / p >= high {
      MultiplyMonotone(p, high, m / p);
    }
  }

  lemma CarryIsScaled(x: nat)
    ensures Pow2(x) * TWO_53 == Scaled(TWO_53 / 2, x + 1)
  {
    assert Pow2(x + 1) == 2 * Pow2(x);
  }

  /** The conversion has a 53-bit significand, also when rounding up carries. */
  lemma NearestIsRepresentable(m: nat)
    ensures Representable(Nearest(m))
  {
    var x := Excess(m);
    var p := Pow2(x);
    ExcessBounds(m);
    QuotientBounds(m, p, 0, TWO_53);
    var s := if Nearest(m) == p * (m / p) then m / p else m / p + 1;
    assert Nearest(m) == p * s;
    if s < TWO_53 {
      assert p * s == Scaled(s, x);
    } else {
      CarryIsScaled(x);
    }
  }

  /** Below 2^53 the conversion is exact, and from there on it stays at or above 2^53. */
  lemma NearestBound(m: nat)
    ensures m < TWO_53 ==> Nearest(m) == m
    ensures m >= TWO_53 ==> Nearest(m) >= TWO_53
  {
    if m >= TWO_53 {
      var p := Pow2(Excess(m));
      ExcessBounds(m);
      assert p == 2 * Pow2(Excess(m) - 1);
      QuotientBounds(m, p, TWO_53 / 2, TWO_53);
      MultiplyMonotone(p, TWO_53 / 2, m / p);
    }
  }

  /** decimal.Float64 of an integer: infinite when the nearest value is 2^1024 or more. */
  function ToFloat(n: int): Float {
    if n >= 0 then
      if Excess(Nearest(n)) > 971 then PosInf else Finite(Nearest(n) as real)
    else
      if Excess(Nearest(-n)) > 971 then NegInf else Finite(-(Nearest(-n) as real))
  }

  lemma {:induction false} ExcessAtMost(m: nat, k: nat)
    ensures Excess(m) <= k <==> m < TWO_53 * Pow2(k)
  {
    if m < TWO_53 {
      MultiplyMonotone(TWO_53, 1, Pow2(k));
    } else if k > 0 {
      ExcessAtMost(m / 2, k - 1);
    }
  }

  /** A conversion is infinite exactly when the nearest value is 2^1024 or more. */
  lemma FloatOverflows(n: int)
    ensures ToFloat(n).Finite? <==> Nearest(if n < 0 then -n else n) < TWO_53 * Pow2(971)
    ensures ToFloat(n).Finite? ==> ToFloat(n).value == (if n < 0 then -(Nearest(-n) as real) else Nearest(n) as real)
  {
    ExcessAtMost(Nearest(if n < 0 then -n else n), 971);
  }

  /** QuotaFromDecimalChecked and WalletQuotaFromDecimalStrict, of the decimal that stands for `d`. */
  function FromDecimal(d: real): Checked {
    Saturate(ToFloat(RoundHalfAway(d)), MAX_QUOTA, MIN_QUOTA)
  }

  function WalletFromDecimal(d: real): Strict {
    Strictly(Saturate(ToFloat(RoundHalfAway(d)), MAX_WALLET, -MAX_WALLET))
  }

  function Clamp(n: int, max: int, min: int): int {
    if n > max then max else if n < min then min else n
  }

  /** Within 53 bits the detour through float64 changes nothing: the result is the clamped integer, and
      a clamp is reported exactly when the integer is out of range. */
  lemma ThroughFloat(n: int, max: int, min: int)
    requires -TWO_53 < min <= 0 <= max < TWO_53
    ensures var c := Saturate(ToFloat(n), max, min);
            c.quota == Clamp(n, max, min) && (c.clamp.None? <==> min <= n <= max)
  {
    NearestBound(if n >= 0 then n else -n);
  }

  /** The wallet conversion succeeds exactly when the rounded decimal fits, and is then exact. */
  lemma WalletIsExact(d: real)
    ensures var n, r := RoundHalfAway(d), WalletFromDecimal(d);
            (r.Ok? <==> -9007199254740991 <= n <= 9007199254740991) && (r.Ok? ==> r.quota == n)
  {
    ThroughFloat(RoundHalfAway(d), MAX_WALLET, -MAX_WALLET);
  }

  lemma DecimalIsClampedRound(d: real)
    ensures var n, c := RoundHalfAway(d), FromDecimal(d);
            && c.quota == (if n > 2147483647 then 2147483647 else if n < -2147483648 then -2147483648 else n)
            && (c.clamp.None? <==> -2147483648 <= n <= 2147483647)
  {
    ThroughFloat(RoundHalfAway(d), MAX_QUOTA, MIN_QUOTA);
  }

  lemma DecimalMonotone(c: real, d: real)
    requires c <= d
    ensures FromDecimal(c).quota <= FromDecimal(d).quota
  {
    DecimalIsClampedRound(c);
    DecimalIsClampedRound(d);
    RoundMonotone(c, d);
  }

  /** In each family the strict form succeeds exactly when the saturating form does not clamp, with the
      same result, and that is exactly when the value, rounded where the family rounds, is in range. */
  lemma StrictAgrees(value: Float, d: real)
    ensures var r := Strictly(FromFloat(value));
            && (r.Ok? <==> value.Finite? && MIN_QUOTA as real <= value.value <= MAX_QUOTA as real)
            && (r.Ok? ==> r.quota == FromFloat(value).quota == Truncate(value.value))
    ensures var r := Strictly(Round(value));
            && (r.Ok? <==> value.Finite? && MIN_QUOTA <= RoundHalfAway(value.value) <= MAX_QUOTA)
            && (r.Ok? ==> r.quota == Round(value).quota == RoundHalfAway(value.value))
    ensures var r := Strictly(FromDecimal(d));
            && (r.Ok? <==> MIN_QUOTA <= RoundHalfAway(d) <= MAX_QUOTA)
            && (r.Ok? ==> r.quota == FromDecimal(d).quota == RoundHalfAway(d))
  {
    SaturateInRange(value, MAX_QUOTA, MIN_QUOTA);
    SaturateInRange(Rounded(value), MAX_QUOTA, MIN_QUOTA);
    DecimalIsClampedRound(d);
  }
}
