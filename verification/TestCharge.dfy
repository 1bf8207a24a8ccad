/** The charge for a channel test billed by ratio (controller/channel-test.go): three rounded stages and
    a minimum of one, over real arithmetic. */
module TestCharge {
  import opened QuotaMath
  import opened Wrappers

  function Quota(x: real): int {
    Round(Finite(x)).quota
  }

  function Scale(n: int, ratio: real): int {
    Quota(n as real * ratio)
  }

  function Add(m: int, n: int): int {
    Quota(m as real + n as real)
  }

  function AtLeastOne(quota: int, ratio: real): int {
    if ratio != 0.0 && quota <= 0 then 1 else quota
  }

  function ChargeOf(prompt: int, completion: int, completionRatio: real, modelRatio: real): int {
    AtLeastOne(Scale(Add(prompt, Scale(completion, completionRatio)), modelRatio), modelRatio)
  }

  lemma QuotaMonotone(x: real, y: real)
    requires x <= y
    ensures Quota(x) <= Quota(y)
  {
    RoundQuotaMonotone(Finite(x), Finite(y));
  }

  lemma ProductMonotone(x: real, y: real, r: real)
    requires x <= y && r >= 0.0
    ensures x * r <= y * r
  {
  }

  ghost predicate Monotone(q: real -> int) {
    forall x, y | x <= y :: q(x) <= q(y)
  }

  lemma ScaleByMonotone(q: real -> int, m: int, n: int, ratio: real)
    requires Monotone(q) && m <= n && ratio >= 0.0
    ensures q(m as real * ratio) <= q(n as real * ratio)
  {
    ProductMonotone(m as real, n as real, ratio);
  }

  lemma QuotaIsMonotone()
    ensures Monotone(Quota)
  {
    forall x, y | x <= y ensures Quota(x) <= Quota(y) {
      QuotaMonotone(x, y);
    }
  }

  lemma ScaleMonotone(m: int, n: int, ratio: real)
    requires m <= n && ratio >= 0.0
    ensures Scale(m, ratio) <= Scale(n, ratio)
  {
    QuotaIsMonotone();
    ScaleByMonotone(Quota, m, n, ratio);
  }

  lemma AddMonotone(m: int, n: int, m': int, n': int)
    requires m <= m' && n <= n'
    ensures Add(m, n) <= Add(m', n')
  {
    QuotaMonotone(m as real + n as real, m' as real + n' as real);
  }

  /** More tokens of either kind never cost less. */
  lemma ChargeMonotone(prompt: int, completion: int, prompt': int, completion': int, completionRatio: real, modelRatio: real)
    requires prompt <= prompt' && completion <= completion' && completionRatio >= 0.0 && modelRatio >= 0.0
    ensures ChargeOf(prompt, completion, completionRatio, modelRatio) <= ChargeOf(prompt', completion', completionRatio, modelRatio)
  {
    ScaleMonotone(completion, completion', completionRatio);
    var c, c' := Scale(completion, completionRatio), Scale(completion', completionRatio);
    AddMonotone(prompt, c, prompt', c');
    ScaleMonotone(Add(prompt, c), Add(prompt', c'), modelRatio);
  }

  // ---------------------------------------------------------------- range

  lemma QuotaInRange(x: real)
    ensures MIN_QUOTA <= Quota(x) <= MAX_QUOTA && (x >= 0.0 ==> Quota(x) >= 0)
  {
    SaturateInRange(Rounded(Finite(x)), MAX_QUOTA, MIN_QUOTA);
  }

  lemma ProductNonNegative(n: nat, ratio: real)
    requires ratio >= 0.0
    ensures n as real * ratio >= 0.0
  {
  }

  lemma ScaleInRange(n: nat, ratio: real)
    requires ratio >= 0.0
    ensures 0 <= Scale(n, ratio) <= MAX_QUOTA && (ratio == 0.0 ==> Scale(n, ratio) == 0)
  {
    ProductNonNegative(n, ratio);
    QuotaInRange(n as real * ratio);
  }

  /** The charge is a legal quota, at least one unless the model is free, and nothing if it is. */
  lemma ChargeInRange(prompt: nat, completion: nat, completionRatio: real, modelRatio: real)
    requires completionRatio >= 0.0 && modelRatio >= 0.0
    ensures var charge := ChargeOf(prompt, completion, completionRatio, modelRatio);
            && 0 <= charge <= MAX_QUOTA
            && (modelRatio > 0.0 ==> charge >= 1)
            && (modelRatio == 0.0 ==> charge == 0)
  {
    ScaleInRange(completion, completionRatio);
    var c := Scale(completion, completionRatio);
    QuotaInRange(prompt as real + c as real);
    ScaleInRange(Add(prompt, c), modelRatio);
  }

  // ---------------------------------------------------------------- error

  /** Rounding `x` to a quota does not clamp. */
  predicate Fits(x: real) {
    Round(Finite(x)).clamp.None?
  }

  predicate ScaleFits(n: int, ratio: real) {
    Fits(n as real * ratio)
  }

  predicate AddFits(m: int, n: int) {
    Fits(m as real + n as real)
  }

  predicate Unclamped(prompt: int, completion: int, completionRatio: real, modelRatio: real) {
    var c := Scale(completion, completionRatio);
    ScaleFits(completion, completionRatio) && AddFits(prompt, c) && ScaleFits(Add(prompt, c), modelRatio)
  }

  ghost function ExactTokens(prompt: int, completion: int, completionRatio: real): real {
    prompt as real + completion as real * completionRatio
  }

  lemma QuotaNear(x: real)
    requires Fits(x)
    ensures Quota(x) == RoundHalfAway(x) && Abs(Quota(x) as real - x) <= 0.5
  {
    SaturateInRange(Rounded(Finite(x)), MAX_QUOTA, MIN_QUOTA);
    RoundedIsNearest(x, RoundHalfAway(x));
  }

  lemma ScaleNear(n: int, ratio: real)
    requires ScaleFits(n, ratio)
    ensures Abs(Scale(n, ratio) as real - n as real * ratio) <= 0.5
  {
    QuotaNear(n as real * ratio);
  }

  /** A sum of integers is not rounded. */
  lemma AddExact(m: int, n: int)
    requires AddFits(m, n)
    ensures Add(m, n) == m + n
  {
    QuotaNear((m + n) as real);
    RoundedIsNearest((m + n) as real, m + n);
  }

  lemma ScaledDifference(a: real, b: real, ratio: real)
    requires ratio >= 0.0 && Abs(a - b) <= 0.5
    ensures Abs(a * ratio - b * ratio) <= 0.5 * ratio
  {
    ProductMonotone(a, b + 0.5, ratio);
    ProductMonotone(b - 0.5, a, ratio);
    Distribute(b, 0.5, ratio);
    Distribute(b, -0.5, ratio);
  }

  lemma Distribute(a: real, b: real, ratio: real)
    ensures (a + b) * ratio == a * ratio + b * ratio
  {
  }

  lemma Triangle(q: real, rounded: real, exact: real, h: real)
    requires Abs(q - rounded) <= 0.5 && Abs(rounded - exact) <= h
    ensures Abs(q - exact) <= 0.5 + h
  {
  }

  /** How the two rounding errors add up; `x` and `c` are the token quota before and after rounding. */
  lemma ErrorsAddUp(x: real, c: real, ratio: real, q: real)
    requires ratio >= 0.0 && Abs(c - x) <= 0.5 && Abs(q - c * ratio) <= 0.5
    ensures Abs(q - x * ratio) <= (ratio + 1.0) / 2.0
  {
    ScaledDifference(c, x, ratio);
    Triangle(q, c * ratio, x * ratio, 0.5 * ratio);
  }

  lemma MinimumError(q: nat, price: real, ratio: real)
    requires price >= 0.0 && ratio >= 0.0 && Abs(q as real - price) <= (ratio + 1.0) / 2.0
    ensures Within(AtLeastOne(q, ratio), price, ratio)
  {
  }

  lemma TokenError(prompt: int, completion: int, completionRatio: real)
    requires ScaleFits(completion, completionRatio) && AddFits(prompt, Scale(completion, completionRatio))
    ensures Abs(Add(prompt, Scale(completion, completionRatio)) as real - ExactTokens(prompt, completion, completionRatio)) <= 0.5
  {
    ScaleNear(completion, completionRatio);
    AddExact(prompt, Scale(completion, completionRatio));
  }

  lemma ScaleError(t: int, x: real, ratio: real)
    requires ratio >= 0.0 && ScaleFits(t, ratio) && Abs(t as real - x) <= 0.5
    ensures Abs(Scale(t, ratio) as real - x * ratio) <= (ratio + 1.0) / 2.0
  {
    ScaleNear(t, ratio);
    ErrorsAddUp(x, t as real, ratio, Scale(t, ratio) as real);
  }

  ghost predicate Within(charge: int, price: real, ratio: real) {
    Abs(charge as real - price) <= 1.0 || Abs(charge as real - price) <= (ratio + 1.0) / 2.0
  }

  lemma NonNegativeProduct(x: real, y: real)
    requires x >= 0.0 && y >= 0.0
    ensures x * y >= 0.0
  {
  }

  lemma FinalError(t: nat, x: real, ratio: real)
    requires ratio >= 0.0 && x >= 0.0 && ScaleFits(t, ratio) && Abs(t as real - x) <= 0.5
    ensures Within(AtLeastOne(Scale(t, ratio), ratio), x * ratio, ratio)
  {
    ScaleError(t, x, ratio);
    ScaleInRange(t, ratio);
    NonNegativeProduct(x, ratio);
    MinimumError(Scale(t, ratio), x * ratio, ratio);
  }

  lemma TokensNonNegative(prompt: nat, completion: nat, completionRatio: real)
    requires completionRatio >= 0.0
    ensures Add(prompt, Scale(completion, completionRatio)) >= 0 && ExactTokens(prompt, completion, completionRatio) >= 0.0
  {
    ProductNonNegative(completion, completionRatio);
    ScaleInRange(completion, completionRatio);
    QuotaInRange(prompt as real + Scale(completion, completionRatio) as real);
  }

  /** Without clamping the charge is within max(1, (modelRatio + 1) / 2) of the exact price. */
  lemma ChargeError(prompt: nat, completion: nat, completionRatio: real, modelRatio: real, tokens: real)
    requires completionRatio >= 0.0 && modelRatio >= 0.0
    requires Unclamped(prompt, completion, completionRatio, modelRatio)
    requires tokens == ExactTokens(prompt, completion, completionRatio)
    ensures Within(ChargeOf(prompt, completion, completionRatio, modelRatio), tokens * modelRatio, modelRatio)
  {
    TokenError(prompt, completion, completionRatio);
    TokensNonNegative(prompt, completion, completionRatio);
    FinalError(Add(prompt, Scale(completion, completionRatio)), tokens, modelRatio);
  }

  // ---------------------------------------------------------------- the staged computation

  predicate Regular(prompt: int, completion: int, completionRatio: real, modelRatio: real) {
    prompt >= 0 && completion >= 0 && completionRatio >= 0.0 && modelRatio >= 0.0
  }

  /** Whatever the counts and ratios are, only a free model costs nothing. */
  lemma ChargeMinimum(prompt: int, completion: int, completionRatio: real, modelRatio: real)
    ensures modelRatio != 0.0 ==> ChargeOf(prompt, completion, completionRatio, modelRatio) >= 1
    ensures modelRatio == 0.0 ==> ChargeOf(prompt, completion, completionRatio, modelRatio) == 0
  {
    if modelRatio == 0.0 {
      ScaleByZero(Add(prompt, Scale(completion, completionRatio)));
    }
  }

  lemma ScaleByZero(n: int)
    ensures Scale(n, 0.0) == 0
  {
    QuotaInRange(0.0);
    assert n as real * 0.0 == 0.0;
  }

  /** settleTestQuota without a fixed price and without tiers: the variable is reassigned in stages. The
      charge is a legal quota, at least one unless the model is free and nothing if it is, and without
      clamping it is within max(1, (modelRatio + 1) / 2) of the exact price. */
  method Charge(prompt: int, completion: int, completionRatio: real, modelRatio: real)
    returns (quota: int, ghost tokens: real)
    ensures Regular(prompt, completion, completionRatio, modelRatio) ==> 0 <= quota <= MAX_QUOTA
    ensures modelRatio != 0.0 ==> quota >= 1
    ensures modelRatio == 0.0 ==> quota == 0
    ensures tokens == ExactTokens(prompt, completion, completionRatio)
    ensures (Regular(prompt, completion, completionRatio, modelRatio)
             && Unclamped(prompt, completion, completionRatio, modelRatio)) ==>
              Within(quota, tokens * modelRatio, modelRatio)
    ensures quota == ChargeOf(prompt, completion, completionRatio, modelRatio)
  {
    tokens := ExactTokens(prompt, completion, completionRatio);
    ChargeMinimum(prompt, completion, completionRatio, modelRatio);
    if Regular(prompt, completion, completionRatio, modelRatio) {
      ChargeInRange(prompt, completion, completionRatio, modelRatio);
      if Unclamped(prompt, completion, completionRatio, modelRatio) {
        ChargeError(prompt, completion, completionRatio, modelRatio, tokens);
      }
    }
    var completionQuota := Scale(completion, completionRatio);
    quota := Add(prompt, completionQuota);
    quota := Scale(quota, modelRatio);
    if modelRatio != 0.0 && quota <= 0 {
      quota := 1;
    }
  }
}
