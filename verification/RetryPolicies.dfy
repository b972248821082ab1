/** Geometric backoff between attempts, in whole seconds. Powers are exact real numbers here. */
module RetryPolicies {
  import opened Common

  datatype DelayError = AttemptTooSmall | NoFollowUp

  datatype RetryPolicy = RetryPolicy(maxAttempts: int, baseDelay: nat, factor: real) {
    /** What the constructor of the policy insists on. */
    predicate Valid() { maxAttempts >= 1 && factor >= 0.0 }
  }

  function Pow(f: real, n: nat): real {
    if n == 0 then 1.0 else f * Pow(f, n - 1)
  }

  /** Round to the nearest integer, halves to the even neighbour. */
  function Round(x: real): (r: int)
    ensures -0.5 <= r as real - x <= 0.5
    ensures r as real - x == 0.5 || x - r as real == 0.5 ==> r % 2 == 0
  {
    var low := x.Floor;
    var rest := x - low as real;
    if rest < 0.5 then low
    else if rest > 0.5 then low + 1
    else if low % 2 == 0 then low
    else low + 1
  }

  function Exact(p: RetryPolicy, attempt: nat): real
    requires attempt >= 1
  {
    p.baseDelay as real * Pow(p.factor, attempt - 1)
  }

  /** The wait after `attempt`, before attempt `attempt + 1`. */
  function DelayFor(p: RetryPolicy, attempt: int): Result<nat, DelayError> {
    if attempt < 1 then Err(AttemptTooSmall)
    else if attempt >= p.maxAttempts then Err(NoFollowUp)
    else
      var seconds := Round(Exact(p, attempt));
      Ok(if seconds < 0 then 0 else seconds)
  }

  /** All the waiting done before attempt `attempts`. */
  function TotalDelay(p: RetryPolicy, attempts: nat): nat
    requires 1 <= attempts <= p.maxAttempts
  {
    if attempts == 1 then 0
    else TotalDelay(p, attempts - 1) + DelayFor(p, attempts - 1).value
  }

  // ------------------------------------------------------------------- lemmas

  /** There is a delay after every attempt but the last; it is the geometric one to within half a second. */
  lemma DelayIff(p: RetryPolicy, attempt: int)
    requires p.Valid()
    ensures DelayFor(p, attempt).Ok? <==> 1 <= attempt < p.maxAttempts
    ensures DelayFor(p, attempt) == Err(AttemptTooSmall) <==> attempt < 1
    ensures 1 <= attempt < p.maxAttempts ==>
              -0.5 <= DelayFor(p, attempt).value as real - p.baseDelay as real * Pow(p.factor, attempt - 1) <= 0.5
  {
    if 1 <= attempt < p.maxAttempts {
      ExactNonNegative(p, attempt);
    }
  }

  lemma RoundMonotone(x: real, y: real)
    requires x <= y
    ensures Round(x) <= Round(y)
  {
    if x.Floor == y.Floor {
    } else {
      assert x.Floor + 1 <= y.Floor;
    }
  }

  lemma {:induction false} PowNonNegative(f: real, n: nat)
    requires f >= 0.0
    ensures Pow(f, n) >= 0.0
  {
    if n > 0 {
      PowNonNegative(f, n - 1);
    }
  }

  lemma ScaleGrows(base: real, x: real, y: real)
    requires base >= 0.0 && x <= y
    ensures base * x <= base * y
  {
    assert base * (y - x) >= 0.0;
    assert base * (y - x) == base * y - base * x;
  }

  lemma PowGrows(f: real, n: nat)
    requires f >= 1.0
    ensures Pow(f, n) <= Pow(f, n + 1)
  {
    var x := Pow(f, n);
    PowNonNegative(f, n);
    assert (f - 1.0) * x >= 0.0;
    assert (f - 1.0) * x == f * x - x;
  }

  lemma ExactGrows(p: RetryPolicy, attempt: nat)
    requires p.Valid() && p.factor >= 1.0 && attempt >= 1
    ensures Exact(p, attempt) <= Exact(p, attempt + 1)
  {
    PowGrows(p.factor, attempt - 1);
    ScaleGrows(p.baseDelay as real, Pow(p.factor, attempt - 1), Pow(p.factor, attempt));
  }

  /** With a factor of at least one, later waits are never shorter. */
  lemma DelaysNeverShrink(p: RetryPolicy, attempt: nat)
    requires p.Valid() && p.factor >= 1.0 && 1 <= attempt && attempt + 1 < p.maxAttempts
    ensures DelayFor(p, attempt).Ok? && DelayFor(p, attempt + 1).Ok?
    ensures DelayFor(p, attempt).value <= DelayFor(p, attempt + 1).value
  {
    ExactGrows(p, attempt);
    RoundMonotone(Exact(p, attempt), Exact(p, attempt + 1));
  }

  function PowSum(f: real, n: nat): real {
    if n == 0 then 0.0 else PowSum(f, n - 1) + Pow(f, n - 1)
  }

  lemma {:induction false} GeometricSum(f: real, n: nat)
    ensures (f - 1.0) * PowSum(f, n) == Pow(f, n) - 1.0
  {
    if n > 0 {
      GeometricSum(f, n - 1);
      assert (f - 1.0) * (PowSum(f, n - 1) + Pow(f, n - 1))
          == (f - 1.0) * PowSum(f, n - 1) + (f - 1.0) * Pow(f, n - 1);
      assert (f - 1.0) * Pow(f, n - 1) == f * Pow(f, n - 1) - Pow(f, n - 1);
    }
  }

  /** The waiting before attempt `n` without rounding. */
  function ExactTotal(p: RetryPolicy, n: nat): real
    requires n >= 1
  {
    if n == 1 then 0.0 else ExactTotal(p, n - 1) + Exact(p, n - 1)
  }

  lemma {:induction false} RoundingError(p: RetryPolicy, n: nat)
    requires p.Valid() && 1 <= n <= p.maxAttempts
    ensures -((n - 1) as real / 2.0) <= TotalDelay(p, n) as real - ExactTotal(p, n) <= (n - 1) as real / 2.0
  {
    if n > 1 {
      RoundingError(p, n - 1);
      ExactNonNegative(p, n - 1);
    }
  }

  lemma ExactNonNegative(p: RetryPolicy, attempt: nat)
    requires p.Valid() && attempt >= 1
    ensures Exact(p, attempt) >= 0.0
  {
    PowNonNegative(p.factor, attempt - 1);
  }

  lemma Distribute(a: real, b: real, c: real)
    ensures a * (b + c) == a * b + a * c
  {
  }

  lemma {:induction false} ExactTotalIsSeries(p: RetryPolicy, n: nat)
    requires n >= 1
    ensures ExactTotal(p, n) == p.baseDelay as real * PowSum(p.factor, n - 1)
  {
    if n > 1 {
      ExactTotalIsSeries(p, n - 1);
      Distribute(p.baseDelay as real, PowSum(p.factor, n - 2), Pow(p.factor, n - 2));
    }
  }

  lemma Quotient(base: real, sum: real, d: real, total: real)
    requires d != 0.0 && d * sum == total
    ensures base * sum == base * total / d
  {
    assert base * total == base * sum * d;
    assert base * sum * d / d == base * sum;
  }

  /** `base * (f^k - 1) / (f - 1)`, where `power` is `f^k`. */
  function Series(base: real, f: real, power: real): real
    requires f != 1.0
  {
    base * (power - 1.0) / (f - 1.0)
  }

  lemma QuotientOfSeries(base: real, sum: real, f: real, pow: real)
    requires f != 1.0 && (f - 1.0) * sum == pow - 1.0
    ensures base * sum == Series(base, f, pow)
  {
    Quotient(base, sum, f - 1.0, pow - 1.0);
  }

  lemma ExactTotalClosed(p: RetryPolicy, n: nat)
    requires n >= 1 && p.factor != 1.0
    ensures ExactTotal(p, n) == Series(p.baseDelay as real, p.factor, Pow(p.factor, n - 1))
  {
    ExactTotalIsSeries(p, n);
    GeometricSum(p.factor, n - 1);
    QuotientOfSeries(p.baseDelay as real, PowSum(p.factor, n - 1), p.factor, Pow(p.factor, n - 1));
  }

  /**
   The waiting of `n` attempts is the geometric series of the policy, to within half a second for
   each wait.
   */
  lemma TotalIsGeometric(p: RetryPolicy, n: nat)
    requires p.Valid() && p.factor != 1.0 && 1 <= n <= p.maxAttempts
    ensures var series := Series(p.baseDelay as real, p.factor, Pow(p.factor, n - 1));
            series - (n - 1) as real / 2.0 <= TotalDelay(p, n) as real <= series + (n - 1) as real / 2.0
  {
    RoundingError(p, n);
    ExactTotalClosed(p, n);
  }
}
