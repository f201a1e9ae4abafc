/** Retry policies: which exceptions are retried, and how long each retry waits. */
module Policy {
  import opened Types

  /** One draw of uniform(-1, 1): the source's uniform(-r, r) is a draw times r. */
  type Draw = u: real | -1.0 <= u <= 1.0

  datatype Backoff = Fixed | Linear | Exponential

  function Pow2(n: nat): (p: nat)
    ensures p >= 1
  {
    if n == 0 then 1 else 2 * Pow2(n - 1)
  }

  lemma QuarterRange(d: real, u: Draw)
    ensures d >= 0.0 ==> -0.25 * d <= u * (d * 0.25) <= 0.25 * d
  {
    if d >= 0.0 {
      assert (1.0 + u) * d >= 0.0;
      assert (1.0 - u) * d >= 0.0;
      assert (1.0 + u) * d == d + u * d;
      assert (1.0 - u) * d == d - u * d;
      assert u * (d * 0.25) == 0.25 * (u * d);
    }
  }

  /** One draw of uniform(-d/4, d/4). */
  function Spread(d: real, u: Draw): (r: real)
    ensures d >= 0.0 ==> -0.25 * d <= r <= 0.25 * d
  {
    QuarterRange(d, u);
    u * (d * 0.25)
  }

  datatype RetryPolicy = RetryPolicy(
    maxRetries: nat,
    retryDelay: real,
    backoff: Backoff,
    maxDelay: real,
    jitter: bool,
    retryOn: Option<seq<string>>,
    ignoreOn: Option<seq<string>>)
  {
    /** The field constraints of the configuration model. */
    predicate Valid() {
      retryDelay >= 0.0 && maxDelay >= 0.0
    }

    predicate ShouldRetry(e: Exc) {
      if ignoreOn.Some? && (e.name in ignoreOn.value || e.fullName in ignoreOn.value) then false
      else retryOn.None? || e.name in retryOn.value || e.fullName in retryOn.value
    }

    /** The strategy's delay before the cap and before jitter; attempts count from 1. */
    function RawDelay(attempt: nat): real
      requires attempt >= 1
    {
      match backoff
      case Fixed => retryDelay
      case Linear => retryDelay * attempt as real
      case Exponential => retryDelay * Pow2(attempt - 1) as real
    }

    function CappedDelay(attempt: nat): real
      requires attempt >= 1
    {
      Min(RawDelay(attempt), maxDelay)
    }

    function CalculateDelay(attempt: nat, u: Draw): real
      requires attempt >= 1
    {
      Jittered(CappedDelay(attempt), u)
    }

    function Jittered(delay: real, u: Draw): real {
      Max(0.0, if jitter then delay + Spread(delay, u) else delay)
    }
  }

  /** The exception is named in the list, by its class name with or without the module. */
  predicate Named(e: Exc, names: seq<string>) {
    e.name in names || e.fullName in names
  }

  /** What the two lists of a policy mean: ignoring takes precedence, and without a list of exceptions to
      retry all others are retried. */
  predicate Retryable(p: RetryPolicy, e: Exc) {
    && (p.ignoreOn.Some? ==> !Named(e, p.ignoreOn.value))
    && (p.retryOn.Some? ==> Named(e, p.retryOn.value))
  }

  lemma ListsDecide(p: RetryPolicy, e: Exc)
    ensures p.ShouldRetry(e) <==> Retryable(p, e)
  {}

  /** What a task without a policy gets: no retries, every other field at its default. */
  const NO_RETRIES := RetryPolicy(0, 1.0, Exponential, 3600.0, true, None, None)

  lemma ScaleMono(x: real, y: real, k: real)
    requires x <= y && k >= 0.0
    ensures x * k <= y * k
  {}

  lemma CappedDelayBounds(p: RetryPolicy, n: nat)
    requires p.Valid() && n >= 1
    ensures 0.0 <= p.RawDelay(n)
    ensures 0.0 <= p.CappedDelay(n) <= p.maxDelay
  {
    match p.backoff
    case Fixed =>
    case Linear => ScaleMono(0.0, p.retryDelay, n as real);
    case Exponential => ScaleMono(0.0, p.retryDelay, Pow2(n - 1) as real);
  }

  lemma JitterBounds(p: RetryPolicy, d: real, u: Draw)
    requires d >= 0.0
    ensures 0.75 * d <= p.Jittered(d, u) <= 1.25 * d
  {
    assert -0.25 * d <= Spread(d, u) <= 0.25 * d;
  }

  /** Delays grow with the attempts until they reach the cap, and then stay there. */
  lemma CapIsReached(p: RetryPolicy, n: nat)
    requires p.Valid() && n >= 1
    ensures p.CappedDelay(n) <= p.CappedDelay(n + 1)
    ensures p.CappedDelay(n) == p.maxDelay ==> p.CappedDelay(n + 1) == p.maxDelay
    ensures if p.RawDelay(n) < p.maxDelay then p.CappedDelay(n) == p.RawDelay(n) else p.CappedDelay(n) == p.maxDelay
    ensures !p.jitter ==> forall u: Draw :: p.CalculateDelay(n, u) == p.CappedDelay(n)
  {
    RawDelayMono(p, n);
    CappedDelayBounds(p, n);
  }

  /** Both ends of the jitter interval are reached. */
  lemma JitterExtremes(p: RetryPolicy, d: real)
    requires d >= 0.0 && p.jitter
    ensures p.Jittered(d, 1.0) == 1.25 * d && p.Jittered(d, -1.0) == 0.75 * d
  {}

  /** Jitter moves a delay by at most a quarter of the capped delay, and never below zero. */
  lemma DelayBounds(p: RetryPolicy, n: nat, u: Draw)
    requires p.Valid() && n >= 1
    ensures 0.75 * p.CappedDelay(n) <= p.CalculateDelay(n, u) <= 1.25 * p.CappedDelay(n)
    ensures 0.0 <= p.CalculateDelay(n, u) <= 1.25 * p.maxDelay
  {
    CappedDelayBounds(p, n);
    JitterBounds(p, p.CappedDelay(n), u);
  }

  /** No draw for attempt n waits as long as any draw for attempt n + 1. */
  ghost predicate AlwaysLonger(p: RetryPolicy, n: nat)
    requires n >= 1
  {
    forall u: Draw, v: Draw {:trigger p.CalculateDelay(n, u), p.CalculateDelay(n + 1, v)} ::
      p.CalculateDelay(n, u) < p.CalculateDelay(n + 1, v)
  }

  /** Jittered exponential backoff grows for certain exactly while the uncapped delay is
      positive and below three fifths of the cap. */
  lemma JitteredExponentialGrows(p: RetryPolicy, n: nat)
    requires p.Valid() && p.jitter && p.backoff == Exponential && n >= 1
    ensures AlwaysLonger(p, n) <==> 0.0 < p.RawDelay(n) < 0.6 * p.maxDelay
  {
    assert p.RawDelay(n + 1) == 2.0 * p.RawDelay(n) by {
      assert Pow2(n) == 2 * Pow2(n - 1);
    }
    CappedDelayBounds(p, n);
    CappedDelayBounds(p, n + 1);
    JitterSeparates(p, n, p.CappedDelay(n), p.CappedDelay(n + 1));
  }

  lemma JitterSeparates(p: RetryPolicy, n: nat, d: real, e: real)
    requires p.jitter && n >= 1 && d == p.CappedDelay(n) >= 0.0 && e == p.CappedDelay(n + 1) >= 0.0
    ensures AlwaysLonger(p, n) <==> 1.25 * d < 0.75 * e
  {
    if 1.25 * d < 0.75 * e {
      forall u: Draw, v: Draw {:trigger p.CalculateDelay(n, u), p.CalculateDelay(n + 1, v)}
        ensures p.CalculateDelay(n, u) < p.CalculateDelay(n + 1, v)
      {
        JitterBounds(p, d, u);
        JitterBounds(p, e, v);
      }
    } else {
      JitterExtremes(p, d);
      JitterExtremes(p, e);
      assert !(p.CalculateDelay(n, 1.0) < p.CalculateDelay(n + 1, -1.0));
    }
  }

  lemma OneMore(n: nat, x: real)
    ensures (n + 1) as real * x == n as real * x + x
    ensures x * (n + 1) as real == x * n as real + x
  {}

  /** The waits of a chain of |us| policy-driven retries, one random draw each. */
  function Waits(p: RetryPolicy, us: seq<Draw>): seq<real> {
    seq(|us|, i requires 0 <= i < |us| => p.CalculateDelay(i + 1, us[i]))
  }

  function Sum(ds: seq<real>): real {
    if ds == [] then 0.0 else Sum(ds[..|ds| - 1]) + ds[|ds| - 1]
  }

  lemma {:induction false} SumBounded(ds: seq<real>, cap: real)
    requires forall i :: 0 <= i < |ds| ==> 0.0 <= ds[i] <= cap
    ensures 0.0 <= Sum(ds) <= |ds| as real * cap
  {
    if ds != [] {
      SumBounded(ds[..|ds| - 1], cap);
      OneMore(|ds| - 1, cap);
    }
  }

  lemma EachWaitBounded(p: RetryPolicy, us: seq<Draw>, cap: real)
    requires p.Valid() && cap == 1.25 * p.maxDelay
    ensures forall i :: 0 <= i < |us| ==> 0.0 <= Waits(p, us)[i] <= cap
  {
    forall i | 0 <= i < |us|
      ensures 0.0 <= p.CalculateDelay(i + 1, us[i]) <= cap
    {
      DelayBounds(p, i + 1, us[i]);
    }
  }

  /** N retries wait at most 1.25 * N * max_delay in total. */
  lemma TotalWaitBounded(p: RetryPolicy, us: seq<Draw>, cap: real)
    requires p.Valid() && cap == 1.25 * p.maxDelay
    ensures 0.0 <= Sum(Waits(p, us)) <= |us| as real * cap
  {
    EachWaitBounded(p, us, cap);
    SumBounded(Waits(p, us), cap);
  }

  function Triangle(n: nat): (t: nat)
    ensures 2 * t == n * (n + 1)
  {
    if n == 0 then 0 else Triangle(n - 1) + n
  }

  function ClosedForm(p: RetryPolicy, n: nat): real {
    match p.backoff
    case Fixed => p.retryDelay * n as real
    case Linear => p.retryDelay * Triangle(n) as real
    case Exponential => p.retryDelay * (Pow2(n) - 1) as real
  }

  lemma ClosedFormStep(p: RetryPolicy, n: nat)
    ensures ClosedForm(p, 0) == 0.0
    ensures ClosedForm(p, n + 1) == ClosedForm(p, n) + p.RawDelay(n + 1)
  {
    match p.backoff
    case Fixed => OneMore(n, p.retryDelay);
    case Linear => Distribute(p.retryDelay, Triangle(n), n + 1);
    case Exponential => Distribute(p.retryDelay, Pow2(n) - 1, Pow2(n));
  }

  lemma Distribute(x: real, a: nat, b: nat)
    ensures x * (a + b) as real == x * a as real + x * b as real
  {}

  /** Without jitter, and while no attempt reaches the cap, the total has a closed form. */
  lemma {:induction false} TotalWaitClosedForm(p: RetryPolicy, us: seq<Draw>)
    requires p.Valid() && !p.jitter
    requires |us| >= 1 ==> p.RawDelay(|us|) <= p.maxDelay
    ensures Sum(Waits(p, us)) == ClosedForm(p, |us|)
  {
    if us == [] {
      ClosedFormStep(p, 0);
    } else {
      var n := |us|;
      CappedDelayBounds(p, n);
      if n >= 2 {
        RawDelayMono(p, n - 1);
      }
      TotalWaitClosedForm(p, us[..n - 1]);
      assert Waits(p, us)[..n - 1] == Waits(p, us[..n - 1]);
      ClosedFormStep(p, n - 1);
    }
  }

  lemma RawDelayMono(p: RetryPolicy, n: nat)
    requires p.Valid() && n >= 1
    ensures p.RawDelay(n) <= p.RawDelay(n + 1)
  {
    match p.backoff
    case Fixed =>
    case Linear => OneMore(n, p.retryDelay);
    case Exponential =>
      CappedDelayBounds(p, n);
      assert Pow2(n) == 2 * Pow2(n - 1);
      Distribute(p.retryDelay, Pow2(n - 1), Pow2(n - 1));
  }
}
