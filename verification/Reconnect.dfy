/** The RabbitMQ consumer's reconnect loop: how long it waits after each error. */
module Reconnect {
  import opened Types
  import opened Policy

  /** How one pass of the loop ends: in an error before the channel was set up, in an error while
      consuming, or without an error. */
  datatype Pass = SetupFailed | ConsumingFailed | Ended

  /** The number of errors since the last successful setup, the last one included. */
  function Streak(ps: seq<Pass>): nat {
    if ps == [] then 0
    else match ps[|ps| - 1]
      case SetupFailed => Streak(ps[..|ps| - 1]) + 1
      case ConsumingFailed => 1
      case Ended => 0
  }

  function Doubled(base: real, k: nat): real {
    base * Pow2(k) as real
  }

  /** The wait after the k-th error of a streak: the first one is not capped. */
  function WaitAfter(base: real, max: real, k: nat): real
    requires k >= 1
  {
    if k == 1 then base else Min(Doubled(base, k - 1), max)
  }

  lemma DoubledStep(base: real, k: nat)
    ensures Doubled(base, k + 1) == Doubled(base, k) * 2.0
    ensures Doubled(base, 0) == base
  {
    assert Pow2(k + 1) == 2 * Pow2(k);
    var x, y := base, Pow2(k) as real;
    assert x * (2.0 * y) == (x * y) * 2.0;
  }

  lemma {:induction false} DoubledGrows(base: real, k: nat)
    requires base > 0.0
    ensures Doubled(base, k) >= base
  {
    DoubledStep(base, k);
    if k > 0 {
      DoubledGrows(base, k - 1);
      DoubledStep(base, k - 1);
    }
  }

  /** Doubling and capping the last wait of a streak gives the next one. */
  lemma NextWait(base: real, max: real, k: nat)
    requires base > 0.0 && max > 0.0 && k >= 1
    ensures WaitAfter(base, max, k + 1) == Min(WaitAfter(base, max, k) * 2.0, max)
  {
    DoubledStep(base, 0);
    DoubledStep(base, k - 1);
    DoubledGrows(base, k - 1);
  }

  /** The whole loop has the textbook form exactly when the base does not exceed the maximum. */
  lemma CappedForm(base: real, max: real)
    requires base > 0.0 && max > 0.0
    ensures (forall k: nat :: k >= 1 ==> WaitAfter(base, max, k) == Min(Doubled(base, k - 1), max)) <==> base <= max
  {
    DoubledStep(base, 0);
    assert WaitAfter(base, max, 1) == base && Doubled(base, 1 - 1) == base;
  }

  lemma StreakNext(ps: seq<Pass>, p: Pass)
    ensures Streak(ps + [p]) == match p case SetupFailed => Streak(ps) + 1 case ConsumingFailed => 1 case Ended => 0
  {
    assert (ps + [p])[..|ps|] == ps;
  }

  /** Consecutive setup failures are counted from the last pass whose setup succeeded, or from the
      start; an error while consuming is the first of its streak. */
  lemma {:induction false} StreakCounts(ps: seq<Pass>, k: nat)
    requires k <= |ps| && forall i :: |ps| - k <= i < |ps| ==> ps[i] == SetupFailed
    requires k < |ps| ==> ps[|ps| - k - 1] != SetupFailed
    ensures Streak(ps) == k + if k < |ps| && ps[|ps| - k - 1] == ConsumingFailed then 1 else 0
  {
    if k > 0 {
      StreakCounts(ps[..|ps| - 1], k - 1);
    }
  }

  /** After an error while consuming, the next setup failure waits twice the base, capped. */
  lemma SetupAfterConsuming(base: real, max: real, ps: seq<Pass>)
    requires base > 0.0 && max > 0.0
    ensures WaitsOf(base, max, ps + [ConsumingFailed, SetupFailed])
            == WaitsOf(base, max, ps) + [base, Min(2.0 * base, max)]
  {
    var once := ps + [ConsumingFailed];
    var both := ps + [ConsumingFailed, SetupFailed];
    assert once[..|ps|] == ps && both[..|once|] == once;
    DoubledStep(base, 0);
  }

  /** The waits of the loop: each depends on the current streak alone. */
  function WaitsOf(base: real, max: real, ps: seq<Pass>): seq<real> {
    if ps == [] then []
    else WaitsOf(base, max, ps[..|ps| - 1]) + if ps[|ps| - 1] == Ended then [] else [WaitAfter(base, max, Streak(ps))]
  }

  /** The loop over any sequence of passes. */
  method Consume(base: real, max: real, passes: seq<Pass>) returns (sleeps: seq<real>)
    requires base > 0.0 && max > 0.0
    ensures sleeps == WaitsOf(base, max, passes)
  {
    sleeps := [];
    var reconnectDelay := base;
    for i := 0 to |passes|
      invariant sleeps == WaitsOf(base, max, passes[..i])
      invariant reconnectDelay == WaitAfter(base, max, Streak(passes[..i]) + 1)
    {
      assert passes[..i + 1] == passes[..i] + [passes[i]];
      assert passes[..i + 1][..i] == passes[..i];
      StreakNext(passes[..i], passes[i]);
      if passes[i] != SetupFailed {
        reconnectDelay := base;
      }
      if passes[i] == Ended {
        continue;
      }
      sleeps := sleeps + [reconnectDelay];
      NextWait(base, max, Streak(passes[..i + 1]));
      reconnectDelay := Min(reconnectDelay * 2.0, max);
    }
    assert passes[..|passes|] == passes;
  }
}
