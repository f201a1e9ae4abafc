/** The context handed to a task body, and what the end of a body means to the worker. */
module Context {
  import opened Types
  import opened Policy

  /** How a task body ends. */
  datatype Body =
    | Returned
    | AskedRetry(countdown: Option<real>, cause: Option<Exc>)
    | RaisedValidation
    | RaisedMaxRetries
    | Raised(exc: Exc)

  /** The exception arms of the worker. */
  datatype Outcome =
    | Success
    | Retry(countdown: Option<real>)
    | MaxRetries
    | Invalid
    | Threw(exc: Exc)

  datatype TaskContext = TaskContext(retries: nat, maxRetries: nat, policy: Option<RetryPolicy>)
  {
    function EffectiveMax(): nat {
      if policy.Some? then policy.value.maxRetries else maxRetries
    }

    /** A call of the context's retry never returns: it raises one of three exceptions. */
    function AskRetry(countdown: Option<real>, cause: Option<Exc>, u: Draw): Outcome
    {
      if retries >= EffectiveMax() then MaxRetries
      else if cause.Some? && policy.Some? && !policy.value.ShouldRetry(cause.value) then Threw(cause.value)
      else if countdown.None? && policy.Some? then Retry(Some(policy.value.CalculateDelay(retries + 1, u)))
      else Retry(countdown)
    }

    function RemainingRetries(): nat {
      if EffectiveMax() >= retries then EffectiveMax() - retries else 0
    }
  }

  /** The worker always passes the task's own policy to the context. */
  function Evaluate(p: RetryPolicy, retries: nat, body: Body, u: Draw): Outcome
  {
    match body
    case Returned => Success
    case AskedRetry(countdown, cause) => TaskContext(retries, p.maxRetries, Some(p)).AskRetry(countdown, cause, u)
    case RaisedValidation => Invalid
    case RaisedMaxRetries => MaxRetries
    case Raised(e) => Threw(e)
  }

  /** A retry request is refused for lack of budget exactly when no retry remains, and otherwise turned down
      exactly if it names a cause that the policy does not retry. A granted one waits as it has asked or, if
      it has not asked for a wait, for a time within the policy's bounds for the next attempt. */
  lemma RetryRequest(ctx: TaskContext, countdown: Option<real>, cause: Option<Exc>, u: Draw)
    requires ctx.policy.Some? ==> ctx.policy.value.Valid()
    ensures var o := ctx.AskRetry(countdown, cause, u);
            var turnedDown := cause.Some? && ctx.policy.Some? && !Retryable(ctx.policy.value, cause.value);
            var most := if ctx.policy.Some? then ctx.policy.value.maxRetries else ctx.maxRetries;
            && (o == MaxRetries <==> ctx.retries >= most)
            && (ctx.RemainingRetries() == 0 <==> ctx.retries >= most)
            && (o.Threw? <==> ctx.RemainingRetries() > 0 && turnedDown) && (o.Threw? ==> o.exc == cause.value)
            && (o.Retry? <==> ctx.RemainingRetries() > 0 && !turnedDown)
            && (o.Retry? && (countdown.Some? || ctx.policy.None?) ==> o.countdown == countdown)
            && (o.Retry? && countdown.None? && ctx.policy.Some? ==>
                  && o.countdown.Some?
                  && var cap := ctx.policy.value.CappedDelay(ctx.retries + 1);
                     0.75 * cap <= o.countdown.value <= 1.25 * cap)
  {
    if ctx.policy.Some? {
      DelayBounds(ctx.policy.value, ctx.retries + 1, u);
      if cause.Some? {
        ListsDecide(ctx.policy.value, cause.value);
      }
    }
  }

  /** The worker hands the task's own policy to the context, and only these two ends of a body can lead to
      a retry. */
  lemma OnlyRequestsAndExceptions(p: RetryPolicy, retries: nat, body: Body, u: Draw)
    ensures var o := Evaluate(p, retries, body, u);
            && (o.Retry? ==> body.AskedRetry? && retries < p.maxRetries)
            && (o.Threw? ==> body == Raised(o.exc) || (body.AskedRetry? && body.cause == Some(o.exc)))
            && (o.Success? <==> body.Returned?) && (o.Invalid? <==> body.RaisedValidation?)
            && (o.MaxRetries? <==> body.RaisedMaxRetries? || (body.AskedRetry? && retries >= p.maxRetries))
  {}
}
