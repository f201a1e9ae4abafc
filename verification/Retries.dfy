/** Retries over whole runs: which failures are retried, and when the retry is there. */
module Retries {
  import opened Types
  import opened Policy
  import opened Context
  import opened RedisServer
  import opened Protocol
  import opened Invariants
  import opened Fates
  import Paths

  // ---- What is never retried ----

  /** Past the point of retrying, or about to be turned down by the policy. */
  predicate Refused(c: Config, fl: Flight) {
    match fl.pc
    case Handling(e) => !(HasRetryLeft(c, fl.msg) && Retryable(c.tasks[fl.msg.name].policy.value, e))
    case StoreFailure | MoveDlq | Finalize | Done => true
    case _ => false
  }

  lemma RefusedStays(c: Config, fl: Flight, l: Label)
    requires Refused(c, fl) && (l.Call? || l.Handle? || l.Kill?)
    ensures Refused(c, Paths.MoveBy(c, fl, l))
  {
    if fl.pc.Handling? {
      ListsDecide(c.PolicyOf(fl.msg.name), fl.pc.exc);
      BudgetDecides(c, fl.msg);
    }
  }

  lemma {:induction false} RunStaysRefused(c: Config, s: State, ls: seq<Label>, f: nat)
    requires Admissible(c, s, ls) && f < |s.flights| && Refused(c, s.flights[f])
    ensures f < |Run(c, s, ls).flights| && Refused(c, Run(c, s, ls).flights[f])
  {
    if ls != [] {
      var before, l := ls[..|ls| - 1], ls[|ls| - 1];
      RunStaysRefused(c, s, before, f);
      Paths.StepMoves(c, Run(c, s, before), l, f);
      if Paths.IsOwn(l, f) {
        RefusedStays(c, Run(c, s, before).flights[f], l);
      }
    }
  }

  /** A body that has failed and does not want a retry is never retried: in no run that follows does the
      flight build, announce or publish a next message, whatever fails, and however often the rest of
      the system steps in. */
  lemma NeverRetried(c: Config, s: State, f: nat, body: Body, u: Draw, ls: seq<Label>)
    requires Enabled(c, s, Finish(f, body, u)) && !body.Returned? && !WantsRetry(c, s.flights[f].msg, body)
    requires Admissible(c, Next(c, s, Finish(f, body, u)), ls)
    ensures f < |Run(c, Next(c, s, Finish(f, body, u)), ls).flights|
    ensures var pc := Run(c, Next(c, s, Finish(f, body, u)), ls).flights[f].pc;
            !pc.Retrying? && !pc.SetRetry? && !pc.Republish? && pc != AckRetry
  {
    var s' := Next(c, s, Finish(f, body, u));
    BodyRefused(c, s.flights[f], body, u);
    Paths.StepMoves(c, s, Finish(f, body, u), f);
    RunStaysRefused(c, s', ls, f);
  }

  lemma BodyRefused(c: Config, fl: Flight, body: Body, u: Draw)
    requires !body.Returned? && !WantsRetry(c, fl.msg, body)
    ensures Refused(c, fl.(pc := AfterBody(c, fl, body, u).0))
  {
    BudgetDecides(c, fl.msg);
    if body.AskedRetry? && body.cause.Some? {
      ListsDecide(c.PolicyOf(fl.msg.name), body.cause.value);
    }
  }

  // ---- How long a retry waits ----

  /** The wait a policy may choose for an attempt. */
  predicate PolicyWait(p: RetryPolicy, attempt: nat, wait: real) {
    attempt >= 1 && 0.75 * p.CappedDelay(attempt) <= wait <= 1.25 * p.CappedDelay(attempt)
  }

  /** A granted request waits as it has asked or, if it has not, as the policy says for the next attempt. */
  lemma AskedWait(c: Config, s: State, f: nat, countdown: Option<real>, cause: Option<Exc>, u: Draw)
    requires Enabled(c, s, Finish(f, AskedRetry(countdown, cause), u)) && c.PolicyOf(s.flights[f].msg.name).Valid()
    ensures var fl, pc := s.flights[f], Next(c, s, Finish(f, AskedRetry(countdown, cause), u)).flights[f].pc;
            && (WantsRetry(c, fl.msg, AskedRetry(countdown, cause)) <==> pc.Retrying?)
            && (pc.Retrying? && countdown.Some? ==> pc.countdown == countdown)
            && (pc.Retrying? && countdown.None? ==>
                  && pc.countdown.Some?
                  && PolicyWait(c.PolicyOf(fl.msg.name), fl.msg.retries + 1, pc.countdown.value))
  {
    var fl := s.flights[f];
    Paths.StepMoves(c, s, Finish(f, AskedRetry(countdown, cause), u), f);
    BudgetDecides(c, fl.msg);
    if cause.Some? {
      ListsDecide(c.PolicyOf(fl.msg.name), cause.value);
    }
    DelayBounds(c.PolicyOf(fl.msg.name), fl.msg.retries + 1, u);
  }

  /** The message is to be executed this long after `now`: it is given that time, unless the wait is 0. */
  predicate DueAt(next: TaskMessage, now: Time, wait: real) {
    next.eta == if wait == 0.0 then None else Some(now + wait)
  }

  /** The next message as it is built: when it is due, and the error it tells. */
  lemma BuiltRetry(c: Config, s: State, f: nat, now: Time, u: Draw)
    requires Enabled(c, s, Handle(f, now, u)) && c.PolicyOf(s.flights[f].msg.name).Valid()
    ensures var fl, pc := s.flights[f], Next(c, s, Handle(f, now, u)).flights[f].pc;
            && (pc.SetRetry? ==> pc.next.retries == fl.msg.retries + 1)
            && match fl.pc
               case Retrying(None) => pc.SetRetry? && DueAt(pc.next, now, 0.0) && pc.next.lastError == None
               case Retrying(Some(d)) => pc.SetRetry? && DueAt(pc.next, now, d) && pc.next.lastError == None
               case Handling(e) =>
                 && (pc.SetRetry? <==> HasRetryLeft(c, fl.msg) && Retryable(c.PolicyOf(fl.msg.name), e))
                 && (pc.SetRetry? ==>
                       && pc.next.lastError == Some(e.text)
                       && exists wait :: PolicyWait(c.PolicyOf(fl.msg.name), pc.next.retries, wait)
                                         && DueAt(pc.next, now, wait))
  {
    hide Retryable, RetryPolicy.ShouldRetry, RetryPolicy.CappedDelay, RetryPolicy.CalculateDelay;
    var fl := s.flights[f];
    Paths.StepMoves(c, s, Handle(f, now, u), f);
    BudgetDecides(c, fl.msg);
    if fl.pc.Handling? {
      var p := c.PolicyOf(fl.msg.name);
      ListsDecide(p, fl.pc.exc);
      DelayBounds(p, fl.msg.retries + 1, u);
      assert Next(c, s, Handle(f, now, u)).flights[f].pc.SetRetry? ==>
          DueAt(Next(c, s, Handle(f, now, u)).flights[f].pc.next, now, p.CalculateDelay(fl.msg.retries + 1, u));
    }
  }

  lemma StepAppendsNow(c: Config, s: State, l: Label)
    requires Shape(c, s) && Enabled(c, s, l)
    ensures |s.sv.stream| <= |Next(c, s, l).sv.stream| && s.clock <= Next(c, s, l).clock
    ensures forall i :: |s.sv.stream| <= i < |Next(c, s, l).sv.stream| ==> Next(c, s, l).sv.stream[i].at == s.clock
    ensures forall i :: 0 <= i < |s.sv.stream| ==> Next(c, s, l).sv.stream[i] == s.sv.stream[i]
  {
    if l.Call? {
      EffectAppendsNow(c, s.sv, s.clock, s.flights[l.fid], l.now);
    }
  }

  lemma EffectAppendsNow(c: Config, sv: Server, clock: Time, fl: Flight, now: Time)
    ensures var stream := ServerEffect(c, sv, clock, fl, now).stream;
            sv.stream <= stream && forall i :: |sv.stream| <= i < |stream| ==> stream[i].at == clock
  {}

  /** What a run appends is appended while it runs. */
  lemma {:induction false} AppendedLater(c: Config, s: State, ls: seq<Label>)
    requires Shape(c, s) && Admissible(c, s, ls)
    ensures Shape(c, Run(c, s, ls)) && |s.sv.stream| <= |Run(c, s, ls).sv.stream| && s.clock <= Run(c, s, ls).clock
    ensures forall i :: |s.sv.stream| <= i < |Run(c, s, ls).sv.stream| ==> Run(c, s, ls).sv.stream[i].at >= s.clock
  {
    hide Shape;
    if ls != [] {
      var before, l := ls[..|ls| - 1], ls[|ls| - 1];
      AppendedLater(c, s, before);
      ShapeKept(c, Run(c, s, before), l);
      StepAppendsNow(c, Run(c, s, before), l);
    }
  }

  /** The wait of a retry that is about to be built at this counter is at least this long. */
  predicate WaitsAtLeast(c: Config, fl: Flight, wait: real) {
    match fl.pc
    case Retrying(countdown) => wait == if countdown.Some? then countdown.value else 0.0
    case Handling(_) => wait == 0.75 * c.PolicyOf(fl.msg.name).CappedDelay(fl.msg.retries + 1)
    case _ => false
  }

  lemma WaitIsKept(c: Config, s: State, f: nat, now: Time, u: Draw, wait: real)
    requires Enabled(c, s, Handle(f, now, u)) && c.PolicyOf(s.flights[f].msg.name).Valid()
    requires WaitsAtLeast(c, s.flights[f], wait) && Next(c, s, Handle(f, now, u)).flights[f].pc.SetRetry?
    ensures f < |s.flights| && f < |Next(c, s, Handle(f, now, u)).flights|
    ensures var next := Next(c, s, Handle(f, now, u)).flights[f].pc.next;
            && (next.eta.None? ==> wait <= 0.0) && (next.eta.Some? ==> next.eta.value >= now + wait)
            && (s.flights[f].pc.Retrying? && wait == 0.0 ==> next.eta.None?)
  {
    BuiltRetry(c, s, f, now, u);
  }

  /** Over any run: a retry built at `now` is not in the stream before its wait is over, and a retry without
      a wait is never scheduled. */
  lemma RetryIsNeverEarly(c: Config, s: State, f: nat, now: Time, u: Draw, wait: real, ls: seq<Label>)
    requires Reachable(c, s) && Enabled(c, s, Handle(f, now, u)) && c.PolicyOf(s.flights[f].msg.name).Valid()
    requires WaitsAtLeast(c, s.flights[f], wait) && Next(c, s, Handle(f, now, u)).flights[f].pc.SetRetry?
    requires Admissible(c, Next(c, s, Handle(f, now, u)), ls)
    ensures var next := Next(c, s, Handle(f, now, u)).flights[f].pc.next;
            var later := Run(c, Next(c, s, Handle(f, now, u)), ls);
            && (forall i :: |s.sv.stream| <= i < |later.sv.stream| && later.sv.stream[i].msg == next ==>
                  later.sv.stream[i].at >= now + wait)
            && (s.flights[f].pc.Retrying? && wait == 0.0 ==> next !in later.sv.delayed)
  {
    hide Next, Enabled, Shape, Mail;
    var s' := Next(c, s, Handle(f, now, u));
    WaitIsKept(c, s, f, now, u, wait);
    StepReachable(c, s, Handle(f, now, u));
    ReachableMail(c, s');
    AppendedLater(c, s', ls);
    RunReachable(c, s', ls);
    NeverEarly(c, Run(c, s', ls));
    HandleKeepsServer(c, s, f, now, u);
  }

  lemma HandleKeepsServer(c: Config, s: State, f: nat, now: Time, u: Draw)
    requires Enabled(c, s, Handle(f, now, u))
    ensures Next(c, s, Handle(f, now, u)).sv == s.sv && Next(c, s, Handle(f, now, u)).clock == s.clock >= now
  {}

  /** And it is sent as it was built: with a time still to come it is scheduled, and may be promoted as soon
      as that time has come; otherwise it is the next entry of the stream. */
  lemma RetryIsSent(c: Config, s: State, l: Label, next: TaskMessage)
    requires Enabled(c, s, l) && l.Call? && s.flights[l.fid].pc == Republish(next) && l.fault != Fault.Refused
    ensures var sv := Next(c, s, l).sv;
            if next.eta.Some? && l.now < next.eta.value then
              && sv == s.sv.(delayed := s.sv.delayed + {next})
              && forall later: State, now: Time {:trigger Enabled(c, later, PromoteOne(next, now))} ::
                   next in later.sv.delayed && next.eta.value <= now <= later.clock ==>
                     Enabled(c, later, PromoteOne(next, now))
            else sv == s.sv.(stream := s.sv.stream + [Entry(next, s.clock)])
  {}
}
