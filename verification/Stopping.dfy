/** Stopping a worker: wait for its envelopes, cancel those that are left, wait again.

    What the rest of the system does meanwhile, and how the worker's envelopes come on before they are
    cancelled, is an input: a schedule for each wait. */
module Stopping {
  import opened Types
  import opened Protocol
  import opened Paths
  import Invariants
  import NoLoss
  import DeliveredEntries

  /** The worker's envelopes that are not over. */
  function Running(s: State, w: WorkerId): set<nat> {
    set f | 0 <= f < |s.flights| && s.flights[f].worker == w && s.flights[f].pc != Done
  }

  predicate Receives(l: Label, w: WorkerId) {
    (l.Deliver? || l.ClaimStale?) && l.w == w
  }

  /** Every envelope that the worker gets in the run, it drops with the next step. */
  predicate Dropping(c: Config, w: WorkerId, s: State, ls: seq<Label>)
    requires Admissible(c, s, ls)
  {
    ls == [] ||
    var front, last := ls[..|ls| - 1], ls[|ls| - 1];
    if Drops(c, w, s, front, last) then Dropping(c, w, s, front[..|front| - 1])
    else !Receives(last, w) && Dropping(c, w, s, front)
  }

  /** The run ends with an envelope for the worker, and the next step drops it. */
  predicate Drops(c: Config, w: WorkerId, s: State, ls: seq<Label>, l: Label)
    requires Admissible(c, s, ls)
  {
    ls != [] && Receives(ls[|ls| - 1], w) && l == Kill(|Run(c, s, ls[..|ls| - 1]).flights|)
  }

  predicate Untouched(s: State, w: WorkerId, ls: seq<Label>) {
    forall f :: f in Running(s, w) ==> Own(ls, f) == []
  }

  /** What may happen during the k-th wait: no envelope is taken on, and from the cancellation on those
      that are left do not move, but for being cancelled. */
  predicate MayHappen(c: Config, w: WorkerId, k: nat, s: State, ls: seq<Label>) {
    Admissible(c, s, ls) && Dropping(c, w, s, ls) && (k >= 2 ==> Untouched(s, w, ls))
  }

  /** How a cancelled envelope ends: at an awaited call that may still take effect, or where it stands. */
  function Cancellation(c: Config, fl: Flight, f: nat, reached: bool, now: Time): Label {
    if reached && IsCall(fl.pc) && CanFail(c, fl.pc) then Call(f, Abandoned, Exc("", "", ""), now) else Kill(f)
  }

  ghost predicate CancelledBy(c: Config, fl: Flight, f: nat, reached: bool, own: seq<Label>) {
    |own| == 1 && SameAction(own[0], Cancellation(c, fl, f, reached, 0.0))
  }

  // ---- Runs ----

  lemma {:induction false} RunOn(c: Config, s: State, a: seq<Label>, b: seq<Label>)
    requires Admissible(c, s, a) && Admissible(c, Run(c, s, a), b)
    ensures Admissible(c, s, a + b) && Run(c, s, a + b) == Run(c, Run(c, s, a), b)
  {
    hide Enabled, Next;
    if b == [] {
      assert a + b == a;
    } else {
      var front := b[..|b| - 1];
      RunOn(c, s, a, front);
      assert (a + b)[..|a + b| - 1] == a + front;
    }
  }

  lemma OnTop(run: seq<Label>, from: nat, ls: seq<Label>)
    requires from <= |run|
    ensures (run + ls)[from..] == run[from..] + ls
  {}

  lemma {:induction false} OwnOn(a: seq<Label>, b: seq<Label>, f: nat)
    ensures Own(a + b, f) == Own(a, f) + Own(b, f)
  {
    if b == [] {
      assert a + b == a;
    } else {
      OwnOn(a, b[..|b| - 1], f);
      assert (a + b)[..|a + b| - 1] == a + b[..|b| - 1];
    }
  }

  /** An envelope stays with its worker, and once over it stays over. */
  lemma {:induction false} OverStaysOver(c: Config, s: State, ls: seq<Label>, f: nat)
    requires Admissible(c, s, ls) && f < |s.flights|
    ensures f < |Run(c, s, ls).flights| && Run(c, s, ls).flights[f].worker == s.flights[f].worker
    ensures s.flights[f].pc == Done ==> Own(ls, f) == [] && Run(c, s, ls).flights[f].pc == Done
    ensures Own(ls, f) == [] ==> Run(c, s, ls).flights[f] == s.flights[f]
  {
    if ls != [] {
      OverStaysOver(c, s, ls[..|ls| - 1], f);
      StepMoves(c, Run(c, s, ls[..|ls| - 1]), ls[|ls| - 1], f);
    }
  }

  /** A worker that drops what it gets has no new envelopes. */
  lemma {:induction false} NoneEscapes(c: Config, w: WorkerId, s: State, ls: seq<Label>)
    requires Admissible(c, s, ls) && Dropping(c, w, s, ls)
    ensures forall f :: |s.flights| <= f < |Run(c, s, ls).flights| && Run(c, s, ls).flights[f].worker == w ==>
              Run(c, s, ls).flights[f].pc == Done
  {
    hide Enabled, Next, Receives;
    if ls != [] {
      var front, last := ls[..|ls| - 1], ls[|ls| - 1];
      if Drops(c, w, s, front, last) {
        var first := front[..|front| - 1];
        NoneEscapes(c, w, s, first);
        GotAndDropped(c, w, Run(c, s, first), front[|front| - 1]);
      } else {
        NoneEscapes(c, w, s, front);
        NoneGot(c, w, Run(c, s, front), last);
      }
    }
  }

  lemma NoneGot(c: Config, w: WorkerId, s: State, l: Label)
    requires Enabled(c, s, l) && !Receives(l, w)
    ensures forall f: nat :: f < |Next(c, s, l).flights| && Next(c, s, l).flights[f].worker == w ==>
              && f < |s.flights| && s.flights[f].worker == w
              && (s.flights[f].pc == Done ==> Next(c, s, l).flights[f].pc == Done)
  {
    DeliveredEntries.FlightsStay(c, s, l);
    forall f: nat | f < |s.flights|
      ensures Next(c, s, l).flights[f].worker == s.flights[f].worker
      ensures s.flights[f].pc == Done ==> Next(c, s, l).flights[f].pc == Done
    {
      StepMoves(c, s, l, f);
    }
  }

  lemma GotAndDropped(c: Config, w: WorkerId, s: State, l: Label)
    requires Enabled(c, s, l) && Receives(l, w)
    ensures Enabled(c, Next(c, s, l), Kill(|s.flights|))
    ensures var s' := Next(c, Next(c, s, l), Kill(|s.flights|));
            && |s'.flights| == |s.flights| + 1 && s'.flights[..|s.flights|] == s.flights
            && s'.flights[|s.flights|].worker == w && s'.flights[|s.flights|].pc == Done
  {}

  lemma GotOne(c: Config, w: WorkerId, s: State, l: Label)
    requires Enabled(c, s, l) && Receives(l, w)
    ensures Running(Next(c, s, l), w) == Running(s, w) + {|s.flights|}
  {}

  lemma DroppingMayHappen(c: Config, w: WorkerId, s: State, l: Label)
    requires Enabled(c, s, l) && Receives(l, w)
    ensures MayHappen(c, w, 0, s, [l, Kill(|s.flights|)])
  {
    GotAndDropped(c, w, s, l);
    hide Enabled, Next, Receives;
    var drop := Kill(|s.flights|);
    var both := [l, drop];
    OneStep(c, s, l);
    Extend(c, s, [l], drop);
    assert both == [l] + [drop] && both[..1] == [l] && [l][..0] == [];
    assert Drops(c, w, s, [l], drop) && Dropping(c, w, s, []);
  }

  lemma OneStep(c: Config, s: State, l: Label)
    requires Enabled(c, s, l)
    ensures Admissible(c, s, [l]) && Run(c, s, [l]) == Next(c, s, l)
  {
    Extend(c, s, [], l);
    assert [] + [l] == [l];
  }

  lemma CancellationMoves(c: Config, w: WorkerId, s: State, f: nat, reached: bool)
    requires f in Running(s, w) && s.clock >= 0.0
    ensures var l := Cancellation(c, s.flights[f], f, reached, s.clock);
            && Enabled(c, s, l) && IsOwn(l, f) && |Next(c, s, l).flights| == |s.flights|
            && forall g :: 0 <= g < |s.flights| ==>
                 if g == f then Next(c, s, l).flights[g].pc == Done
                 else !IsOwn(l, g) && Next(c, s, l).flights[g] == s.flights[g]
  {}

  lemma OneCancellation(c: Config, fl: Flight, f: nat, reached: bool, now: Time)
    ensures CancelledBy(c, fl, f, reached, [Cancellation(c, fl, f, reached, now)])
  {}

  /** A cancellation that arrives while a call is awaited may come after the call has taken effect; otherwise
      it leaves the server and the records alone. It ends the envelope in any case, as neither processed nor
      failed. */
  lemma CancellationEnds(c: Config, s: State, f: nat, reached: bool)
    requires f < |s.flights| && s.flights[f].pc != Done && s.clock >= 0.0
    ensures var fl, l := s.flights[f], Cancellation(c, s.flights[f], f, reached, s.clock);
            && Enabled(c, s, l)
            && var s' := Next(c, s, l);
               && s'.flights[f].pc == Done
               && s'.flights[f].tally == (if fl.tally == InTry then Cancelled else fl.tally)
               && if reached && IsCall(fl.pc) && CanFail(c, fl.pc) then
                    && s'.sv == ServerEffect(c, s.sv, s.clock, fl, s.clock)
                    && s'.recorded == RecordEffect(c, s.recorded, fl)
                  else s'.sv == s.sv && s'.recorded == s.recorded
  {}

  /** In these steps, which have led from `mid` to `s`, those of the envelopes that are not left have been
      cancelled, and those that are left have not moved. */
  ghost predicate OnlyCancelled(c: Config, mid: State, all: set<nat>, left: set<nat>, reached: nat -> bool,
                                s: State, steps: seq<Label>)
    requires forall f :: f in all ==> f < |mid.flights|
  {
    && left <= all
    && (forall f :: f in all ==> f < |s.flights|)
    && (forall f :: f in left ==> Own(steps, f) == [] && s.flights[f] == mid.flights[f])
    && forall f :: f in all - left ==>
         s.flights[f].pc == Done && CancelledBy(c, mid.flights[f], f, reached(f), Own(steps, f))
  }

  lemma WaitKeeps(c: Config, mid: State, all: set<nat>, left: set<nat>, reached: nat -> bool, s: State,
                  steps: seq<Label>, ls: seq<Label>)
    requires forall f :: f in all ==> f < |mid.flights|
    requires OnlyCancelled(c, mid, all, left, reached, s, steps)
    requires Admissible(c, s, ls) && forall f :: f in left ==> Own(ls, f) == []
    ensures OnlyCancelled(c, mid, all, left, reached, Run(c, s, ls), steps + ls)
  {
    hide CancelledBy, Run, Own;
    forall f | f in all
      ensures Own(steps + ls, f) == Own(steps, f)
      ensures f < |Run(c, s, ls).flights| && Run(c, s, ls).flights[f] == s.flights[f]
    {
      OwnOn(steps, ls, f);
      OverStaysOver(c, s, ls, f);
    }
  }

  lemma CancellationKeeps(c: Config, w: WorkerId, mid: State, all: set<nat>, left: set<nat>, reached: nat -> bool,
                          s: State, steps: seq<Label>, f: nat)
    requires forall f :: f in all ==> f < |mid.flights|
    requires OnlyCancelled(c, mid, all, left, reached, s, steps) && left == Running(s, w) && f in left && s.clock >= 0.0
    ensures var l := Cancellation(c, s.flights[f], f, reached(f), s.clock);
            Enabled(c, s, l) && OnlyCancelled(c, mid, all, left - {f}, reached, Next(c, s, l), steps + [l])
  {
    hide Enabled, Next, Cancellation, CancelledBy;
    var l := Cancellation(c, s.flights[f], f, reached(f), s.clock);
    CancellationMoves(c, w, s, f, reached(f));
    OneCancellation(c, s.flights[f], f, reached(f), s.clock);
    forall g | g in all
      ensures Own(steps + [l], g) == if g == f then [l] else Own(steps, g)
    {
      assert (steps + [l])[..|steps|] == steps;
    }
  }

  /** stop() does nothing if the worker is not running, fails with the consume loop, or stops the worker. */
  datatype Ending = Ignored | Failed | Stopped

  /** What the worker needs to stop; Workers.Worker follows a single envelope. */
  class Worker {
    const c: Config
    const id: WorkerId
    var s: State                           // the system that the worker is part of
    var running: bool
    var tasks: set<nat>                    // the envelopes it has a task for that is not done
    ghost var run: seq<Label>              // every step of the whole system so far

    /** A worker that consumes. */
    constructor (c: Config, id: WorkerId, s: State, ghost run: seq<Label>)
      requires Admissible(c, INIT, run) && Run(c, INIT, run) == s
      ensures Valid() && running && this.c == c && this.id == id && this.s == s && this.run == run
    {
      this.c, this.id, this.s, this.run := c, id, s, run;
      running, tasks := true, Running(s, id);
    }

    /** Its tasks are exactly its envelopes that are not over. */
    ghost predicate Valid()
      reads this
    {
      Admissible(c, INIT, run) && Run(c, INIT, run) == s && tasks == Running(s, id)
    }

    /** The consume loop gets an envelope: it makes a task of it or, once the worker is to stop, drops it. */
    method Consumed(l: Label)
      requires Valid() && Enabled(c, s, l) && Receives(l, id)
      modifies this`s, this`run, this`tasks
      ensures Valid()
      ensures tasks == if running then old(tasks) + {|old(s).flights|} else old(tasks)
      ensures run == old(run) + if running then [l] else [l, Kill(|old(s).flights|)]
      ensures !running ==> MayHappen(c, id, 0, old(s), [l, Kill(|old(s).flights|)])
    {
      hide Enabled, Next;
      GotOne(c, id, s, l);
      var fid := |s.flights|;
      Extend(c, INIT, run, l);
      if running {
        s, run, tasks := Next(c, s, l), run + [l], tasks + {fid};
      } else {
        GotAndDropped(c, id, s, l);
        DroppingMayHappen(c, id, s, l);
        Extend(c, INIT, run + [l], Kill(fid));
        assert run + [l, Kill(fid)] == run + [l] + [Kill(fid)];
        s, run := Next(c, Next(c, s, l), Kill(fid)), run + [l, Kill(fid)];
      }
    }

    /** A wait, during which this happens. */
    method Wait(ghost k: nat, ls: seq<Label>)
      requires Valid() && MayHappen(c, id, k, s, ls)
      modifies this`s, this`run, this`tasks
      ensures Valid() && run == old(run) + ls && s == Run(c, old(s), ls)
      ensures k >= 2 ==> tasks == old(tasks) && forall f :: f in tasks ==> s.flights[f] == old(s).flights[f]
    {
      RunOn(c, INIT, run, ls);
      NoneEscapes(c, id, s, ls);
      forall f: nat | f < |s.flights|
        ensures f < |Run(c, s, ls).flights| && Run(c, s, ls).flights[f].worker == s.flights[f].worker
        ensures s.flights[f].pc == Done ==> Run(c, s, ls).flights[f].pc == Done
        ensures Own(ls, f) == [] ==> Run(c, s, ls).flights[f] == s.flights[f]
      {
        OverStaysOver(c, s, ls, f);
      }
      s, run := Run(c, s, ls), run + ls;
      tasks := set f | f in tasks && s.flights[f].pc != Done;
    }

    lemma ClockRuns()
      requires Valid()
      ensures Reachable(c, s) && s.clock >= 0.0
    {
      Invariants.ReachableMail(c, s);
    }

    /** A cancellation arrives. */
    method Cancel(f: nat, reached: bool)
      requires Valid() && f in tasks
      modifies this`s, this`run, this`tasks
      ensures Valid() && tasks == old(tasks) - {f} && old(s).clock >= 0.0
      ensures var l := Cancellation(c, old(s).flights[f], f, reached, old(s).clock);
              run == old(run) + [l] && Enabled(c, old(s), l) && s == Next(c, old(s), l)
    {
      hide Enabled, Next;
      ClockRuns();
      CancellationMoves(c, id, s, f, reached);
      var l := Cancellation(c, s.flights[f], f, reached, s.clock);
      Extend(c, INIT, run, l);
      s, run, tasks := Next(c, s, l), run + [l], tasks - {f};
    }

    /** All tasks are asked to end, and waited for; in which order they end is open. */
    method CancelAll(others: (nat, State) -> seq<Label>, reached: nat -> bool)
      requires Valid()
      requires forall k: nat, s: State :: MayHappen(c, id, k, s, others(k, s))
      modifies this`s, this`run, this`tasks
      ensures Valid() && tasks == {} && old(run) <= run
      ensures old(tasks) == {} ==> run == old(run)
      ensures forall f :: f in old(tasks) ==>
                CancelledBy(c, old(s).flights[f], f, reached(f), Own(run[|old(run)|..], f))
    {
      var k := 2;
      while tasks != {}
        invariant Valid() && old(run) <= run && k >= 2
        invariant old(tasks) == {} ==> run == old(run)
        invariant OnlyCancelled(c, old(s), old(tasks), tasks, reached, s, run[|old(run)|..])
        decreases |tasks|
      {
        CancelNext(k, others(k, s), reached, |old(run)|, old(s), old(tasks));
        k := k + 1;
      }
    }

    method CancelNext(ghost k: nat, ls: seq<Label>, reached: nat -> bool, ghost from: nat, ghost mid: State,
                      ghost all: set<nat>)
      requires Valid() && tasks != {} && k >= 2 && MayHappen(c, id, k, s, ls)
      requires from <= |run| && (forall f :: f in all ==> f < |mid.flights|)
      requires OnlyCancelled(c, mid, all, tasks, reached, s, run[from..])
      modifies this`s, this`run, this`tasks
      ensures Valid() && old(run) <= run && |tasks| < old(|tasks|)
      ensures OnlyCancelled(c, mid, all, tasks, reached, s, run[from..])
    {
      hide Enabled, Next, Run, Admissible, OnlyCancelled, CancelledBy;
      WaitKeeps(c, mid, all, tasks, reached, s, run[from..], ls);
      OnTop(run, from, ls);
      Wait(k, ls);
      var f :| f in tasks;
      CancelOne(f, reached, from, mid, all);
    }

    method CancelOne(f: nat, reached: nat -> bool, ghost from: nat, ghost mid: State, ghost all: set<nat>)
      requires Valid() && f in tasks && from <= |run| && (forall f :: f in all ==> f < |mid.flights|)
      requires OnlyCancelled(c, mid, all, tasks, reached, s, run[from..])
      modifies this`s, this`run, this`tasks
      ensures Valid() && old(run) <= run && tasks == old(tasks) - {f}
      ensures OnlyCancelled(c, mid, all, tasks, reached, s, run[from..])
    {
      hide Enabled, Next, Run, Admissible, OnlyCancelled, CancelledBy;
      ClockRuns();
      CancellationKeeps(c, id, mid, all, tasks, reached, s, run[from..], f);
      OnTop(run, from, [Cancellation(c, s.flights[f], f, reached(f), s.clock)]);
      Cancel(f, reached(f));
    }

    /** Stop: wait for the consume loop, which may come back with an exception; then for the tasks, until
        all are done or the time is over; and cancel those that are left.

        A worker that is not running any more, because its consume loop has failed, is not stopped:
        nothing happens, and its tasks go on. Nor are they waited for if the consume loop fails now.
        Otherwise no envelope of the worker is left. Each that was left after the wait has ended by its
        cancellation, once, and without any other step. */
    method Stop(fails: bool, others: (nat, State) -> seq<Label>, reached: nat -> bool) returns (e: Ending)
      requires Valid()
      requires forall k: nat, s: State :: MayHappen(c, id, k, s, others(k, s))
      modifies this
      ensures Valid() && !running
      ensures e == if !old(running) then Ignored else if fails then Ending.Failed else Stopped
      ensures e == Ignored ==> run == old(run)
      ensures e == Ending.Failed ==> run == old(run) + others(0, old(s))
      ensures e == Stopped ==>
                var first := others(0, old(s));
                MayHappen(c, id, 0, old(s), first) &&
                var second := others(1, Run(c, old(s), first));
                MayHappen(c, id, 1, Run(c, old(s), first), second) &&
                var late, waited := Run(c, Run(c, old(s), first), second), old(run) + first + second;
                && tasks == Running(s, id) == {}
                && waited <= run && (Running(late, id) == {} ==> run == waited)
                && forall f :: f in Running(late, id) ==>
                     CancelledBy(c, late.flights[f], f, reached(f), Own(run[|waited|..], f))
    {
      if !running {
        return Ignored;
      }
      running := false;
      Wait(0, others(0, s));
      if fails {
        return Ending.Failed;
      }
      Wait(1, others(1, s));
      if tasks != {} {
        CancelAll(others, reached);
      }
      e := Stopped;
    }

    /** A worker without tasks has all its permits, and every envelope it ever had is still pending or its
        task does not depend on it, then and in every later state. */
    lemma StoppedLosesNothing(strict: bool, ls: seq<Label>)
      requires Valid() && tasks == {} && NoLoss.Protected(c, strict) && Admissible(c, s, ls)
      ensures WorkerOf(c, s, id).permits == c.concurrency
      ensures var later := Run(c, s, ls);
              forall f :: 0 <= f < |later.flights| && later.flights[f].worker == id ==>
                var fl := later.flights[f];
                fl.tag in later.sv.pel || NoLoss.Safe(later, strict, fl.msg.id, fl.tag)
    {
      ClockRuns();
      forall f | 0 <= f < |s.flights| && s.flights[f].worker == id
        ensures s.flights[f].pc == Done
      {
        assert f !in Running(s, id);
      }
      DeliveredEntries.StoppedWorkerLosesNothing(c, strict, s, id, ls);
      RunReachable(c, s, ls);
      forall f: nat | f < |Run(c, s, ls).flights|
        ensures var fl := Run(c, s, ls).flights[f];
                fl.tag in Run(c, s, ls).sv.pel || NoLoss.Safe(Run(c, s, ls), strict, fl.msg.id, fl.tag)
      {
        DeliveredEntries.EnvelopeIsCovered(c, strict, Run(c, s, ls), f);
      }
    }
  }
}
