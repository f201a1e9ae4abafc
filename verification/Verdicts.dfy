/** The recorded outcomes are true. */
module Verdicts {
  import opened Types
  import opened Protocol
  import Paths

  /** A handling of this task has got as far as its body. */
  ghost predicate Attempted(s: State, id: TaskId) {
    exists f :: 0 <= f < |s.flights| && s.flights[f].msg.id == id && s.flights[f].tally != Outside
  }

  /** A handling of this task has failed, or found no task of that name. */
  predicate Failing(c: Config, fl: Flight) {
    fl.tally == Failed || fl.msg.name !in c.tasks
  }

  ghost predicate HasFailed(c: Config, s: State, id: TaskId) {
    exists f :: 0 <= f < |s.flights| && s.flights[f].msg.id == id && Failing(c, s.flights[f])
  }

  /** A flight about to store an outcome has good reason to. */
  predicate Honest(c: Config, completed: set<TaskId>, fl: Flight) {
    match fl.pc
    case Waiting | SetStarted | EarlyAck => fl.tally == Outside
    case Execute => fl.tally == InTry
    case StoreSuccess | AckSuccess => fl.tally == InTry && fl.msg.id in completed
    case Handling(_) => fl.tally == Failed
    case Retrying(_) => fl.tally == Failed
    case StoreFailure => Failing(c, fl)
    case _ => true
  }

  ghost predicate Truthful(c: Config, s: State) {
    && (forall f :: 0 <= f < |s.flights| ==> Honest(c, s.completed, s.flights[f]))
    && (forall id :: id in s.completed ==> Attempted(s, id))
    && (forall id :: id in s.recorded ==>
          if s.recorded[id] == Succeeded then id in s.completed else HasFailed(c, s, id))
  }

  /** A step takes every flight from one honest counter to another. */
  lemma StepIsHonest(c: Config, s: State, l: Label, f: nat)
    requires Enabled(c, s, l) && f < |s.flights| && Honest(c, s.completed, s.flights[f])
    ensures f < |Next(c, s, l).flights|
    ensures var fl, fl' := s.flights[f], Next(c, s, l).flights[f];
            Goes(c, Next(c, s, l).completed, fl, fl')
  {
    Paths.StepMoves(c, s, l, f);
    StepRecords(c, s, l);
    var fl, completed := s.flights[f], Next(c, s, l).completed;
    if Paths.IsOwn(l, f) {
      if l.Call? {
        CallIsHonest(c, completed, fl, l);
      } else {
        LocalIsHonest(c, completed, fl, l);
      }
    }
  }

  /** Neither an attempt nor a failure is taken back. */
  predicate Goes(c: Config, completed: set<TaskId>, fl: Flight, fl': Flight) {
    && Honest(c, completed, fl') && fl'.msg == fl.msg
    && (Failing(c, fl) ==> Failing(c, fl')) && (fl.tally != Outside ==> fl'.tally != Outside)
  }

  lemma CallIsHonest(c: Config, completed: set<TaskId>, fl: Flight, l: Label)
    requires Honest(c, completed, fl) && l.Call? && IsCall(fl.pc)
    ensures Goes(c, completed, fl, Paths.MoveBy(c, fl, l))
  {}

  lemma LocalIsHonest(c: Config, completed: set<TaskId>, fl: Flight, l: Label)
    requires Honest(c, completed, fl)
    requires match l
             case Acquire(_) => fl.pc == Waiting
             case Finish(_, body, _) => fl.pc == Execute && (body.Returned? ==> fl.msg.id in completed)
             case Handle(_, _, _) => fl.pc.Handling? || fl.pc.Retrying?
             case Kill(_) => true
             case _ => false
    ensures Goes(c, completed, fl, Paths.MoveBy(c, fl, l))
  {}

  /** What a step adds to the completed tasks and to the records. */
  lemma StepRecords(c: Config, s: State, l: Label)
    requires Enabled(c, s, l)
    ensures Next(c, s, l).completed
            == s.completed + if l.Finish? && l.body.Returned? then {s.flights[l.fid].msg.id} else {}
    ensures Next(c, s, l).recorded
            == if l.Call? && l.fault != Refused then RecordEffect(c, s.recorded, s.flights[l.fid]) else s.recorded
  {
    hide ServerEffect, RecordEffect, Goto, AfterBody, Decide;
  }

  lemma NewFlightsWait(c: Config, s: State, l: Label)
    requires Enabled(c, s, l)
    ensures var flights := Next(c, s, l).flights;
            |s.flights| <= |flights| && forall f :: |s.flights| <= f < |flights| ==>
                                          flights[f].pc == Waiting && flights[f].tally == Outside
  {}

  lemma TruthfulKept(c: Config, s: State, l: Label)
    requires Truthful(c, s) && Enabled(c, s, l)
    ensures Truthful(c, Next(c, s, l))
  {
    var s' := Next(c, s, l);
    StepRecords(c, s, l);
    NewFlightsWait(c, s, l);
    forall f: nat | f < |s.flights|
      ensures f < |s'.flights| && Honest(c, s'.completed, s'.flights[f]) && s'.flights[f].msg == s.flights[f].msg
      ensures Failing(c, s.flights[f]) ==> Failing(c, s'.flights[f])
      ensures s.flights[f].tally != Outside ==> s'.flights[f].tally != Outside
    {
      StepIsHonest(c, s, l, f);
    }
    hide Next, Enabled, Honest, Failing;
    forall id | Attempted(s, id)
      ensures Attempted(s', id)
    {
      var f :| 0 <= f < |s.flights| && s.flights[f].msg.id == id && s.flights[f].tally != Outside;
      assert s'.flights[f].msg.id == id;
    }
    forall id | HasFailed(c, s, id)
      ensures HasFailed(c, s', id)
    {
      var f :| 0 <= f < |s.flights| && s.flights[f].msg.id == id && Failing(c, s.flights[f]);
      assert s'.flights[f].msg.id == id;
    }
    NewRecords(c, s, l);
  }

  /** What is new is true. */
  lemma NewRecords(c: Config, s: State, l: Label)
    requires Truthful(c, s) && Enabled(c, s, l)
    ensures var s' := Next(c, s, l);
            && (forall id :: id in s'.completed && id !in s.completed ==> Attempted(s', id))
            && (forall id :: id in s'.recorded && (id !in s.recorded || s'.recorded[id] != s.recorded[id]) ==>
                  if s'.recorded[id] == Succeeded then id in s'.completed else HasFailed(c, s', id))
  {
    StepRecords(c, s, l);
    if (l.Finish? || l.Call?) {
      assert Honest(c, s.completed, s.flights[l.fid]);
      StepIsHonest(c, s, l, l.fid);
      var fl' := Next(c, s, l).flights[l.fid];
      assert l.Finish? ==> s.flights[l.fid].tally != Outside;
      assert l.Call? && s.flights[l.fid].pc == StoreFailure ==> Failing(c, fl');
    }
  }

  lemma {:induction false} RunIsTruthful(c: Config, ls: seq<Label>)
    requires Admissible(c, INIT, ls)
    ensures Truthful(c, Run(c, INIT, ls))
  {
    if ls != [] {
      RunIsTruthful(c, ls[..|ls| - 1]);
      TruthfulKept(c, Run(c, INIT, ls[..|ls| - 1]), ls[|ls| - 1]);
    }
  }

  /** In every reachable state: a recorded success is one of a task whose body has returned, a recorded
      failure one of a task that has failed or that the worker does not know, and a body has returned only
      in an attempt. */
  lemma RecordsAreTrue(c: Config, s: State, id: TaskId)
    requires Reachable(c, s)
    ensures id in s.recorded && s.recorded[id] == Succeeded ==> id in s.completed
    ensures id in s.recorded && s.recorded[id] == FailedWith ==> HasFailed(c, s, id)
    ensures id in s.completed ==> Attempted(s, id)
  {
    var ls :| Admissible(c, INIT, ls) && Run(c, INIT, ls) == s;
    RunIsTruthful(c, ls);
  }

  /** And each outcome is recorded by the call for it, if there is a store and the call takes effect: the
      one just stored, and no other changes. */
  lemma OutcomeIsRecorded(c: Config, s: State, l: Label)
    requires Enabled(c, s, l) && l.Call? && l.fault != Refused && c.backend
    ensures var fl, recorded := s.flights[l.fid], Next(c, s, l).recorded;
            && (fl.pc == StoreSuccess ==> recorded == s.recorded[fl.msg.id := Succeeded])
            && (fl.pc == StoreFailure ==> recorded == s.recorded[fl.msg.id := FailedWith])
            && (fl.pc != StoreSuccess && fl.pc != StoreFailure ==> recorded == s.recorded)
  {}
}
