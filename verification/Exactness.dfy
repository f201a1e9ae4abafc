/** The settings that protect every task are exactly the sufficient ones: without any of them, a
    short run loses a task. */
module Exactness {
  import opened Types
  import opened Context
  import opened RedisServer
  import opened Protocol
  import opened NoLoss

  const ERROR := Exc("Error", "builtins.Error", "")

  function Sample(name: string): TaskMessage {
    TaskMessage("t", name, [], map[], 0, None, None, None, None)
  }

  /** One task published, read by worker 0 and standing at a counter of its only flight. */
  ghost predicate Standing(s: State, name: string, pc: Pc) {
    && s.clock == 0.0 && s.published == map["t" := Sample(name)]
    && s.sv == Server([Entry(Sample(name), 0.0)], 1, map[0 := Pending(0, 0.0)], {}, [], {})
    && |s.flights| == 1 && s.flights[0].worker == 0 && s.flights[0].tag == 0
    && s.flights[0].msg == Sample(name) && s.flights[0].pc == pc
    && s.condemned == {} && s.workers.Keys == {0}
  }

  /** The only stream entry is no longer pending, and nothing else holds the task. */
  ghost predicate Gone(s: State) {
    && "t" in s.published && |s.sv.stream| == 1 && s.sv.cursor == 1 && 0 !in s.sv.pel
    && s.sv.delayed == {} && s.sv.dlq == []
  }

  lemma GoneIsLost(s: State, strict: bool)
    requires Gone(s) && "t" !in Settled(s, strict)
    ensures !NoneLost(s, strict)
  {
    assert !Safe(s, strict, "t", -1);
  }

  /** One task published, and read by worker 0, who has not looked at it yet. */
  lemma ReachWaiting(c: Config, name: string) returns (s: State)
    ensures Reachable(c, s) && Standing(s.(workers := map[0 := WorkerState(0, 0, 0)]), name, Waiting)
    ensures s.workers == map[]
    ensures s.flights[0].tally == Outside && s.recorded == map[] && s.completed == {}
  {
    InitReachable(c);
    s := Take(c, INIT, ClientPublish(Sample(name), 0.0));
    s := Take(c, s, Deliver(0));
  }

  lemma ReachStarting(c: Config, name: string) returns (s: State)
    requires name in c.tasks && c.concurrency > 0
    ensures Reachable(c, s) && Standing(s, name, SetStarted)
    ensures s.recorded == map[] && s.completed == {}
  {
    s := ReachWaiting(c, name);
    s := Take(c, s, Acquire(0));
  }

  /** Any enabled step leads from a reachable state to a reachable state. */
  lemma Take(c: Config, s: State, l: Label) returns (s': State)
    requires Reachable(c, s) && Enabled(c, s, l)
    ensures Reachable(c, s') && s' == Next(c, s, l)
  {
    StepReachable(c, s, l);
    s' := Next(c, s, l);
  }

  /** A call that succeeds. */
  function FineAt(fid: nat): Label {
    Call(fid, Fine, ERROR, 0.0)
  }

  lemma ReachExecuting(c: Config, name: string) returns (s: State)
    requires name in c.tasks && c.tasks[name].mode == AtLeastOnce && c.concurrency > 0
    ensures Reachable(c, s) && Standing(s, name, Execute)
    ensures s.recorded == map[] && s.completed == {}
  {
    s := ReachStarting(c, name);
    s := Take(c, s, FineAt(0));
  }

  /** A task in at-most-once mode is acknowledged before it is executed. */
  lemma EarlyAckLoses(c: Config, name: string, strict: bool)
    requires name in c.tasks && c.tasks[name].mode == AtMostOnce
    requires c.broker == AtLeastOnce && c.concurrency > 0
    ensures exists s :: Reachable(c, s) && !NoneLost(s, strict)
  {
    var s := ReachStarting(c, name);
    s := Take(c, s, FineAt(0));
    s := Take(c, s, FineAt(0));
    GoneIsLost(s, strict);
  }

  /** Without a result store, a success leaves no trace. */
  lemma NoBackendLoses(c: Config, name: string)
    requires name in c.tasks && c.tasks[name].mode == AtLeastOnce && !c.backend
    requires c.broker == AtLeastOnce && c.concurrency > 0
    ensures exists s :: Reachable(c, s) && !NoneLost(s, false)
  {
    var s := ReachExecuting(c, name);
    s := Take(c, s, Finish(0, Returned, 0.0));
    s := Take(c, s, FineAt(0));
    s := Take(c, s, FineAt(0));
    GoneIsLost(s, false);
  }

  lemma ReachLateCleanup(c: Config, name: string) returns (s: State)
    requires !c.idleStayAway
    ensures Reachable(c, s) && Gone(s) && s.recorded == map[] && s.completed == {}
  {
    s := ReachCondemned(c);
    s := Take(c, s, ClientPublish(Sample(name), 0.0));
    s := Take(c, s, Deliver(0));
    assert 0 in PendingOf(s.sv, 0);
    s := Take(c, s, Cleanup(0));
  }

  /** A consumer that reads again after a cleanup pass found it idle loses what it read. */
  lemma LateCleanupLoses(c: Config, name: string, strict: bool)
    requires !c.idleStayAway
    ensures exists s :: Reachable(c, s) && !NoneLost(s, strict)
  {
    var s := ReachLateCleanup(c, name);
    GoneIsLost(s, strict);
  }

  lemma ReachCondemned(c: Config) returns (s: State)
    ensures Reachable(c, s) && s.condemned == {0}
    ensures s == INIT.(clock := s.clock, seen := s.seen, condemned := {0}) && s.clock >= 0.0
  {
    var dt := Max(c.staleAfter, 0.0) + 1.0;
    InitReachable(c);
    s := Take(c, INIT, Poll(0));
    s := Take(c, s, Tick(dt));
    s := Take(c, s, Snapshot(0));
  }

  /** The body raises. */
  lemma FailBody(c: Config, s: State, name: string) returns (s': State)
    requires Reachable(c, s) && Standing(s, name, Execute)
    ensures Reachable(c, s') && Standing(s', name, StoreFailure) && s'.completed == s.completed
    ensures s'.flights[0].tally == Tally.Failed
  {
    s' := Take(c, s, Finish(0, RaisedValidation, 0.0));
  }

  /** The failure is recorded, if there is a result store. */
  lemma RecordFailure(c: Config, s: State, name: string) returns (s': State)
    requires Reachable(c, s) && Standing(s, name, StoreFailure)
    ensures Reachable(c, s') && Standing(s', name, MoveDlq) && s'.completed == s.completed
    ensures s'.flights[0].tally == s.flights[0].tally
  {
    s' := Take(c, s, FineAt(0));
  }

  lemma ReachFailed(c: Config, name: string) returns (s: State)
    requires name in c.tasks && c.tasks[name].mode == AtLeastOnce && c.concurrency > 0
    ensures Reachable(c, s) && Standing(s, name, MoveDlq) && s.completed == {}
  {
    s := ReachExecuting(c, name);
    s := FailBody(c, s, name);
    s := RecordFailure(c, s, name);
  }

  /** A failed task is dropped when dead letters are off, or when the dead-letter call is refused. */
  lemma DroppedFailureLoses(c: Config, name: string)
    requires name in c.tasks && c.tasks[name].mode == AtLeastOnce && (!c.useDlq || c.dlqRefuses)
    requires c.broker == AtLeastOnce && c.concurrency > 0
    ensures exists s :: Reachable(c, s) && !NoneLost(s, true)
  {
    var s := ReachFailed(c, name);
    s := Nacked(c, s, name);
    GoneIsLost(s, true);
  }

  /** The dead-letter call is refused, if there is one, and the message is acknowledged all the same. */
  lemma Nacked(c: Config, s: State, name: string) returns (s': State)
    requires Reachable(c, s) && Standing(s, name, MoveDlq) && s.completed == {}
    requires c.broker == AtLeastOnce && (!c.useDlq || c.dlqRefuses)
    ensures Reachable(c, s') && Gone(s') && s'.completed == {}
  {
    s' := s;
    if c.useDlq {
      s' := RefuseDeadLetter(c, s, name);
    }
    s' := NackDrops(c, s', name);
  }

  lemma NackDrops(c: Config, s: State, name: string) returns (s': State)
    requires Reachable(c, s) && s.completed == {} && c.broker == AtLeastOnce
    requires Standing(s, name, if c.useDlq then Finalize else MoveDlq)
    ensures Reachable(c, s') && Gone(s') && s'.completed == {}
  {
    s' := Take(c, s, FineAt(0));
  }

  lemma RefuseDeadLetter(c: Config, s: State, name: string) returns (s': State)
    requires Reachable(c, s) && Standing(s, name, MoveDlq) && c.useDlq && c.dlqRefuses
    ensures Reachable(c, s') && Standing(s', name, Finalize) && s'.completed == s.completed
  {
    s' := Take(c, s, Call(0, Refused, ERROR, 0.0));
  }

  /** For an at-least-once broker and at least one task: no reachable state has lost a task, in
      either sense, exactly when the settings protect it. */
  lemma NoTaskLostExactly(c: Config, strict: bool)
    requires c.broker == AtLeastOnce && c.concurrency > 0 && c.tasks != map[]
    ensures (forall s :: Reachable(c, s) ==> NoneLost(s, strict)) <==> Protected(c, strict)
  {
    if Protected(c, strict) {
      forall s | Reachable(c, s)
        ensures NoneLost(s, strict)
      {
        NoTaskLost(c, strict, s);
      }
    } else {
      var name :| name in c.tasks;
      if !AllLate(c) {
        var early :| early in c.tasks && c.tasks[early].mode == AtMostOnce;
        EarlyAckLoses(c, early, strict);
      } else if !c.idleStayAway {
        LateCleanupLoses(c, name, strict);
      } else if strict {
        DroppedFailureLoses(c, name);
      } else {
        NoBackendLoses(c, name);
      }
    }
  }
}
