/** The task life cycle as a step system: one queue, one result store, any number of workers.

    A worker's handling of one envelope is a flight. A flight has a program counter for every
    await of the source; between two steps of a flight anything else may happen. A cancelled
    envelope, and each envelope of a worker that dies, is a Kill step, possible at any counter. */
module Protocol {
  import opened Types
  import opened Policy
  import opened Context
  import opened RedisServer

  datatype TaskOptions = TaskOptions(policy: Option<RetryPolicy>, mode: DeliveryMode)
  {
    function GetRetryPolicy(): RetryPolicy {
      if policy.Some? then policy.value else NO_RETRIES
    }
  }

  /** The application's settings and, last, what its surroundings may do:
      `idleStayAway`: a consumer seen idle for too long never reads again;
      `dlqRefuses`: the dead-letter call may fail without effect;
      `replays`: operators replay dead letters. */
  datatype Config = Config(
    tasks: map<string, TaskOptions>,
    broker: DeliveryMode,
    backend: bool,
    useDlq: bool,
    concurrency: nat,
    claimMinIdle: real,
    staleAfter: real,
    idleStayAway: bool,
    dlqRefuses: bool,
    replays: bool)
  {
    function PolicyOf(name: string): RetryPolicy {
      if name in tasks then tasks[name].GetRetryPolicy() else NO_RETRIES
    }

    function ModeOf(name: string): DeliveryMode {
      if name in tasks then tasks[name].mode else AtLeastOnce
    }

    function MaxRetriesOf(name: string): nat {
      PolicyOf(name).maxRetries
    }
  }

  /** How an awaited call ends: done; failed without effect; done, but reported as failed; done, but
      the envelope is cancelled before the answer comes. */
  datatype Fault = Fine | Refused | Lost | Abandoned

  datatype Pc =
    | Waiting                                      // for the semaphore
    | SetStarted
    | EarlyAck
    | Execute
    | StoreSuccess
    | AckSuccess
    | Handling(exc: Exc)                           // about to consult the retry policy
    | Retrying(countdown: Option<real>)            // about to build the next message
    | SetRetry(next: TaskMessage)
    | Republish(next: TaskMessage)
    | AckRetry
    | StoreFailure
    | MoveDlq
    | Finalize
    | Done

  /** Where an envelope is in the worker's books. */
  datatype Tally = Outside | InTry | Processed | Failed | Cancelled

  /** A cancelled envelope is counted as such if it was in the execution block. */
  function Halted(t: Tally): Tally {
    if t == InTry then Cancelled else t
  }

  datatype Flight = Flight(worker: WorkerId, tag: nat, msg: TaskMessage, pc: Pc, tally: Tally)

  datatype Verdict = Succeeded | FailedWith

  datatype WorkerState = WorkerState(permits: int, processed: nat, failed: nat)

  /** `published` holds every message a client published, `completed` the ids whose body has
      returned, `recorded` what the result store holds. `condemned` are the consumers that a
      cleanup pass has seen idle and without pending entries. */
  datatype State = State(
    sv: Server,
    clock: Time,
    published: map<TaskId, TaskMessage>,
    completed: set<TaskId>,
    recorded: map<TaskId, Verdict>,
    flights: seq<Flight>,
    workers: map<WorkerId, WorkerState>,
    seen: map<WorkerId, Time>,
    condemned: set<WorkerId>)

  const INIT := State(EMPTY, 0.0, map[], {}, map[], [], map[], map[], {})

  function WorkerOf(c: Config, s: State, w: WorkerId): WorkerState {
    if w in s.workers then s.workers[w] else WorkerState(c.concurrency, 0, 0)
  }

  datatype Label =
    | Tick(dt: real)
    | ClientPublish(m: TaskMessage, now: Time)
    | PromoteOne(m: TaskMessage, now: Time)
    | Poll(w: WorkerId)                            // a blocking read that times out empty
    | Deliver(w: WorkerId)
    | ClaimStale(w: WorkerId, tag: nat)
    | Acquire(fid: nat)
    | Finish(fid: nat, body: Body, u: Draw)        // the task body ends
    | Call(fid: nat, fault: Fault, exc: Exc, now: Time)
    | Handle(fid: nat, now: Time, u: Draw)
    | Kill(fid: nat)
    | ReplayDlq(k: nat, reset: bool)
    | Snapshot(w: WorkerId)                        // a cleanup pass finds w idle, nothing pending
    | Cleanup(w: WorkerId)                         // and deletes it, some time later

  /** Counters at which the flight awaits a call to the broker or to the result store. */
  predicate IsCall(pc: Pc) {
    match pc
    case Waiting | Execute | Handling(_) | Retrying(_) | Done => false
    case _ => true
  }

  /** Counters from which the flight may still publish a retry. */
  predicate PrePublish(pc: Pc) {
    match pc
    case AckRetry | StoreFailure | MoveDlq | Finalize | Done => false
    case _ => true
  }

  /** Calls that send nothing cannot fail: no backend, or an ack in at-most-once mode. */
  predicate CanFail(c: Config, pc: Pc) {
    match pc
    case SetStarted | StoreSuccess | SetRetry(_) | StoreFailure => c.backend
    case EarlyAck | AckSuccess | AckRetry | Finalize => c.broker == AtLeastOnce
    case MoveDlq => c.useDlq || c.broker == AtLeastOnce
    case _ => true
  }

  predicate MayRead(c: Config, s: State, w: WorkerId) {
    !(c.idleStayAway && w in s.condemned)
  }

  predicate At(s: State, fid: nat, pc: Pc) {
    fid < |s.flights| && s.flights[fid].pc == pc
  }

  predicate Enabled(c: Config, s: State, l: Label) {
    match l
    case Tick(dt) => dt >= 0.0
    case ClientPublish(m, now) =>
      && m.id !in s.published && m.retries == 0 && m.firstFailureAt.None? && 0.0 <= now <= s.clock
    case PromoteOne(m, now) => m in s.sv.delayed && Ripe(m, now) && now <= s.clock
    case Poll(w) => MayRead(c, s, w)
    case Deliver(w) => s.sv.cursor < |s.sv.stream| && MayRead(c, s, w)
    case ClaimStale(w, tag) =>
      c.broker == AtLeastOnce && Stale(s.sv, tag, c.claimMinIdle, s.clock) && MayRead(c, s, w)
      && tag < |s.sv.stream|
    case Acquire(fid) => At(s, fid, Waiting) && WorkerOf(c, s, s.flights[fid].worker).permits > 0
    case Finish(fid, _, _) => At(s, fid, Execute)
    case Call(fid, fault, _, now) =>
      && fid < |s.flights| && IsCall(s.flights[fid].pc) && 0.0 <= now <= s.clock
      && (fault != Fine ==> CanFail(c, s.flights[fid].pc))
      && (s.flights[fid].pc == MoveDlq && c.useDlq && fault == Refused ==> c.dlqRefuses)
    case Handle(fid, now, _) =>
      && fid < |s.flights| && (s.flights[fid].pc.Handling? || s.flights[fid].pc.Retrying?) && 0.0 <= now <= s.clock
    case Kill(fid) => fid < |s.flights| && s.flights[fid].pc != Done
    case ReplayDlq(k, _) => c.replays && k < |s.sv.dlq|
    case Snapshot(w) =>
      && PendingOf(s.sv, w) == {} && w in s.seen && s.clock - s.seen[w] > c.staleAfter
    case Cleanup(w) => w in s.condemned
  }

  /** The next message of a retry chain; priority is not carried over. */
  function RetryMessage(m: TaskMessage, now: Time, countdown: Option<real>, lastError: Option<string>): TaskMessage {
    TaskMessage(m.id, m.name, m.args, m.kwargs, m.retries + 1,
                if countdown.Some? && countdown.value != 0.0 then Some(now + countdown.value) else None,
                None,
                if m.firstFailureAt.Some? then m.firstFailureAt else Some(now),
                lastError)
  }

  /** What the call at a flight's counter does to the broker when it takes effect. */
  function ServerEffect(c: Config, sv: Server, clock: Time, fl: Flight, now: Time): Server {
    match fl.pc
    case EarlyAck | AckSuccess | AckRetry | Finalize => Ack(sv, c.broker, fl.tag)
    case Republish(next) => Publish(sv, next, now, clock)
    case MoveDlq =>
      if c.useDlq then DeadLetter(sv, c.broker, fl.tag, fl.msg, clock) else Ack(sv, c.broker, fl.tag)
    case _ => sv
  }

  /** And what it does to the recorded outcomes. */
  function RecordEffect(c: Config, recorded: map<TaskId, Verdict>, fl: Flight): map<TaskId, Verdict> {
    match fl.pc
    case StoreSuccess => if c.backend then recorded[fl.msg.id := Succeeded] else recorded
    case StoreFailure => if c.backend then recorded[fl.msg.id := FailedWith] else recorded
    case _ => recorded
  }

  function Effect(c: Config, s: State, fl: Flight, now: Time): State {
    s.(sv := ServerEffect(c, s.sv, s.clock, fl, now), recorded := RecordEffect(c, s.recorded, fl))
  }

  /** Where the flight goes once its call has returned or raised. */
  function Goto(c: Config, fl: Flight, fault: Fault, exc: Exc): (Pc, Tally) {
    var raised := fault != Fine;
    var late := c.ModeOf(fl.msg.name) == AtLeastOnce;
    if fault == Abandoned then (Done, Halted(fl.tally))
    else match fl.pc
    case SetStarted =>
      if raised then (Done, fl.tally) else if late then (Execute, InTry) else (EarlyAck, fl.tally)
    case EarlyAck =>
      if raised then (Done, fl.tally) else (Execute, InTry)
    case StoreSuccess =>
      if raised then (Handling(exc), Failed) else if late then (AckSuccess, InTry) else (Done, Processed)
    case AckSuccess =>
      if raised then (Handling(exc), Failed) else (Done, Processed)
    case SetRetry(next) =>
      if raised then (Done, fl.tally) else (Republish(next), fl.tally)
    case Republish(next) =>
      if raised || !late then (Done, fl.tally) else (AckRetry, fl.tally)
    case StoreFailure =>
      if raised then (Done, fl.tally) else (MoveDlq, fl.tally)
    case MoveDlq =>
      if raised then (Finalize, fl.tally) else (Done, fl.tally)
    case _ => (Done, fl.tally)
  }

  /** What follows the end of the task body. */
  function AfterOutcome(o: Outcome): (Pc, Tally) {
    match o
    case Success => (StoreSuccess, InTry)
    case Retry(countdown) => (Retrying(countdown), Failed)
    case MaxRetries => (StoreFailure, Failed)
    case Invalid => (StoreFailure, Failed)
    case Threw(e) => (Handling(e), Failed)
  }

  function AfterBody(c: Config, fl: Flight, body: Body, u: Draw): (Pc, Tally) {
    AfterOutcome(Evaluate(c.PolicyOf(fl.msg.name), fl.msg.retries, body, u))
  }

  /** The retry policy's decision, and the message built for a retry. */
  function Decide(c: Config, fl: Flight, now: Time, u: Draw): Pc
    requires fl.pc.Handling? || fl.pc.Retrying?
  {
    match fl.pc
    case Retrying(countdown) => SetRetry(RetryMessage(fl.msg, now, countdown, None))
    case Handling(e) =>
      var p := c.PolicyOf(fl.msg.name);
      if !p.ShouldRetry(e) || fl.msg.retries >= p.maxRetries then StoreFailure
      else SetRetry(RetryMessage(fl.msg, now, Some(p.CalculateDelay(fl.msg.retries + 1, u)), Some(e.text)))
  }

  /** Move one flight, and keep its worker's semaphore and counters. */
  function Move(c: Config, s: State, fid: nat, pc: Pc, tally: Tally): State
    requires fid < |s.flights|
  {
    var fl := s.flights[fid];
    var w := WorkerOf(c, s, fl.worker);
    var permits := w.permits
                   - (if fl.pc == Waiting && pc != Waiting && pc != Done then 1 else 0)
                   + (if fl.pc != Waiting && pc == Done then 1 else 0);
    var processed := w.processed + if tally == Processed && fl.tally != Processed then 1 else 0;
    var failed := w.failed + if tally == Failed && fl.tally != Failed then 1 else 0;
    s.(flights := s.flights[fid := fl.(pc := pc, tally := tally)],
       workers := s.workers[fl.worker := WorkerState(permits, processed, failed)])
  }

  function Launch(s: State, w: WorkerId, tag: nat): State
    requires tag < |s.sv.stream|
  {
    s.(flights := s.flights + [Flight(w, tag, s.sv.stream[tag].msg, Waiting, Outside)],
       seen := s.seen[w := s.clock])
  }

  function Next(c: Config, s: State, l: Label): State
    requires Enabled(c, s, l)
  {
    match l
    case Tick(dt) => s.(clock := s.clock + dt)
    case ClientPublish(m, now) =>
      s.(sv := Publish(s.sv, m, now, s.clock), published := s.published[m.id := m])
    case PromoteOne(m, now) => s.(sv := Promote(s.sv, m, s.clock))
    case Poll(w) => s.(seen := s.seen[w := s.clock])
    case Deliver(w) => Launch(s.(sv := Read(s.sv, w, s.clock)), w, s.sv.cursor)
    case ClaimStale(w, tag) => Launch(s.(sv := Claim(s.sv, tag, w, s.clock)), w, tag)
    case Acquire(fid) =>
      Move(c, s, fid, if s.flights[fid].msg.name in c.tasks then SetStarted else StoreFailure, Outside)
    case Finish(fid, body, u) =>
      var fl := s.flights[fid];
      var (pc, tally) := AfterBody(c, fl, body, u);
      var s' := if body == Returned then s.(completed := s.completed + {fl.msg.id}) else s;
      Move(c, s', fid, pc, tally)
    case Call(fid, fault, exc, now) =>
      var fl := s.flights[fid];
      var (pc, tally) := Goto(c, fl, fault, exc);
      Move(c, if fault == Refused then s else Effect(c, s, fl, now), fid, pc, tally)
    case Handle(fid, now, u) =>
      Move(c, s, fid, Decide(c, s.flights[fid], now, u), s.flights[fid].tally)
    case Kill(fid) =>
      Move(c, s, fid, Done, Halted(s.flights[fid].tally))
    case ReplayDlq(k, reset) => s.(sv := Replay(s.sv, k, reset, s.clock))
    case Snapshot(w) => s.(condemned := s.condemned + {w})
    case Cleanup(w) => s.(sv := DelConsumer(s.sv, w))
  }

  /** Runs: every label is enabled where it is taken. */
  predicate Admissible(c: Config, s: State, ls: seq<Label>)
    decreases |ls|, 0
  {
    ls == [] || (Admissible(c, s, ls[..|ls| - 1]) && Enabled(c, Run(c, s, ls[..|ls| - 1]), ls[|ls| - 1]))
  }

  function Run(c: Config, s: State, ls: seq<Label>): State
    requires Admissible(c, s, ls)
    decreases |ls|, 1
  {
    if ls == [] then s else Next(c, Run(c, s, ls[..|ls| - 1]), ls[|ls| - 1])
  }

  ghost predicate Reachable(c: Config, s: State) {
    exists ls :: Admissible(c, INIT, ls) && Run(c, INIT, ls) == s
  }

  lemma InitReachable(c: Config)
    ensures Reachable(c, INIT)
  {
    assert Admissible(c, INIT, []) && Run(c, INIT, []) == INIT;
  }

  lemma Extend(c: Config, s: State, ls: seq<Label>, l: Label)
    requires Admissible(c, s, ls) && Enabled(c, Run(c, s, ls), l)
    ensures Admissible(c, s, ls + [l]) && Run(c, s, ls + [l]) == Next(c, Run(c, s, ls), l)
  {
    assert (ls + [l])[..|ls|] == ls;
  }

  lemma StepReachable(c: Config, s: State, l: Label)
    requires Reachable(c, s) && Enabled(c, s, l)
    ensures Reachable(c, Next(c, s, l))
  {
    var ls :| Admissible(c, INIT, ls) && Run(c, INIT, ls) == s;
    Extend(c, INIT, ls, l);
  }

  /** A run from a reachable state leads to a reachable state. */
  lemma {:induction false} RunReachable(c: Config, s: State, ls: seq<Label>)
    requires Reachable(c, s) && Admissible(c, s, ls)
    ensures Reachable(c, Run(c, s, ls))
  {
    if ls != [] {
      RunReachable(c, s, ls[..|ls| - 1]);
      StepReachable(c, Run(c, s, ls[..|ls| - 1]), ls[|ls| - 1]);
    }
  }
}
