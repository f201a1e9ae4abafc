/** The worker's code for one envelope, statement by statement, as a refinement of the protocol.

    Between any two awaits the rest of the system may do anything the protocol allows. Whatever the
    awaited calls answer, the code takes the steps the answers prescribe and no others, and what it
    does to the broker and to the result store is what those steps do. */
module Workers {
  import opened Types
  import opened Context
  import opened RedisBroker
  import opened Protocol
  import opened Paths
  import Fates

  /** Where a flight is after its call came back. */
  function Answer(c: Config, fl: Flight, r: Reply): Flight {
    match r
    case Interrupted(_) => fl.(pc := Done, tally := Halted(fl.tally))
    case _ => var (pc, tally) := Goto(c, fl, FaultOf(r), Thrown(r)); fl.(pc := pc, tally := tally)
  }

  /** One envelope's way: its flight, where it started and after which steps of the system, and the
      answers it will get. */
  datatype Trip = Trip(fid: nat, start: Flight, origin: seq<Label>, answers: Answers)

  class Worker {
    const c: Config
    const id: WorkerId
    const broker: Broker
    var permits: int
    var processed: nat
    var failed: nat
    var results: map<TaskId, Verdict>      // the result store, shared by all workers
    var clock: Time
    ghost var run: seq<Label>              // every step of the whole system so far
    ghost var s: State                     // and where they have led

    /** A worker joins a running system under a name not used before. */
    constructor (c: Config, id: WorkerId, broker: Broker, results: map<TaskId, Verdict>, clock: Time,
                 ghost run: seq<Label>)
      requires Admissible(c, INIT, run) && id !in Run(c, INIT, run).workers
      requires broker.mode == c.broker && broker.Contents() == Run(c, INIT, run).sv
      requires results == Run(c, INIT, run).recorded && clock == Run(c, INIT, run).clock && clock >= 0.0
      ensures Valid() && Books(0, 0, 0) && this.run == run && this.c == c && this.id == id && this.broker == broker
    {
      this.c, this.id, this.broker := c, id, broker;
      permits, processed, failed := c.concurrency, 0, 0;
      this.results, this.clock, this.run, this.s := results, clock, run, Run(c, INIT, run);
    }

    ghost predicate History()
      reads this
    {
      Admissible(c, INIT, run) && Run(c, INIT, run) == s
    }

    /** The concrete broker, store and clock are those the steps so far have led to. */
    ghost predicate Valid()
      reads this, broker
    {
      && History()
      && broker.mode == c.broker && broker.Contents() == s.sv
      && results == s.recorded && clock == s.clock && clock >= 0.0
    }

    /** The worker's semaphore and counters, once the given amounts are added. */
    ghost predicate Books(permit: int, done: int, bad: int)
      reads this
    {
      var ws := WorkerOf(c, s, id);
      ws.permits == permits + permit && ws.processed == processed + done && ws.failed == failed + bad
    }

    /** The envelope's own steps since its trip began. */
    ghost function Path(t: Trip): seq<Label>
      requires t.origin <= run
      reads this
    {
      Own(run[|t.origin|..], t.fid)
    }

    /** The flight is the envelope's, and all its steps were prescribed. */
    ghost predicate OnTrip(e: Envelope, t: Trip)
      reads this
    {
      && t.origin <= run && t.fid < |s.flights|
      && Obedient(c, t.answers, t.fid, t.start, Path(t))
      && s.flights[t.fid] == After(c, t.start, Path(t))
      && s.flights[t.fid].worker == id && s.flights[t.fid].tag == e.tag && s.flights[t.fid].msg == e.message
    }

    ghost predicate Stands(e: Envelope, t: Trip, pc: Pc)
      reads this
    {
      OnTrip(e, t) && s.flights[t.fid].pc == pc
    }

    /** The trip goes on from `fl` to `fl'`, and the code has not yet updated its books. */
    ghost predicate Moved(e: Envelope, t: Trip, fl: Flight, fl': Flight)
      reads this
    {
      && OnTrip(e, t) && s.flights[t.fid] == fl'
      && Books(OwesPermit(fl, fl'), OwesProcessed(fl, fl'), OwesFailed(fl, fl'))
    }

    /** Anything may happen elsewhere while this code awaits; its own flight takes no step.
        (The body is one possible behaviour; callers may rely on the contract only.) */
    method Interfere(e: Envelope, ghost t: Trip)
      requires Valid() && Books(0, 0, 0) && OnTrip(e, t)
      modifies this, broker
      ensures Valid() && Books(0, 0, 0) && OnTrip(e, t)
      ensures old(run) <= run && Path(t) == old(Path(t)) && s.flights[t.fid] == old(s.flights[t.fid])
      ensures clock >= old(clock)
    {}

    /** One step of the protocol, by this envelope. */
    ghost method Step(e: Envelope, t: Trip, l: Label)
      requires History() && OnTrip(e, t) && Enabled(c, s, l) && IsOwn(l, t.fid)
      modifies this`s, this`run
      ensures History() && run == old(run) + [l] && s == Next(c, old(s), l)
      ensures t.origin <= run && Path(t) == old(Path(t)) + [l]
    {
      Extend(c, INIT, run, l);
      OwnGrows(run, |t.origin|, l, t.fid);
      s := Next(c, s, l);
      run := run + [l];
    }

    /** The prescribed step. */
    ghost method Obey(e: Envelope, t: Trip, l: Label)
      requires History() && OnTrip(e, t) && Enabled(c, s, l) && IsOwn(l, t.fid)
      requires Prescribed(c, t.answers, t.fid, s.flights[t.fid], l)
      modifies this`s, this`run
      ensures History() && OnTrip(e, t) && old(run) <= run && s == Next(c, old(s), l)
      ensures s.flights[t.fid] == MoveBy(c, old(s.flights[t.fid]), l)
    {
      PathGrows(c, t.answers, t.fid, t.start, Path(t), l);
      StepMoves(c, s, l, t.fid);
      Step(e, t, l);
    }

    /** The call comes back, or the envelope is cancelled while it waits: the prescribed step. */
    ghost method Conclude(e: Envelope, t: Trip, r: Reply, now: Time)
      requires History() && OnTrip(e, t) && IsCall(s.flights[t.fid].pc) && Books(0, 0, 0)
      requires r == ReplyAt(c, t.answers, s.flights[t.fid].pc) && 0.0 <= now <= s.clock
      modifies this`s, this`run
      ensures History() && s.clock == old(s.clock)
      ensures s.sv == if Reached(r) then ServerEffect(c, old(s.sv), old(s.clock), old(s.flights[t.fid]), now)
                      else old(s.sv)
      ensures s.recorded == if Reached(r) then RecordEffect(c, old(s.recorded), old(s.flights[t.fid]))
                            else old(s.recorded)
      ensures Moved(e, t, old(s.flights[t.fid]), Answer(c, old(s.flights[t.fid]), r))
    {
      if r == Interrupted(false) {
        Interrupt(e, t);
      } else {
        Return(e, t, r, now);
      }
    }

    ghost method Return(e: Envelope, t: Trip, r: Reply, now: Time)
      requires History() && OnTrip(e, t) && IsCall(s.flights[t.fid].pc) && Books(0, 0, 0)
      requires r == ReplyAt(c, t.answers, s.flights[t.fid].pc) && r != Interrupted(false) && 0.0 <= now <= s.clock
      modifies this`s, this`run
      ensures History() && s.clock == old(s.clock)
      ensures s.sv == if Reached(r) then ServerEffect(c, old(s.sv), old(s.clock), old(s.flights[t.fid]), now)
                      else old(s.sv)
      ensures s.recorded == if Reached(r) then RecordEffect(c, old(s.recorded), old(s.flights[t.fid]))
                            else old(s.recorded)
      ensures Moved(e, t, old(s.flights[t.fid]), Answer(c, old(s.flights[t.fid]), r))
    {
      ReplyEnabled(c, s, t.answers, t.fid, now);
      CallEffect(c, s, t.fid, FaultOf(r), Thrown(r), now);
      CallOwes(c, s, t.fid, FaultOf(r), Thrown(r), now);
      Obey(e, t, Call(t.fid, FaultOf(r), Thrown(r), now));
    }

    ghost method Interrupt(e: Envelope, t: Trip)
      requires History() && OnTrip(e, t) && Books(0, 0, 0)
      requires s.flights[t.fid].pc != Waiting && s.flights[t.fid].pc != Done
      requires Prescribed(c, t.answers, t.fid, s.flights[t.fid], Kill(t.fid))
      modifies this`s, this`run
      ensures History()
      ensures s.clock == old(s.clock) && s.sv == old(s.sv) && s.recorded == old(s.recorded)
      ensures Moved(e, t, old(s.flights[t.fid]), Answer(c, old(s.flights[t.fid]), Interrupted(false)))
    {
      Obey(e, t, Kill(t.fid));
    }

    /** A move inside the worker, without a call. */
    ghost method Decided(e: Envelope, t: Trip, now: Time)
      requires History() && OnTrip(e, t) && Books(0, 0, 0) && Enabled(c, s, Handle(t.fid, now, t.answers.draw))
      modifies this`s, this`run
      ensures History()
      ensures s.clock == old(s.clock) && s.sv == old(s.sv) && s.recorded == old(s.recorded)
      ensures Stands(e, t, Decide(c, old(s.flights[t.fid]), now, t.answers.draw)) && Books(0, 0, 0)
    {
      Obey(e, t, Handle(t.fid, now, t.answers.draw));
    }

    /** The semaphore lets the envelope in; the code has not yet taken its permit. */
    ghost method Enter(e: Envelope, t: Trip)
      requires History() && Stands(e, t, Waiting) && s.flights[t.fid].tally == Outside && Books(0, 0, 0)
      requires permits > 0 && !t.answers.givesUp
      modifies this`s, this`run
      ensures History() && s.clock == old(s.clock) && s.sv == old(s.sv) && s.recorded == old(s.recorded)
      ensures Stands(e, t, if e.message.name in c.tasks then SetStarted else StoreFailure) && Books(-1, 0, 0)
      ensures s.flights[t.fid].tally == Outside
    {
      Obey(e, t, Acquire(t.fid));
    }

    /** The envelope is cancelled while it waits, or no permit ever comes. */
    ghost method Leave(e: Envelope, t: Trip)
      requires History() && Stands(e, t, Waiting) && Books(0, 0, 0)
      modifies this`s, this`run
      ensures History() && s.clock == old(s.clock) && s.sv == old(s.sv) && s.recorded == old(s.recorded)
      ensures t.origin <= run && Path(t) == old(Path(t)) + [Kill(t.fid)] && Books(0, 0, 0)
      ensures t.fid < |s.flights| && s.flights[t.fid] == MoveBy(c, old(s.flights[t.fid]), Kill(t.fid))
    {
      StepMoves(c, s, Kill(t.fid), t.fid);
      Step(e, t, Kill(t.fid));
    }

    /** The body ends. */
    ghost method EndBody(e: Envelope, t: Trip, ended: Ended)
      requires History() && Stands(e, t, Execute) && s.flights[t.fid].tally == InTry && Books(0, 0, 0)
      requires ended == t.answers.body && ended.Ended?
      modifies this`s, this`run
      ensures History() && s.clock == old(s.clock) && s.sv == old(s.sv) && s.recorded == old(s.recorded)
      ensures Left(e, t, Evaluate(c.PolicyOf(e.message.name), e.message.retries, ended.body, ended.u))
    {
      FinishEffect(c, s, t.fid, ended.body, ended.u);
      Obey(e, t, Finish(t.fid, ended.body, ended.u));
    }

    // ---- The awaited calls: each is given the answer it will get ----

    method SetState(e: Envelope, ghost t: Trip, reply: Reply) returns (r: Reply)
      requires Valid() && Books(0, 0, 0) && OnTrip(e, t)
      requires s.flights[t.fid].pc == SetStarted || s.flights[t.fid].pc.SetRetry?
      requires c.backend ==> reply == ReplyAt(c, t.answers, s.flights[t.fid].pc)
      modifies this, broker
      ensures Valid() && r == ReplyAt(c, t.answers, old(s.flights[t.fid].pc))
      ensures Moved(e, t, old(s.flights[t.fid]), Answer(c, old(s.flights[t.fid]), r))
    {
      r := Ok;
      if c.backend {
        Interfere(e, t);
        r := reply;
      }
      Conclude(e, t, r, clock);
    }

    method StoreResult(e: Envelope, ghost t: Trip, verdict: Verdict, reply: Reply) returns (r: Reply)
      requires Valid() && Books(0, 0, 0)
      requires Stands(e, t, if verdict == Succeeded then StoreSuccess else StoreFailure)
      requires c.backend ==> reply == ReplyAt(c, t.answers, s.flights[t.fid].pc)
      modifies this, broker
      ensures Valid() && r == ReplyAt(c, t.answers, old(s.flights[t.fid].pc))
      ensures Moved(e, t, old(s.flights[t.fid]), Answer(c, old(s.flights[t.fid]), r))
      ensures c.backend && Reached(r) ==> e.message.id in results && results[e.message.id] == verdict
    {
      r := Ok;
      if c.backend {
        Interfere(e, t);
        r := reply;
      }
      if c.backend && Reached(r) {
        results := results[e.message.id := verdict];
      }
      Conclude(e, t, r, clock);
    }

    method Ack(e: Envelope, ghost t: Trip, reply: Reply) returns (r: Reply)
      requires Valid() && Books(0, 0, 0) && OnTrip(e, t)
      requires s.flights[t.fid].pc == EarlyAck || s.flights[t.fid].pc == AckSuccess || s.flights[t.fid].pc == AckRetry
      requires c.broker == AtLeastOnce ==> reply == ReplyAt(c, t.answers, s.flights[t.fid].pc)
      modifies this, broker
      ensures Valid() && r == ReplyAt(c, t.answers, old(s.flights[t.fid].pc))
      ensures Moved(e, t, old(s.flights[t.fid]), Answer(c, old(s.flights[t.fid]), r))
    {
      r := Ok;
      if c.broker == AtLeastOnce {
        Interfere(e, t);
        r := reply;
      }
      if Reached(r) {
        broker.Ack(e.tag);
      }
      Conclude(e, t, r, clock);
    }

    /** A nack without requeue. */
    method Nack(e: Envelope, ghost t: Trip, reply: Reply) returns (r: Reply)
      requires Valid() && Books(0, 0, 0) && OnTrip(e, t)
      requires s.flights[t.fid].pc == Finalize || (s.flights[t.fid].pc == MoveDlq && !c.useDlq)
      requires c.broker == AtLeastOnce ==> reply == ReplyAt(c, t.answers, s.flights[t.fid].pc)
      modifies this, broker
      ensures Valid() && r == ReplyAt(c, t.answers, old(s.flights[t.fid].pc))
      ensures Moved(e, t, old(s.flights[t.fid]), Answer(c, old(s.flights[t.fid]), r))
    {
      hide Admissible, Run, Own, Obedient, After;
      r := Ok;
      if c.broker == AtLeastOnce {
        Interfere(e, t);
        r := reply;
      }
      if Reached(r) {
        broker.Nack(e.tag, false);
      }
      Conclude(e, t, r, clock);
    }

    method SendNext(e: Envelope, ghost t: Trip, next: TaskMessage, reply: Reply)
      requires Valid() && Books(0, 0, 0) && Stands(e, t, Republish(next))
      requires reply == ReplyAt(c, t.answers, Republish(next))
      modifies this, broker
      ensures Valid() && Moved(e, t, old(s.flights[t.fid]), Answer(c, old(s.flights[t.fid]), reply))
    {
      var now := clock;
      Interfere(e, t);
      if Reached(reply) {
        broker.Publish(next, now, clock);
      }
      Conclude(e, t, reply, now);
    }

    method SendToDlq(e: Envelope, ghost t: Trip, reply: Reply)
      requires Valid() && Books(0, 0, 0) && Stands(e, t, MoveDlq) && c.useDlq && reply == ReplyAt(c, t.answers, MoveDlq)
      modifies this, broker
      ensures Valid() && Moved(e, t, old(s.flights[t.fid]), Answer(c, old(s.flights[t.fid]), reply))
    {
      Interfere(e, t);
      if Reached(reply) {
        broker.MoveToDlq(e, clock);
      }
      Conclude(e, t, reply, clock);
    }

    /** The task body runs and ends somehow, or is cancelled. */
    method ExecuteTask(e: Envelope, ghost t: Trip, ended: Ended) returns (o: Option<Outcome>)
      requires Valid() && Books(0, 0, 0) && Stands(e, t, Execute) && s.flights[t.fid].tally == InTry
      requires ended == t.answers.body
      modifies this, broker
      ensures Valid()
      ensures o == if ended.Cut? then None
                   else Some(Evaluate(c.PolicyOf(e.message.name), e.message.retries, ended.body, ended.u))
      ensures if o.None? then Stands(e, t, Done) && Books(1, 0, 0) else Left(e, t, o.value)
    {
      Interfere(e, t);
      if ended.Cut? {
        Interrupt(e, t);
        return None;
      }
      EndBody(e, t, ended);
      return Some(Evaluate(c.PolicyOf(e.message.name), e.message.retries, ended.body, ended.u));
    }

    // ---- What the answers of particular calls mean ----

    method Publish(e: Envelope, ghost t: Trip, next: TaskMessage, reply: Reply) returns (r: Reply)
      requires Valid() && Books(0, 0, 0) && Stands(e, t, Republish(next)) && reply == t.answers.republish
      modifies this, broker
      ensures Valid() && r == reply
      ensures if r.Ok? && c.ModeOf(e.message.name) == AtLeastOnce then Stands(e, t, AckRetry) && Books(0, 0, 0)
              else Stands(e, t, Done) && Books(1, 0, 0)
    {
      hide Admissible, Run, Own, Obedient, After;
      SendNext(e, t, next, reply);
      r := reply;
    }

    method BrokerMoveToDlq(e: Envelope, ghost t: Trip, reply: Reply) returns (r: Reply)
      requires Valid() && Books(0, 0, 0) && Stands(e, t, MoveDlq) && c.useDlq && reply == ReplyAt(c, t.answers, MoveDlq)
      modifies this, broker
      ensures Valid() && r == reply
      ensures if r.Raised? then Stands(e, t, Finalize) && Books(0, 0, 0) else Stands(e, t, Done) && Books(1, 0, 0)
    {
      hide Admissible, Run, Own, Obedient, After;
      SendToDlq(e, t, reply);
      r := reply;
    }

    method AnnounceStart(e: Envelope, ghost t: Trip, a: Answers) returns (r: Reply)
      requires Valid() && Books(0, 0, 0) && Stands(e, t, SetStarted) && s.flights[t.fid].tally == Outside
      requires a == t.answers
      modifies this, broker
      ensures Valid() && r == ReplyAt(c, a, SetStarted)
      ensures if !r.Ok? then Stands(e, t, Done) && Books(1, 0, 0)
              else if c.ModeOf(e.message.name) == AtLeastOnce then
                Stands(e, t, Execute) && s.flights[t.fid].tally == InTry && Books(0, 0, 0)
              else Stands(e, t, EarlyAck) && s.flights[t.fid].tally == Outside && Books(0, 0, 0)
    {
      hide Admissible, Run, Own, Obedient, After;
      r := SetState(e, t, a.setStarted);
    }

    method AckEarly(e: Envelope, ghost t: Trip, a: Answers) returns (r: Reply)
      requires Valid() && Books(0, 0, 0) && Stands(e, t, EarlyAck) && s.flights[t.fid].tally == Outside
      requires a == t.answers
      modifies this, broker
      ensures Valid() && r == ReplyAt(c, a, EarlyAck)
      ensures if r.Ok? then Stands(e, t, Execute) && s.flights[t.fid].tally == InTry && Books(0, 0, 0)
              else Stands(e, t, Done) && Books(1, 0, 0)
    {
      hide Admissible, Run, Own, Obedient, After;
      r := Ack(e, t, a.earlyAck);
    }

    /** How the execution block ended after the body had returned. */
    ghost predicate Concluded(e: Envelope, t: Trip, r: Reply)
      reads this
    {
      match r
      case Ok => Stands(e, t, Done) && Books(1, 1, 0)
      case Raised(exc, _) => Stands(e, t, Handling(exc)) && Books(0, 0, 1)
      case Interrupted(_) => Stands(e, t, Done) && Books(1, 0, 0)
    }

    method StoreSuccessfully(e: Envelope, ghost t: Trip, a: Answers) returns (r: Reply)
      requires Valid() && Books(0, 0, 0) && Stands(e, t, StoreSuccess) && s.flights[t.fid].tally == InTry
      requires a == t.answers
      modifies this, broker
      ensures Valid() && r == ReplyAt(c, a, StoreSuccess)
      ensures if r.Ok? && c.ModeOf(e.message.name) == AtLeastOnce then
                Stands(e, t, AckSuccess) && s.flights[t.fid].tally == InTry && Books(0, 0, 0)
              else Concluded(e, t, r)
    {
      hide Admissible, Run, Own, Obedient, After;
      r := StoreResult(e, t, Succeeded, a.storeSuccess);
    }

    method AckSuccessfully(e: Envelope, ghost t: Trip, a: Answers) returns (r: Reply)
      requires Valid() && Books(0, 0, 0) && Stands(e, t, AckSuccess) && s.flights[t.fid].tally == InTry
      requires a == t.answers
      modifies this, broker
      ensures Valid() && r == ReplyAt(c, a, AckSuccess) && Concluded(e, t, r)
    {
      hide Admissible, Run, Own, Obedient, After;
      r := Ack(e, t, a.ackSuccess);
    }

    method RecordFailure(e: Envelope, ghost t: Trip, a: Answers) returns (r: Reply)
      requires Valid() && Books(0, 0, 0) && Stands(e, t, StoreFailure) && a == t.answers
      modifies this, broker
      ensures Valid() && r == ReplyAt(c, a, StoreFailure)
      ensures if r.Ok? then Stands(e, t, MoveDlq) && Books(0, 0, 0) else Stands(e, t, Done) && Books(1, 0, 0)
    {
      hide Admissible, Run, Own, Obedient, After;
      r := StoreResult(e, t, FailedWith, a.storeFailure);
    }

    method AnnounceRetry(e: Envelope, ghost t: Trip, next: TaskMessage, a: Answers) returns (r: Reply)
      requires Valid() && Books(0, 0, 0) && Stands(e, t, SetRetry(next)) && a == t.answers
      modifies this, broker
      ensures Valid() && r == ReplyAt(c, a, SetRetry(next))
      ensures if r.Ok? then Stands(e, t, Republish(next)) && Books(0, 0, 0) else Stands(e, t, Done) && Books(1, 0, 0)
    {
      hide Admissible, Run, Own, Obedient, After;
      r := SetState(e, t, a.setRetry);
    }

    // ---- The worker's own methods ----

    /** The finalizer, which also stands in for the dead-letter call when dead letters are off. */
    method FinalizeFailure(e: Envelope, ghost t: Trip, reply: Reply) returns (r: Reply)
      requires Valid() && Books(0, 0, 0) && OnTrip(e, t)
      requires s.flights[t.fid].pc == Finalize || (s.flights[t.fid].pc == MoveDlq && !c.useDlq)
      requires c.broker == AtLeastOnce ==> reply == ReplyAt(c, t.answers, s.flights[t.fid].pc)
      modifies this, broker
      ensures Valid() && r == ReplyAt(c, t.answers, old(s.flights[t.fid].pc))
      ensures if r.Raised? && old(s.flights[t.fid].pc) == MoveDlq then Stands(e, t, Finalize) && Books(0, 0, 0)
              else Stands(e, t, Done) && Books(1, 0, 0)
    {
      hide Admissible, Run, Own, Obedient, After;
      r := Nack(e, t, reply);
    }

    /** From a decided failure to the end of the flight. */
    method MoveToDlq(e: Envelope, ghost t: Trip, a: Answers)
      requires Valid() && Books(0, 0, 0) && Stands(e, t, MoveDlq) && a == t.answers
      modifies this, broker
      ensures Valid() && Stands(e, t, Done) && Books(1, 0, 0)
    {
      hide Admissible, Run, Own, Obedient, After;
      var r;
      if c.useDlq {
        r := BrokerMoveToDlq(e, t, ReplyAt(c, a, MoveDlq));
      } else {
        r := FinalizeFailure(e, t, a.moveDlq);
      }
      if r.Raised? {
        r := FinalizeFailure(e, t, a.finalize);
      }
    }

    /** Record the failure, then move the message out of the way. */
    method Fail(e: Envelope, ghost t: Trip, a: Answers)
      requires Valid() && Books(0, 0, 0) && Stands(e, t, StoreFailure) && a == t.answers
      modifies this, broker
      ensures Valid() && Stands(e, t, Done) && Books(1, 0, 0)
    {
      hide Admissible, Run, Own, Obedient, After;
      var r := RecordFailure(e, t, a);
      if r.Ok? {
        MoveToDlq(e, t, a);
      }
    }

    /** The counter from which the next message may be built with this countdown and error. */
    ghost predicate MayRetry(e: Envelope, t: Trip, countdown: Option<real>, lastError: Option<string>)
      reads this
    {
      var p := c.PolicyOf(e.message.name);
      && OnTrip(e, t)
      && match s.flights[t.fid].pc
         case Retrying(asked) => asked == countdown && lastError == None
         case Handling(exc) =>
           && p.ShouldRetry(exc) && e.message.retries < p.maxRetries
           && countdown == Some(p.CalculateDelay(e.message.retries + 1, t.answers.draw)) && lastError == Some(exc.text)
         case _ => false
    }

    /** The message of a retry is built. */
    ghost method Rebuilt(e: Envelope, t: Trip, now: Time, countdown: Option<real>, lastError: Option<string>)
      requires History() && MayRetry(e, t, countdown, lastError) && Books(0, 0, 0) && 0.0 <= now <= s.clock
      modifies this`s, this`run
      ensures History() && s.clock == old(s.clock) && s.sv == old(s.sv) && s.recorded == old(s.recorded)
      ensures Stands(e, t, SetRetry(RetryMessage(e.message, now, countdown, lastError))) && Books(0, 0, 0)
    {
      hide Admissible, Run, Own, Obedient, After;
      Decided(e, t, now);
    }

    static method NextMessage(m: TaskMessage, now: Time, countdown: Option<real>, lastError: Option<string>)
      returns (next: TaskMessage)
      ensures next == RetryMessage(m, now, countdown, lastError)
    {
      next := TaskMessage(
        m.id, m.name, m.args, m.kwargs, m.retries + 1,
        if countdown.Some? && countdown.value != 0.0 then Some(now + countdown.value) else None,
        None,
        if m.firstFailureAt.Some? then m.firstFailureAt else Some(now),
        lastError);
    }

    method HandleRetry(e: Envelope, ghost t: Trip, countdown: Option<real>, lastError: Option<string>, a: Answers)
      requires Valid() && Books(0, 0, 0) && MayRetry(e, t, countdown, lastError) && a == t.answers
      modifies this, broker
      ensures Valid() && Stands(e, t, Done) && Books(1, 0, 0)
    {
      var now := clock;
      var next := NextMessage(e.message, now, countdown, lastError);
      Rebuilt(e, t, now, countdown, lastError);
      Reschedule(e, t, next, a);
    }

    /** Announce the retry, publish it, and only then give up the original. */
    method Reschedule(e: Envelope, ghost t: Trip, next: TaskMessage, a: Answers)
      requires Valid() && Books(0, 0, 0) && Stands(e, t, SetRetry(next)) && a == t.answers
      modifies this, broker
      ensures Valid() && Stands(e, t, Done) && Books(1, 0, 0)
    {
      var r := AnnounceRetry(e, t, next, a);
      if r.Ok? {
        PublishThenAck(e, t, next, a);
      }
    }

    method PublishThenAck(e: Envelope, ghost t: Trip, next: TaskMessage, a: Answers)
      requires Valid() && Books(0, 0, 0) && Stands(e, t, Republish(next)) && a == t.answers
      modifies this, broker
      ensures Valid() && Stands(e, t, Done) && Books(1, 0, 0)
    {
      var r := Publish(e, t, next, a.republish);
      if r.Ok? && c.ModeOf(e.message.name) == AtLeastOnce {
        AckOriginal(e, t, a);
      }
    }

    /** The last call of a retry: whatever it answers, the flight is over. */
    method AckOriginal(e: Envelope, ghost t: Trip, a: Answers)
      requires Valid() && Books(0, 0, 0) && Stands(e, t, AckRetry) && a == t.answers
      modifies this, broker
      ensures Valid() && Stands(e, t, Done) && Books(1, 0, 0)
    {
      var r := Ack(e, t, a.ackRetry);
    }

    method HandleExceptionWithPolicy(e: Envelope, ghost t: Trip, exc: Exc, a: Answers)
      requires Valid() && Books(0, 0, 0) && Stands(e, t, Handling(exc)) && a == t.answers
      modifies this, broker
      ensures Valid() && Stands(e, t, Done) && Books(1, 0, 0)
    {
      var policy := c.PolicyOf(e.message.name);
      if !policy.ShouldRetry(exc) || e.message.retries >= policy.maxRetries {
        Decided(e, t, clock);
        Fail(e, t, a);
        return;
      }
      var delay := policy.CalculateDelay(e.message.retries + 1, a.draw);
      HandleRetry(e, t, Some(delay), Some(exc.text), a);
    }

    /** The flight has left the body with this outcome, and a failure is not counted yet. */
    ghost predicate Left(e: Envelope, t: Trip, o: Outcome)
      reads this
    {
      && Stands(e, t, AfterOutcome(o).0) && s.flights[t.fid].tally == AfterOutcome(o).1
      && Books(0, 0, if o.Success? then 0 else 1)
    }

    /** The exception arms, and what follows a success. */
    method HandleOutcome(e: Envelope, ghost t: Trip, outcome: Outcome, a: Answers)
      requires Valid() && Left(e, t, outcome) && a == t.answers
      modifies this, broker
      ensures Valid() && Stands(e, t, Done) && Books(1, 0, 0)
    {
      match outcome
      case Success => Succeed(e, t, a);
      case Retry(countdown) =>
        failed := failed + 1;
        HandleRetry(e, t, countdown, None, a);
      case MaxRetries =>
        failed := failed + 1;
        Fail(e, t, a);
      case Invalid =>
        failed := failed + 1;
        Fail(e, t, a);
      case Threw(exc) =>
        failed := failed + 1;
        HandleExceptionWithPolicy(e, t, exc, a);
    }

    /** The execution block and its exception arms. */
    method TryExecute(e: Envelope, ghost t: Trip, a: Answers)
      requires Valid() && Books(0, 0, 0) && Stands(e, t, Execute) && s.flights[t.fid].tally == InTry && a == t.answers
      modifies this, broker
      ensures Valid() && Stands(e, t, Done) && Books(1, 0, 0)
    {
      var outcome := ExecuteTask(e, t, a.body);
      if outcome.None? {
        return;
      }
      HandleOutcome(e, t, outcome.value, a);
    }

    /** The rest of the execution block after the body has returned. */
    method StoreAndAck(e: Envelope, ghost t: Trip, a: Answers) returns (r: Reply)
      requires Valid() && Books(0, 0, 0) && Stands(e, t, StoreSuccess) && s.flights[t.fid].tally == InTry
      requires a == t.answers
      modifies this, broker
      ensures Valid() && Concluded(e, t, r)
      ensures var stored := ReplyAt(c, a, StoreSuccess);
              r == if stored == Ok && c.ModeOf(e.message.name) == AtLeastOnce then ReplyAt(c, a, AckSuccess) else stored
    {
      r := StoreSuccessfully(e, t, a);
      if r.Ok? && c.ModeOf(e.message.name) == AtLeastOnce {
        r := AckSuccessfully(e, t, a);
      }
    }

    /** An exception of the result store or of the acknowledgement is handled like one of the task. */
    method Succeed(e: Envelope, ghost t: Trip, a: Answers)
      requires Valid() && Books(0, 0, 0) && Stands(e, t, StoreSuccess) && s.flights[t.fid].tally == InTry
      requires a == t.answers
      modifies this, broker
      ensures Valid() && Stands(e, t, Done) && Books(1, 0, 0)
    {
      hide Admissible, Run, Own, Obedient, After;
      var r := StoreAndAck(e, t, a);
      if r.Ok? {
        processed := processed + 1;
      } else if r.Raised? {
        failed := failed + 1;
        HandleExceptionWithPolicy(e, t, r.exc, a);
      }
    }

    /** What runs while the semaphore is held. */
    method Admitted(e: Envelope, ghost t: Trip, a: Answers)
      requires Valid() && Books(0, 0, 0) && a == t.answers
      requires Stands(e, t, if e.message.name in c.tasks then SetStarted else StoreFailure)
      requires s.flights[t.fid].tally == Outside
      modifies this, broker
      ensures Valid() && Stands(e, t, Done) && Books(1, 0, 0)
    {
      if e.message.name !in c.tasks {
        Fail(e, t, a);
        return;
      }
      var r := AnnounceStart(e, t, a);
      if !r.Ok? {
        return;
      }
      if c.tasks[e.message.name].mode == AtMostOnce {
        r := AckEarly(e, t, a);
        if !r.Ok? {
          return;
        }
      }
      TryExecute(e, t, a);
    }

    /** Take the permit, and return it at the end. */
    method HoldPermit(e: Envelope, ghost t: Trip, a: Answers)
      requires Valid() && Books(-1, 0, 0) && a == t.answers
      requires Stands(e, t, if e.message.name in c.tasks then SetStarted else StoreFailure)
      requires s.flights[t.fid].tally == Outside
      modifies this, broker
      ensures Valid() && Stands(e, t, Done) && Books(0, 0, 0)
    {
      permits := permits - 1;
      Admitted(e, t, a);
      permits := permits + 1;
    }

    /** Wait for the semaphore. */
    method WithSemaphore(e: Envelope, ghost t: Trip, a: Answers) returns (starved: bool)
      requires Valid() && Books(0, 0, 0) && Stands(e, t, Waiting) && s.flights[t.fid].tally == Outside && a == t.answers
      modifies this, broker
      ensures Valid() && Books(0, 0, 0) && t.origin <= run && t.fid < |s.flights|
      ensures s.flights[t.fid] == After(c, t.start, Path(t)) && s.flights[t.fid].pc == Done
      ensures if starved then Path(t) == old(Path(t)) + [Kill(t.fid)] && permits <= 0
              else Obedient(c, a, t.fid, t.start, Path(t))
    {
      hide Admissible, Run, Own, Obedient, After;
      Interfere(e, t);
      starved := !a.givesUp && permits <= 0;
      if starved || a.givesUp {
        PathEnds(t, a);
        Leave(e, t);
        return;
      }
      Enter(e, t);
      HoldPermit(e, t, a);
    }

    lemma PathEnds(t: Trip, a: Answers)
      requires t.origin <= run && Obedient(c, a, t.fid, t.start, Path(t)) && After(c, t.start, Path(t)).pc == Waiting
      ensures var path := Path(t) + [Kill(t.fid)];
              && After(c, t.start, path) == MoveBy(c, After(c, t.start, Path(t)), Kill(t.fid))
              && (a.givesUp ==> Obedient(c, a, t.fid, t.start, path))
    {
      AfterOneMore(c, t.start, Path(t), Kill(t.fid));
      if a.givesUp {
        PathGrows(c, a, t.fid, t.start, Path(t), Kill(t.fid));
      }
    }

    /** One envelope, from its delivery to its end. Its own steps in the run of the system are the
        ones the answers prescribe, up to the last; so it comes by exactly the points that are due, and is
        counted as they say. The semaphore is as it was. A wait for a permit that never comes ends without
        one. */
    method ProcessEnvelope(e: Envelope, ghost fid: nat, a: Answers) returns (starved: bool)
      requires Valid() && Books(0, 0, 0) && fid < |s.flights|
      requires s.flights[fid] == Flight(id, e.tag, e.message, Waiting, Outside)
      modifies this, broker
      ensures Valid() && Books(0, 0, 0) && old(run) <= run && fid < |s.flights| && s.flights[fid].pc == Done
      ensures var own := Own(run[|old(run)|..], fid);
              && s.flights[fid] == After(c, old(s.flights[fid]), own)
              && if starved then own == [Kill(fid)] && permits <= 0 else Obedient(c, a, fid, old(s.flights[fid]), own)
      ensures !starved ==>
                && s.flights[fid].tally == Fates.FinalTally(c, a, e.message)
                && forall stop :: Fates.ComesBy(c, old(s.flights[fid]), Own(run[|old(run)|..], fid), stop) <==>
                                  Fates.Due(c, a, e.message, stop)
    {
      ghost var t := Trip(fid, s.flights[fid], run, a);
      starved := WithSemaphore(e, t, a);
      if !starved {
        forall stop
          ensures Fates.ComesBy(c, t.start, Path(t), stop) <==> Fates.Due(c, a, e.message, stop)
        {
          Fates.ComesByExactly(c, a, fid, t.start, Path(t), stop);
        }
        Fates.CountedExactly(c, a, fid, t.start, Path(t));
      }
    }
  }
}
