/** The way one envelope takes through the worker: its own steps in a run, and the steps that the
    answers of its surroundings prescribe. */
module Paths {
  import opened Types
  import opened Policy
  import opened Context
  import opened Protocol

  /** How an awaited call comes back to the code: done; failed, perhaps after taking effect; or not at
      all, as the envelope is cancelled while it waits, perhaps after the call has taken effect. */
  datatype Reply = Ok | Raised(exc: Exc, reached: bool) | Interrupted(reached: bool)

  predicate Reached(r: Reply) {
    r.Ok? || r.reached
  }

  /** How the task body comes back, with the draw of the context's retry. */
  datatype Ended = Ended(body: Body, u: Draw) | Cut

  /** All that the surroundings decide about one envelope. It comes to no counter twice, so that one
      answer for each suffices. */
  datatype Answers = Answers(
    givesUp: bool,                         // cancelled while it waits for the semaphore
    setStarted: Reply,
    earlyAck: Reply,
    body: Ended,
    storeSuccess: Reply,
    ackSuccess: Reply,
    draw: Draw,                            // of the retry policy
    setRetry: Reply,
    republish: Reply,
    ackRetry: Reply,
    storeFailure: Reply,
    moveDlq: Reply,
    finalize: Reply)

  function FaultOf(r: Reply): Fault {
    match r
    case Ok => Fine
    case Raised(_, reached) => if reached then Lost else Refused
    case Interrupted(reached) => if reached then Abandoned else Refused
  }

  function Thrown(r: Reply): Exc {
    if r.Raised? then r.exc else Exc("", "", "")
  }

  /** What a call at this counter answers; calls that send nothing always succeed, and a dead-letter
      call that cannot be refused fails only after taking effect. */
  function ReplyAt(c: Config, a: Answers, pc: Pc): Reply {
    if !CanFail(c, pc) then Ok
    else match pc
      case SetStarted => a.setStarted
      case EarlyAck => a.earlyAck
      case StoreSuccess => a.storeSuccess
      case AckSuccess => a.ackSuccess
      case SetRetry(_) => a.setRetry
      case Republish(_) => a.republish
      case AckRetry => a.ackRetry
      case StoreFailure => a.storeFailure
      case MoveDlq =>
        if c.useDlq && !c.dlqRefuses && a.moveDlq.Raised? then Reply.Raised(a.moveDlq.exc, true) else a.moveDlq
      case Finalize => a.finalize
      case _ => Ok
  }

  /** The step a flight takes at its counter: a cancellation only where the answer is one. */
  predicate Prescribed(c: Config, a: Answers, fid: nat, fl: Flight, l: Label) {
    match fl.pc
    case Waiting => l == if a.givesUp then Kill(fid) else Acquire(fid)
    case Execute => l == if a.body.Cut? then Kill(fid) else Finish(fid, a.body.body, a.body.u)
    case Handling(_) | Retrying(_) => l.Handle? && l.fid == fid && l.u == a.draw
    case Done => false
    case _ =>
      var r := ReplyAt(c, a, fl.pc);
      if r == Interrupted(false) then l == Kill(fid)
      else l.Call? && l.fid == fid && l.fault == FaultOf(r) && l.exc == Thrown(r)
  }

  predicate IsOwn(l: Label, fid: nat) {
    (l.Acquire? || l.Finish? || l.Call? || l.Handle? || l.Kill?) && l.fid == fid
  }

  /** The steps of one flight among the steps of a run. */
  function Own(ls: seq<Label>, fid: nat): seq<Label> {
    if ls == [] then []
    else Own(ls[..|ls| - 1], fid) + if IsOwn(ls[|ls| - 1], fid) then [ls[|ls| - 1]] else []
  }

  /** Where a step of its own takes a flight. */
  function MoveBy(c: Config, fl: Flight, l: Label): Flight {
    match l
    case Acquire(_) => fl.(pc := if fl.msg.name in c.tasks then SetStarted else StoreFailure, tally := Outside)
    case Finish(_, body, u) => var (pc, tally) := AfterBody(c, fl, body, u); fl.(pc := pc, tally := tally)
    case Call(_, fault, exc, _) => var (pc, tally) := Goto(c, fl, fault, exc); fl.(pc := pc, tally := tally)
    case Handle(_, now, u) => if fl.pc.Handling? || fl.pc.Retrying? then fl.(pc := Decide(c, fl, now, u)) else fl
    case Kill(_) => fl.(pc := Done, tally := Halted(fl.tally))
    case _ => fl
  }

  function After(c: Config, fl: Flight, path: seq<Label>): Flight {
    if path == [] then fl else MoveBy(c, After(c, fl, path[..|path| - 1]), path[|path| - 1])
  }

  /** Every step of the path is the one prescribed where it is taken. */
  predicate Obedient(c: Config, a: Answers, fid: nat, fl: Flight, path: seq<Label>) {
    path == [] ||
    var front, last := path[..|path| - 1], path[|path| - 1];
    Obedient(c, a, fid, fl, front) && Prescribed(c, a, fid, After(c, fl, front), last)
  }

  lemma OwnGrows(run: seq<Label>, from: nat, l: Label, fid: nat)
    requires from <= |run|
    ensures Own((run + [l])[from..], fid) == Own(run[from..], fid) + if IsOwn(l, fid) then [l] else []
  {
    assert (run + [l])[from..] == run[from..] + [l];
    assert (run[from..] + [l])[..|run[from..]|] == run[from..];
  }

  lemma StepMoves(c: Config, s: State, l: Label, fid: nat)
    requires Enabled(c, s, l) && fid < |s.flights|
    ensures fid < |Next(c, s, l).flights|
    ensures Next(c, s, l).flights[fid] == if IsOwn(l, fid) then MoveBy(c, s.flights[fid], l) else s.flights[fid]
  {}

  /** What the worker's own books lack when a flight has moved from one place to another. */
  function OwesPermit(fl: Flight, fl': Flight): int { if fl'.pc == Done && fl.pc != Done then 1 else 0 }
  function OwesProcessed(fl: Flight,
                         fl': Flight): int { if fl'.tally == Processed && fl.tally != Processed then 1 else 0 }
  function OwesFailed(fl: Flight,
                      fl': Flight): int { if fl'.tally == Tally.Failed && fl.tally != Tally.Failed then 1 else 0 }

  ghost predicate Owed(c: Config, s: State, s': State, fl: Flight, fl': Flight) {
    var ws, ws' := WorkerOf(c, s, fl.worker), WorkerOf(c, s', fl.worker);
    && ws'.permits == ws.permits + OwesPermit(fl, fl')
    && ws'.processed == ws.processed + OwesProcessed(fl, fl')
    && ws'.failed == ws.failed + OwesFailed(fl, fl')
  }

  lemma MoveOwes(c: Config, s: State, fid: nat, pc: Pc, tally: Tally)
    requires fid < |s.flights| && s.flights[fid].pc != Waiting && s.flights[fid].pc != Done
    ensures Owed(c, s, Move(c, s, fid, pc, tally), s.flights[fid], s.flights[fid].(pc := pc, tally := tally))
  {}

  lemma FinishEffect(c: Config, s: State, fid: nat, body: Body, u: Draw)
    requires Enabled(c, s, Finish(fid, body, u))
    ensures var s' := Next(c, s, Finish(fid, body, u));
            && s'.clock == s.clock && s'.sv == s.sv && s'.recorded == s.recorded
            && Owed(c, s, s', s.flights[fid], MoveBy(c, s.flights[fid], Finish(fid, body, u)))
  {
    var (pc, tally) := AfterBody(c, s.flights[fid], body, u);
    MoveOwes(c, if body == Returned then s.(completed := s.completed + {s.flights[fid].msg.id}) else s, fid, pc, tally);
  }

  /** What is answered is a step the protocol allows. */
  lemma ReplyEnabled(c: Config, s: State, a: Answers, fid: nat, now: Time)
    requires fid < |s.flights| && IsCall(s.flights[fid].pc) && 0.0 <= now <= s.clock
    ensures var r := ReplyAt(c, a, s.flights[fid].pc);
            r != Interrupted(false) ==> Enabled(c, s, Call(fid, FaultOf(r), Thrown(r), now))
  {}

  lemma CallOwes(c: Config, s: State, fid: nat, fault: Fault, exc: Exc, now: Time)
    requires Enabled(c, s, Call(fid, fault, exc, now))
    ensures var l := Call(fid, fault, exc, now);
            Owed(c, s, Next(c, s, l), s.flights[fid], MoveBy(c, s.flights[fid], l))
  {
    var (pc, tally) := Goto(c, s.flights[fid], fault, exc);
    MoveOwes(c, if fault == Refused then s else Effect(c, s, s.flights[fid], now), fid, pc, tally);
  }

  lemma CallEffect(c: Config, s: State, fid: nat, fault: Fault, exc: Exc, now: Time)
    requires Enabled(c, s, Call(fid, fault, exc, now))
    ensures var s' := Next(c, s, Call(fid, fault, exc, now));
            && s'.clock == s.clock
            && s'.sv == (if fault == Refused then s.sv else ServerEffect(c, s.sv, s.clock, s.flights[fid], now))
            && s'.recorded == (if fault == Refused then s.recorded else RecordEffect(c, s.recorded, s.flights[fid]))
  {}

  lemma AfterOneMore(c: Config, fl: Flight, path: seq<Label>, l: Label)
    ensures After(c, fl, path + [l]) == MoveBy(c, After(c, fl, path), l)
    ensures path + [] == path
  {
    assert (path + [l])[..|path|] == path;
  }

  /** In any run, a flight is where its own steps have taken it: nobody else moves it. */
  lemma {:induction false} OwnStepsMove(c: Config, s: State, ls: seq<Label>, fid: nat)
    requires Admissible(c, s, ls) && fid < |s.flights|
    ensures fid < |Run(c, s, ls).flights|
    ensures Run(c, s, ls).flights[fid] == After(c, s.flights[fid], Own(ls, fid))
  {
    if ls != [] {
      var before, l := ls[..|ls| - 1], ls[|ls| - 1];
      OwnStepsMove(c, s, before, fid);
      StepMoves(c, Run(c, s, before), l, fid);
      AfterOneMore(c, s.flights[fid], Own(before, fid), l);
    }
  }

  lemma PathGrows(c: Config, a: Answers, fid: nat, fl: Flight, path: seq<Label>, l: Label)
    requires Obedient(c, a, fid, fl, path) && Prescribed(c, a, fid, After(c, fl, path), l)
    ensures Obedient(c, a, fid, fl, path + [l])
    ensures After(c, fl, path + [l]) == MoveBy(c, After(c, fl, path), l)
  {
    assert (path + [l])[..|path|] == path;
  }

  /** The same step, but for when it was taken. */
  predicate SameAction(l: Label, l': Label) {
    match (l, l')
    case (Call(f, fault, exc, _), Call(f', fault', exc', _)) => f == f' && fault == fault' && exc == exc'
    case (Handle(f, _, u), Handle(f', _, u')) => f == f' && u == u'
    case _ => l == l'
  }

  /** Two flights at the same point, but for the times in the next message. */
  predicate SamePoint(fl: Flight, fl': Flight) {
    && fl' == fl.(pc := fl'.pc)
    && match (fl.pc, fl'.pc)
       case (SetRetry(_), SetRetry(_)) => true
       case (Republish(_), Republish(_)) => true
       case _ => fl.pc == fl'.pc
  }

  lemma SameCall(c: Config, a: Answers, fid: nat, fl: Flight, fl': Flight, l: Label, l': Label)
    requires SamePoint(fl, fl') && IsCall(fl.pc)
    requires Prescribed(c, a, fid, fl, l) && Prescribed(c, a, fid, fl', l')
    ensures SameAction(l, l') && SamePoint(MoveBy(c, fl, l), MoveBy(c, fl', l'))
  {}

  lemma SamePointSameWay(c: Config, a: Answers, fid: nat, fl: Flight, fl': Flight, l: Label, l': Label)
    requires SamePoint(fl, fl') && Prescribed(c, a, fid, fl, l) && Prescribed(c, a, fid, fl', l')
    ensures SameAction(l, l') && SamePoint(MoveBy(c, fl, l), MoveBy(c, fl', l'))
  {
    if IsCall(fl.pc) {
      SameCall(c, a, fid, fl, fl', l, l');
    }
  }

  lemma {:induction false} Prefix(c: Config, a: Answers, fid: nat, fl: Flight, p: seq<Label>, n: nat)
    requires Obedient(c, a, fid, fl, p) && n < |p|
    ensures Obedient(c, a, fid, fl, p[..n]) && Prescribed(c, a, fid, After(c, fl, p[..n]), p[n])
  {
    if n < |p| - 1 {
      var front := p[..|p| - 1];
      Prefix(c, a, fid, fl, front, n);
      assert front[..n] == p[..n];
    }
  }

  lemma {:induction false} SameSoFar(c: Config, a: Answers, fid: nat, fl: Flight, p: seq<Label>, q: seq<Label>)
    requires Obedient(c, a, fid, fl, p) && Obedient(c, a, fid, fl, q) && |p| == |q|
    ensures forall i :: 0 <= i < |p| ==> SameAction(p[i], q[i])
    ensures SamePoint(After(c, fl, p), After(c, fl, q))
  {
    if p != [] {
      var n := |p| - 1;
      SameSoFar(c, a, fid, fl, p[..n], q[..n]);
      SamePointSameWay(c, a, fid, After(c, fl, p[..n]), After(c, fl, q[..n]), p[n], q[n]);
      forall i | 0 <= i < n
        ensures SameAction(p[i], q[i])
      {
        assert SameAction(p[..n][i], q[..n][i]);
      }
    }
  }

  lemma FinishedIsLongest(c: Config, a: Answers, fid: nat, fl: Flight, p: seq<Label>, q: seq<Label>)
    requires Obedient(c, a, fid, fl, p) && Obedient(c, a, fid, fl, q)
    requires After(c, fl, p).pc == Done
    ensures |q| <= |p|
  {
    if |p| < |q| {
      Prefix(c, a, fid, fl, q, |p|);
      SameSoFar(c, a, fid, fl, p, q[..|p|]);
    }
  }

  /** A whole way of an envelope, from its flight to the end. */
  predicate Way(c: Config, a: Answers, fid: nat, fl: Flight, path: seq<Label>) {
    Obedient(c, a, fid, fl, path) && After(c, fl, path).pc == Done
  }

  /** The answers leave no choice: whatever happens elsewhere, and however long everything takes, the
      envelope goes the same way to the same end. */
  lemma AnswersDecide(c: Config, a: Answers, fid: nat, fl: Flight, p: seq<Label>, q: seq<Label>)
    ensures Way(c, a, fid, fl, p) && Way(c, a, fid, fl, q) ==>
              && |p| == |q| && (forall i :: 0 <= i < |p| ==> SameAction(p[i], q[i]))
              && After(c, fl, p) == After(c, fl, q)
  {
    if Way(c, a, fid, fl, p) && Way(c, a, fid, fl, q) {
      FinishedIsLongest(c, a, fid, fl, p, q);
      FinishedIsLongest(c, a, fid, fl, q, p);
      SameSoFar(c, a, fid, fl, p, q);
    }
  }
}
