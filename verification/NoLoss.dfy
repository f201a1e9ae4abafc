/** At-least-once delivery: no published task is lost. */
module NoLoss {
  import opened Types
  import opened RedisServer
  import opened Protocol
  import opened Invariants

  /** Some stream entry of the id, appended after position `e`, is undelivered or pending. */
  ghost predicate Queued(sv: Server, id: TaskId, e: int) {
    exists i: nat :: e < i && i < |sv.stream| && sv.stream[i].msg.id == id && (i >= sv.cursor || i in sv.pel)
  }

  ghost predicate Scheduled(sv: Server, id: TaskId) {
    exists m :: m in sv.delayed && m.id == id
  }

  ghost predicate DeadLettered(sv: Server, id: TaskId) {
    exists k: nat :: LiveDlq(sv, k) && sv.dlq[k].data.id == id
  }

  /** The broker still holds the task, not counting stream entries up to position `e`. */
  ghost predicate HeldBeyond(sv: Server, id: TaskId, e: int) {
    Queued(sv, id, e) || Scheduled(sv, id) || DeadLettered(sv, id)
  }

  /** Two notions of a task that needs no more work: its outcome is recorded, success or failure;
      or, in the strict sense, its body has returned. */
  ghost function Settled(s: State, strict: bool): set<TaskId> {
    if strict then s.completed else s.recorded.Keys
  }

  ghost predicate Safe(s: State, strict: bool, id: TaskId, e: int) {
    id in Settled(s, strict) || HeldBeyond(s.sv, id, e)
  }

  /** No published task is lost. */
  ghost predicate NoneLost(s: State, strict: bool) {
    forall id :: id in s.published ==> Safe(s, strict, id, -1)
  }

  /** What each program counter knows: a flight about to acknowledge entry e has made sure that the
      task does not depend on e. Positions, not retry counts, order the links of a chain, because a
      replay may start again from zero retries. */
  ghost predicate FlightSafe(c: Config, s: State, strict: bool, fl: Flight) {
    match fl.pc
    case EarlyAck => false
    case StoreSuccess => strict ==> fl.msg.id in s.completed
    case AckSuccess | AckRetry | Finalize => Safe(s, strict, fl.msg.id, fl.tag)
    case MoveDlq => !strict ==> fl.msg.id in s.recorded
    case _ => true
  }

  ghost predicate Covered(c: Config, s: State, strict: bool) {
    && NoneLost(s, strict)
    && (forall f :: 0 <= f < |s.flights| ==> FlightSafe(c, s, strict, s.flights[f]))
  }

  predicate AllLate(c: Config) {
    forall name :: name in c.tasks ==> c.tasks[name].mode == AtLeastOnce
  }

  /** Recording outcomes suffices for the first notion; for the strict one, dead letters must be
      kept and the dead-letter call must not be refused. */
  predicate Protected(c: Config, strict: bool) {
    && AllLate(c) && c.idleStayAway
    && (if strict then c.useDlq && !c.dlqRefuses else c.backend)
  }

  // ---- Each server command keeps what the broker holds ----

  lemma GrowthKeeps(sv: Server, sv': Server, id: TaskId, e: int)
    requires HeldBeyond(sv, id, e) && Grows(sv, sv') && sv'.cursor == sv.cursor
    requires sv.pel.Keys <= sv'.pel.Keys && sv.delayed <= sv'.delayed && sv.dlqDeleted == sv'.dlqDeleted
    ensures HeldBeyond(sv', id, e)
  {
    if k: nat :| LiveDlq(sv, k) && sv.dlq[k].data.id == id {
      assert LiveDlq(sv', k) && sv'.dlq[k] == sv.dlq[k];
    }
  }

  lemma ReadKeeps(sv: Server, w: WorkerId, at: Time, id: TaskId, e: int)
    requires HeldBeyond(sv, id, e) && sv.cursor < |sv.stream|
    ensures HeldBeyond(Read(sv, w, at), id, e)
  {
    var sv' := Read(sv, w, at);
    if i: nat :| e < i && i < |sv.stream| && sv.stream[i].msg.id == id && (i >= sv.cursor || i in sv.pel) {
      assert sv'.stream[i] == sv.stream[i] && (i >= sv'.cursor || i in sv'.pel);
    } else if k: nat :| LiveDlq(sv, k) && sv.dlq[k].data.id == id {
      assert LiveDlq(sv', k);
    }
  }

  lemma AppendHolds(sv: Server, m: TaskMessage, at: Time, e: int)
    requires e < |sv.stream| && sv.cursor <= |sv.stream|
    ensures HeldBeyond(Xadd(sv, m, at), m.id, e)
  {
    assert Xadd(sv, m, at).stream[|sv.stream|].msg == m;
  }

  lemma PublishHolds(sv: Server, m: TaskMessage, now: Time, at: Time, e: int)
    requires e < |sv.stream| && sv.cursor <= |sv.stream|
    ensures HeldBeyond(Publish(sv, m, now, at), m.id, e)
  {
    if Later(m, now) {
      assert m in Publish(sv, m, now, at).delayed;
    } else {
      AppendHolds(sv, m, at, e);
    }
  }

  lemma PublishKeeps(sv: Server, m: TaskMessage, now: Time, at: Time, id: TaskId, e: int)
    requires HeldBeyond(sv, id, e) && sv.cursor <= |sv.stream|
    ensures HeldBeyond(Publish(sv, m, now, at), id, e)
  {
    GrowthKeeps(sv, Publish(sv, m, now, at), id, e);
  }

  lemma PromoteKeeps(sv: Server, m: TaskMessage, at: Time, id: TaskId, e: int)
    requires HeldBeyond(sv, id, e) && sv.cursor <= |sv.stream| && e < |sv.stream|
    ensures HeldBeyond(Promote(sv, m, at), id, e)
  {
    var sv' := Promote(sv, m, at);
    if m.id == id {
      assert sv'.stream[|sv.stream|].msg == m;
    } else if i: nat :| e < i && i < |sv.stream| && sv.stream[i].msg.id == id && (i >= sv.cursor || i in sv.pel) {
      assert sv'.stream[i] == sv.stream[i] && (i >= sv'.cursor || i in sv'.pel);
    } else if n :| n in sv.delayed && n.id == id {
      assert n in sv'.delayed;
    } else if k: nat :| LiveDlq(sv, k) && sv.dlq[k].data.id == id {
      assert LiveDlq(sv', k);
    }
  }

  lemma ReplayKeeps(sv: Server, k: nat, reset: bool, at: Time, id: TaskId, e: int)
    requires HeldBeyond(sv, id, e) && k < |sv.dlq| && sv.cursor <= |sv.stream| && e < |sv.stream|
    ensures HeldBeyond(Replay(sv, k, reset, at), id, e)
  {
    var sv' := Replay(sv, k, reset, at);
    if sv.dlq[k].data.id == id {
      assert sv'.stream[|sv.stream|].msg.id == id;
    } else if i: nat :| e < i && i < |sv.stream| && sv.stream[i].msg.id == id && (i >= sv.cursor || i in sv.pel) {
      assert sv'.stream[i] == sv.stream[i] && (i >= sv'.cursor || i in sv'.pel);
    } else if j: nat :| LiveDlq(sv, j) && sv.dlq[j].data.id == id {
      assert LiveDlq(sv', j) && sv'.dlq[j] == sv.dlq[j];
    }
  }

  /** An acknowledged entry is missed only by those who counted on it. */
  lemma AckKeeps(sv: Server, mode: DeliveryMode, tag: nat, id: TaskId, e: int)
    requires HeldBeyond(sv, id, e) && tag < sv.cursor
    requires tag < |sv.stream| && (sv.stream[tag].msg.id == id && e < tag ==> HeldBeyond(sv, id, tag))
    ensures HeldBeyond(Ack(sv, mode, tag), id, e)
  {
    var sv' := Ack(sv, mode, tag);
    var e' := if sv.stream[tag].msg.id == id && e < tag then tag else e;
    assert HeldBeyond(sv, id, e');
    if i: nat :| e' < i && i < |sv.stream| && sv.stream[i].msg.id == id && (i >= sv.cursor || i in sv.pel) {
      assert sv'.stream[i] == sv.stream[i] && (i >= sv'.cursor || i in sv'.pel);
    } else if k: nat :| LiveDlq(sv, k) && sv.dlq[k].data.id == id {
      assert LiveDlq(sv', k);
    }
  }

  lemma DeadLetterKeeps(sv: Server, mode: DeliveryMode, tag: nat, m: TaskMessage, at: Time, id: TaskId, e: int)
    requires HeldBeyond(sv, id, e) || id == m.id
    requires tag < sv.cursor <= |sv.stream| && sv.stream[tag].msg == m && |sv.dlq| !in sv.dlqDeleted
    ensures HeldBeyond(DeadLetter(sv, mode, tag, m, at), id, e)
  {
    var added := sv.(dlq := sv.dlq + [DlqEntry(m, at, tag)]);
    if m.id == id {
      assert LiveDlq(DeadLetter(sv, mode, tag, m, at), |sv.dlq|);
    } else {
      GrowthKeeps(sv, added, id, e);
      AckKeeps(added, mode, tag, id, e);
    }
  }

  // ---- Each step of the protocol keeps a safe task safe ----

  lemma CallKeepsSafe(c: Config, s: State, strict: bool, fl: Flight, now: Time, id: TaskId, e: int)
    requires Shape(c, s) && Protected(c, strict) && e < |s.sv.stream|
    requires Aboard(s.sv, fl) && FlightSafe(c, s, strict, fl)
    requires Safe(s, strict, id, e)
    ensures Safe(Effect(c, s, fl, now), strict, id, e)
  {
    if id !in Settled(s, strict) {
      match fl.pc
      case AckSuccess | AckRetry | Finalize => AckKeeps(s.sv, c.broker, fl.tag, id, e);
      case Republish(next) => PublishKeeps(s.sv, next, now, s.clock, id, e);
      case MoveDlq =>
        if c.useDlq {
          DeadLetterKeeps(s.sv, c.broker, fl.tag, fl.msg, s.clock, id, e);
        } else {
          AckKeeps(s.sv, c.broker, fl.tag, id, e);
        }
      case _ =>
    }
  }

  lemma CallStepKeepsSafe(c: Config, s: State, strict: bool, l: Label, id: TaskId, e: int)
    requires Shape(c, s) && Covered(c, s, strict) && Protected(c, strict) && Enabled(c, s, l) && l.Call?
    requires e < |s.sv.stream| && Safe(s, strict, id, e)
    ensures Safe(Next(c, s, l), strict, id, e)
  {
    assert Aboard(s.sv, s.flights[l.fid]);
    if l.fault != Refused {
      CallKeepsSafe(c, s, strict, s.flights[l.fid], l.now, id, e);
    }
  }

  lemma SafeKept(c: Config, s: State, strict: bool, l: Label, id: TaskId, e: int)
    requires Shape(c, s) && Covered(c, s, strict) && Protected(c, strict) && Enabled(c, s, l)
    requires e < |s.sv.stream| && Safe(s, strict, id, e)
    ensures Safe(Next(c, s, l), strict, id, e)
  {
    if l.Call? {
      CallStepKeepsSafe(c, s, strict, l, id, e);
    } else if id !in Settled(s, strict) {
      match l
      case ClientPublish(m, now) => PublishKeeps(s.sv, m, now, s.clock, id, e);
      case PromoteOne(m, _) => PromoteKeeps(s.sv, m, s.clock, id, e);
      case Deliver(w) => ReadKeeps(s.sv, w, s.clock, id, e);
      case ClaimStale(w, tag) => GrowthKeeps(s.sv, Claim(s.sv, tag, w, s.clock), id, e);
      case ReplayDlq(k, reset) => ReplayKeeps(s.sv, k, reset, s.clock, id, e);
      case Cleanup(w) =>
        assert PendingOf(s.sv, w) == {};
        DelConsumerSafe(s.sv, w);
      case _ =>
    }
  }

  lemma SettledGrows(c: Config, s: State, strict: bool, l: Label)
    requires Enabled(c, s, l)
    ensures Settled(s, strict) <= Settled(Next(c, s, l), strict)
  {}

  lemma StayingFlightSafe(c: Config, s: State, strict: bool, l: Label, fl: Flight)
    requires Shape(c, s) && Covered(c, s, strict) && Protected(c, strict) && Enabled(c, s, l)
    requires Aboard(s.sv, fl) && FlightSafe(c, s, strict, fl)
    ensures FlightSafe(c, Next(c, s, l), strict, fl)
  {
    SettledGrows(c, s, strict, l);
    match fl.pc
    case AckSuccess | AckRetry | Finalize => SafeKept(c, s, strict, l, fl.msg.id, fl.tag);
    case StoreSuccess => SettledGrows(c, s, true, l);
    case MoveDlq => SettledGrows(c, s, false, l);
    case _ =>
  }

  lemma CallLands(c: Config, s: State, l: Label)
    requires Enabled(c, s, l) && l.Call?
    ensures var s', fl := Next(c, s, l), s.flights[l.fid];
            && s'.flights[l.fid] == fl.(pc := Goto(c, fl, l.fault, l.exc).0, tally := Goto(c, fl, l.fault, l.exc).1)
            && s'.sv == (if l.fault == Refused then s.sv else ServerEffect(c, s.sv, s.clock, fl, l.now))
            && s'.recorded == (if l.fault == Refused then s.recorded else RecordEffect(c, s.recorded, fl))
            && s'.completed == s.completed
  {}

  /** A call leaves its own flight at a counter whose knowledge holds. */
  lemma CallMovesSafely(c: Config, s: State, strict: bool, l: Label)
    requires Shape(c, s) && Mail(c, s) && Covered(c, s, strict) && Protected(c, strict)
    requires Enabled(c, s, l) && l.Call?
    ensures FlightSafe(c, Next(c, s, l), strict, Next(c, s, l).flights[l.fid])
  {
    var fl := s.flights[l.fid];
    assert Aboard(s.sv, fl) && FlightSafe(c, s, strict, fl) && LinkOk(c, s.published, s.clock, fl);
    var s' := Next(c, s, l);
    CallLands(c, s, l);
    match fl.pc
    case Republish(next) =>
      if l.fault == Fine {
        PublishHolds(s.sv, next, l.now, s.clock, fl.tag);
      }
    case MoveDlq =>
      if l.fault == Lost && c.useDlq {
        assert LiveDlq(s'.sv, |s.sv.dlq|);
      }
    case _ =>
  }

  lemma BodyMovesSafely(c: Config, s: State, strict: bool, l: Label)
    requires Enabled(c, s, l) && l.Finish?
    ensures FlightSafe(c, Next(c, s, l), strict, Next(c, s, l).flights[l.fid])
  {
    var (pc, tally) := AfterBody(c, s.flights[l.fid], l.body, l.u);
    assert Next(c, s, l).flights[l.fid].pc == pc;
  }

  lemma MovesSafely(c: Config, s: State, strict: bool, l: Label)
    requires Shape(c, s) && Mail(c, s) && Covered(c, s, strict) && Protected(c, strict) && Enabled(c, s, l)
    requires l.Call? || l.Acquire? || l.Finish? || l.Handle? || l.Kill?
    ensures FlightSafe(c, Next(c, s, l), strict, Next(c, s, l).flights[l.fid])
  {
    var fl := s.flights[l.fid];
    assert Aboard(s.sv, fl) && FlightSafe(c, s, strict, fl);
    match l
    case Call(_, _, _, _) => CallMovesSafely(c, s, strict, l);
    case Finish(_, body, u) => BodyMovesSafely(c, s, strict, l);
    case _ =>
  }

  /** A step moves at most the flight it names, and a new flight waits. */
  lemma OthersStay(c: Config, s: State, l: Label, f: nat)
    requires Enabled(c, s, l) && f < |Next(c, s, l).flights|
    ensures if f >= |s.flights| then Next(c, s, l).flights[f].pc == Waiting
            else Next(c, s, l).flights[f] == s.flights[f]
                 || ((l.Call? || l.Acquire? || l.Finish? || l.Handle? || l.Kill?) && f == l.fid)
  {}

  lemma EachFlightSafe(c: Config, s: State, strict: bool, l: Label, f: nat)
    requires Shape(c, s) && Mail(c, s) && Covered(c, s, strict) && Protected(c, strict) && Enabled(c, s, l)
    requires f < |Next(c, s, l).flights|
    ensures FlightSafe(c, Next(c, s, l), strict, Next(c, s, l).flights[f])
  {
    OthersStay(c, s, l, f);
    if f < |s.flights| {
      if Next(c, s, l).flights[f] == s.flights[f] {
        assert Aboard(s.sv, s.flights[f]);
        StayingFlightSafe(c, s, strict, l, s.flights[f]);
      } else {
        MovesSafely(c, s, strict, l);
      }
    }
  }

  lemma CoveredKept(c: Config, s: State, strict: bool, l: Label)
    requires Shape(c, s) && Mail(c, s) && Covered(c, s, strict) && Protected(c, strict) && Enabled(c, s, l)
    ensures Covered(c, Next(c, s, l), strict)
  {
    var s' := Next(c, s, l);
    forall id | id in s'.published
      ensures Safe(s', strict, id, -1)
    {
      if id in s.published {
        SafeKept(c, s, strict, l, id, -1);
      } else {
        PublishHolds(s.sv, l.m, l.now, s.clock, -1);
      }
    }
    forall f | 0 <= f < |s'.flights|
      ensures FlightSafe(c, s', strict, s'.flights[f])
    {
      EachFlightSafe(c, s, strict, l, f);
    }
  }

  lemma {:induction false} RunKeepsCovered(c: Config, strict: bool, ls: seq<Label>)
    requires Admissible(c, INIT, ls) && Protected(c, strict)
    ensures Covered(c, Run(c, INIT, ls), strict)
  {
    if ls != [] {
      var before := ls[..|ls| - 1];
      RunKeepsCovered(c, strict, before);
      RunKeepsMail(c, before);
      CoveredKept(c, Run(c, INIT, before), strict, ls[|ls| - 1]);
    }
  }

  /** In every reachable state no published task is lost, when the settings protect it. */
  lemma NoTaskLost(c: Config, strict: bool, s: State)
    requires Protected(c, strict) && Reachable(c, s)
    ensures NoneLost(s, strict)
  {
    var ls :| Admissible(c, INIT, ls) && Run(c, INIT, ls) == s;
    RunKeepsCovered(c, strict, ls);
  }
}
