/** What every step keeps, whatever the settings: where messages may be, and what they carry. */
module Invariants {
  import opened Types
  import opened Context
  import opened RedisServer
  import opened Protocol

  type Originals = map<TaskId, TaskMessage>

  // ---- Shape: deliveries, pending entries and flights ----

  /** Only delivered entries are pending, and a consumer that stays away has none. */
  ghost predicate Placed(c: Config, sv: Server, condemned: set<WorkerId>) {
    && sv.cursor <= |sv.stream|
    && (forall tag :: tag in sv.pel ==> tag < sv.cursor)
    && (c.idleStayAway ==> forall tag :: tag in sv.pel ==> sv.pel[tag].consumer !in condemned)
    && (!c.useDlq ==> sv.dlq == [])
    && (forall k :: k in sv.dlqDeleted ==> k < |sv.dlq|)
  }

  ghost predicate Aboard(sv: Server, fl: Flight) {
    fl.tag < sv.cursor <= |sv.stream| && fl.msg == sv.stream[fl.tag].msg
  }

  ghost predicate Shape(c: Config, s: State) {
    && Placed(c, s.sv, s.condemned)
    && (forall f :: 0 <= f < |s.flights| ==> Aboard(s.sv, s.flights[f]))
  }

  /** The server only ever appends to its streams and delivers further. */
  predicate Grows(sv: Server, sv': Server) {
    && sv.stream <= sv'.stream
    && sv.cursor <= sv'.cursor <= |sv'.stream|
    && sv.dlq <= sv'.dlq
    && sv.dlqDeleted <= sv'.dlqDeleted
  }

  lemma EffectGrows(c: Config, sv: Server, condemned: set<WorkerId>, clock: Time, fl: Flight, now: Time)
    requires Placed(c, sv, condemned)
    ensures Grows(sv, ServerEffect(c, sv, clock, fl, now))
    ensures ServerEffect(c, sv, clock, fl, now).cursor == sv.cursor
    ensures Placed(c, ServerEffect(c, sv, clock, fl, now), condemned)
  {}

  lemma ShapeMove(c: Config, s: State, fid: nat, pc: Pc, tally: Tally)
    requires Shape(c, s) && fid < |s.flights|
    ensures Shape(c, Move(c, s, fid, pc, tally))
  {}

  lemma ShapeCarried(c: Config, s: State, s': State)
    requires Shape(c, s) && Grows(s.sv, s'.sv) && Placed(c, s'.sv, s'.condemned)
    requires s'.flights == s.flights
    ensures Shape(c, s')
  {}

  lemma ServerShape(c: Config, s: State, l: Label)
    requires Shape(c, s) && Enabled(c, s, l)
    requires l.ClientPublish? || l.PromoteOne? || l.ReplayDlq? || l.Snapshot? || l.Cleanup?
    ensures Grows(s.sv, Next(c, s, l).sv) && Placed(c, Next(c, s, l).sv, Next(c, s, l).condemned)
  {
    if l.Snapshot? {
      assert forall tag :: tag in s.sv.pel && s.sv.pel[tag].consumer == l.w ==> tag in PendingOf(s.sv, l.w);
    }
  }

  lemma LaunchShape(c: Config, s: State, l: Label)
    requires Shape(c, s) && Enabled(c, s, l) && (l.Deliver? || l.ClaimStale?)
    ensures Shape(c, Next(c, s, l))
  {
    assert forall f :: 0 <= f < |s.flights| ==> Aboard(Next(c, s, l).sv, s.flights[f]);
  }

  lemma CallShape(c: Config, s: State, l: Label)
    requires Shape(c, s) && Enabled(c, s, l) && l.Call?
    ensures Shape(c, Next(c, s, l))
  {
    var fl := s.flights[l.fid];
    var (pc, tally) := Goto(c, fl, l.fault, l.exc);
    var s' := if l.fault == Refused then s else Effect(c, s, fl, l.now);
    EffectGrows(c, s.sv, s.condemned, s.clock, fl, l.now);
    ShapeCarried(c, s, s');
    ShapeMove(c, s', l.fid, pc, tally);
  }

  lemma LocalShape(c: Config, s: State, l: Label)
    requires Shape(c, s) && Enabled(c, s, l)
    requires l.Acquire? || l.Finish? || l.Handle? || l.Kill?
    ensures Shape(c, Next(c, s, l))
  {
    var fl' := Next(c, s, l).flights[l.fid];
    ShapeMove(c, s, l.fid, fl'.pc, fl'.tally);
  }

  lemma ShapeKept(c: Config, s: State, l: Label)
    requires Shape(c, s) && Enabled(c, s, l)
    ensures Shape(c, Next(c, s, l))
  {
    match l
    case Call(_, _, _, _) => CallShape(c, s, l);
    case Deliver(_) | ClaimStale(_, _) => LaunchShape(c, s, l);
    case ClientPublish(_, _) | PromoteOne(_, _) | ReplayDlq(_, _) | Snapshot(_) | Cleanup(_) =>
      ServerShape(c, s, l);
      ShapeCarried(c, s, Next(c, s, l));
    case Tick(_) | Poll(_) =>
    case _ => LocalShape(c, s, l);
  }

  // ---- Mail: what messages carry ----

  /** A message belongs to the published task of its id, and has been retried within budget. */
  ghost predicate Genuine(c: Config, pub: Originals, clock: Time, m: TaskMessage) {
    && m.id in pub && SamePayload(m, pub[m.id])
    && m.retries <= c.MaxRetriesOf(m.name)
    && (m.retries == 0 <==> m.firstFailureAt.None?)
    && (m.firstFailureAt.Some? ==> m.firstFailureAt.value <= clock)
    && (m.retries > 0 ==> m.priority.None?)
  }

  predicate DueBy(m: TaskMessage, t: Time) {
    m.eta.Some? ==> m.eta.value <= t
  }

  ghost predicate StoredOk(c: Config, pub: Originals, clock: Time, sv: Server) {
    && (forall i :: 0 <= i < |sv.stream| ==>
          Genuine(c, pub, clock, sv.stream[i].msg)
          && DueBy(sv.stream[i].msg, sv.stream[i].at) && sv.stream[i].at <= clock)
    && (forall m :: m in sv.delayed ==> Genuine(c, pub, clock, m) && m.eta.Some? && m.eta.value >= 0.0)
    && (forall k :: 0 <= k < |sv.dlq| ==>
          Genuine(c, pub, clock, sv.dlq[k].data) && DueBy(sv.dlq[k].data, clock))
  }

  /** `next` was built from `m` by one retry, at some time. */
  ghost predicate IsNext(m: TaskMessage, next: TaskMessage) {
    exists at: Time, countdown: Option<real>, e: Option<string> :: next == RetryMessage(m, at, countdown, e)
  }

  /** The message a flight is about to publish is the next link of its chain. */
  ghost predicate LinkOk(c: Config, pub: Originals, clock: Time, fl: Flight) {
    match fl.pc
    case Retrying(_) => fl.msg.retries < c.MaxRetriesOf(fl.msg.name)
    case SetRetry(next) => Genuine(c, pub, clock, next) && IsNext(fl.msg, next)
    case Republish(next) => Genuine(c, pub, clock, next) && IsNext(fl.msg, next)
    case _ => true
  }

  ghost predicate Mail(c: Config, s: State) {
    && s.clock >= 0.0
    && StoredOk(c, s.published, s.clock, s.sv)
    && (forall f :: 0 <= f < |s.flights| ==> LinkOk(c, s.published, s.clock, s.flights[f]))
  }

  lemma GenuineLater(c: Config, pub: Originals, clock: Time, pub': Originals, clock': Time)
    requires clock <= clock' && forall id :: id in pub ==> id in pub' && pub'[id] == pub[id]
    ensures forall m :: Genuine(c, pub, clock, m) ==> Genuine(c, pub', clock', m)
  {}

  lemma MailLater(c: Config, s: State, pub': Originals, clock': Time)
    requires Mail(c, s)
    requires s.clock <= clock' && forall id :: id in s.published ==> id in pub' && pub'[id] == s.published[id]
    ensures Mail(c, s.(published := pub', clock := clock'))
  {
    GenuineLater(c, s.published, s.clock, pub', clock');
  }

  lemma PublishOk(c: Config, pub: Originals, clock: Time, sv: Server, m: TaskMessage, now: Time)
    requires StoredOk(c, pub, clock, sv) && Genuine(c, pub, clock, m) && 0.0 <= now <= clock
    ensures StoredOk(c, pub, clock, Publish(sv, m, now, clock))
  {}

  lemma EffectStored(c: Config, pub: Originals, clock: Time, sv: Server, fl: Flight, now: Time)
    requires StoredOk(c, pub, clock, sv) && LinkOk(c, pub, clock, fl) && Aboard(sv, fl) && 0.0 <= now <= clock
    ensures StoredOk(c, pub, clock, ServerEffect(c, sv, clock, fl, now))
  {
    if fl.pc.Republish? {
      PublishOk(c, pub, clock, sv, fl.pc.next, now);
    }
  }

  lemma MailMove(c: Config, s: State, fid: nat, pc: Pc, tally: Tally)
    requires Mail(c, s) && fid < |s.flights| && LinkOk(c, s.published, s.clock, s.flights[fid].(pc := pc))
    ensures Mail(c, Move(c, s, fid, pc, tally))
  {}

  lemma CallMail(c: Config, s: State, l: Label)
    requires Shape(c, s) && Mail(c, s) && Enabled(c, s, l) && l.Call?
    ensures Mail(c, Next(c, s, l))
  {
    var fl := s.flights[l.fid];
    assert LinkOk(c, s.published, s.clock, fl);
    EffectStored(c, s.published, s.clock, s.sv, fl, l.now);
    var (pc, tally) := Goto(c, fl, l.fault, l.exc);
    MailMove(c, if l.fault == Refused then s else Effect(c, s, fl, l.now), l.fid, pc, tally);
  }

  lemma BodyMail(c: Config, s: State, l: Label)
    requires Shape(c, s) && Mail(c, s) && Enabled(c, s, l) && l.Finish?
    ensures Mail(c, Next(c, s, l))
  {
    var fl := s.flights[l.fid];
    assert Aboard(s.sv, fl);
    var (pc, tally) := AfterBody(c, fl, l.body, l.u);
    MailMove(c, if l.body == Returned then s.(completed := s.completed + {fl.msg.id}) else s, l.fid, pc, tally);
  }

  lemma HandleMail(c: Config, s: State, l: Label)
    requires Shape(c, s) && Mail(c, s) && Enabled(c, s, l) && l.Handle?
    ensures Mail(c, Next(c, s, l))
  {
    var fl := s.flights[l.fid];
    assert LinkOk(c, s.published, s.clock, fl) && Aboard(s.sv, fl);
    var pc := Decide(c, fl, l.now, l.u);
    assert LinkOk(c, s.published, s.clock, fl.(pc := pc));
    MailMove(c, s, l.fid, pc, fl.tally);
  }

  lemma LocalMail(c: Config, s: State, l: Label)
    requires Shape(c, s) && Mail(c, s) && Enabled(c, s, l) && (l.Kill? || l.Acquire?)
    ensures Mail(c, Next(c, s, l))
  {
    var fl' := Next(c, s, l).flights[l.fid];
    MailMove(c, s, l.fid, fl'.pc, fl'.tally);
  }

  lemma LaunchMail(c: Config, s: State, l: Label)
    requires Shape(c, s) && Mail(c, s) && Enabled(c, s, l) && (l.Deliver? || l.ClaimStale?)
    ensures Mail(c, Next(c, s, l))
  {}

  lemma ServerMail(c: Config, s: State, l: Label)
    requires Shape(c, s) && Mail(c, s) && Enabled(c, s, l) && (l.PromoteOne? || l.ReplayDlq? || l.Cleanup?)
    ensures Mail(c, Next(c, s, l))
  {}

  lemma MailKept(c: Config, s: State, l: Label)
    requires Shape(c, s) && Mail(c, s) && Enabled(c, s, l)
    ensures Mail(c, Next(c, s, l))
  {
    match l
    case Tick(dt) => MailLater(c, s, s.published, s.clock + dt);
    case ClientPublish(m, now) =>
      var pub' := s.published[m.id := m];
      MailLater(c, s, pub', s.clock);
      PublishOk(c, pub', s.clock, s.sv, m, now);
    case PromoteOne(_, _) | ReplayDlq(_, _) | Cleanup(_) => ServerMail(c, s, l);
    case Deliver(_) | ClaimStale(_, _) => LaunchMail(c, s, l);
    case Call(_, _, _, _) => CallMail(c, s, l);
    case Finish(_, _, _) => BodyMail(c, s, l);
    case Handle(_, _, _) => HandleMail(c, s, l);
    case Kill(_) | Acquire(_) => LocalMail(c, s, l);
    case Poll(_) | Snapshot(_) =>
  }

  lemma {:induction false} RunKeepsMail(c: Config, ls: seq<Label>)
    requires Admissible(c, INIT, ls)
    ensures Shape(c, Run(c, INIT, ls)) && Mail(c, Run(c, INIT, ls))
  {
    if ls != [] {
      var before := ls[..|ls| - 1];
      RunKeepsMail(c, before);
      ShapeKept(c, Run(c, INIT, before), ls[|ls| - 1]);
      MailKept(c, Run(c, INIT, before), ls[|ls| - 1]);
    }
  }

  lemma ReachableMail(c: Config, s: State)
    requires Reachable(c, s)
    ensures Shape(c, s) && Mail(c, s)
  {
    var ls :| Admissible(c, INIT, ls) && Run(c, INIT, ls) == s;
    RunKeepsMail(c, ls);
  }

  // ---- What clients and operators may rely on ----

  /** Every message the system holds anywhere. */
  ghost predicate Holds(s: State, m: TaskMessage) {
    || (exists i :: 0 <= i < |s.sv.stream| && s.sv.stream[i].msg == m)
    || m in s.sv.delayed
    || (exists k :: 0 <= k < |s.sv.dlq| && s.sv.dlq[k].data == m)
    || (exists f :: 0 <= f < |s.flights| && s.flights[f].msg == m)
  }

  lemma HeldIsGenuine(c: Config, s: State, m: TaskMessage)
    requires Reachable(c, s) && Holds(s, m)
    ensures Genuine(c, s.published, s.clock, m)
  {
    ReachableMail(c, s);
    if f :| 0 <= f < |s.flights| && s.flights[f].msg == m {
      assert Aboard(s.sv, s.flights[f]);
    }
  }

  /** No message is ever held with more retries than its task allows, whatever is redelivered,
      claimed, killed, dead-lettered or replayed. */
  lemma RetryBudget(c: Config, s: State, m: TaskMessage)
    requires Reachable(c, s) && Holds(s, m)
    ensures m.retries <= c.MaxRetriesOf(m.name)
  {
    HeldIsGenuine(c, s, m);
  }

  /** Every message held under an id is the published task of that id, and says truly whether and
      when it first failed. */
  lemma IdentityKept(c: Config, s: State, m: TaskMessage)
    requires Reachable(c, s) && Holds(s, m)
    ensures m.id in s.published && SamePayload(m, s.published[m.id])
    ensures m.firstFailureAt.Some? <==> m.retries > 0
    ensures m.firstFailureAt.Some? ==> m.firstFailureAt.value <= s.clock
    ensures m.retries > 0 ==> m.priority.None?
  {
    HeldIsGenuine(c, s, m);
  }

  /** Nothing enters the stream, and so nothing is delivered or executed, before its eta. */
  lemma NeverEarly(c: Config, s: State)
    requires Reachable(c, s)
    ensures forall i :: 0 <= i < |s.sv.stream| ==> DueBy(s.sv.stream[i].msg, s.sv.stream[i].at)
    ensures forall f :: 0 <= f < |s.flights| ==> DueBy(s.flights[f].msg, s.clock)
    ensures forall m :: m in s.sv.delayed ==> m.eta.Some? && m.eta.value >= 0.0
  {
    ReachableMail(c, s);
    forall f | 0 <= f < |s.flights|
      ensures DueBy(s.flights[f].msg, s.clock)
    {
      assert Aboard(s.sv, s.flights[f]);
    }
  }
}
