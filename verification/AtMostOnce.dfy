/** At-most-once delivery: no attempt of a task is executed twice. */
module AtMostOnce {
  import opened Types
  import opened Context
  import opened RedisServer
  import opened Protocol
  import opened Invariants
  import Exactness

  predicate SameAttempt(m: TaskMessage, n: TaskMessage) {
    m.id == n.id && m.retries == n.retries
  }

  predicate Executed(fl: Flight) {
    fl.tally != Outside
  }

  /** No attempt, an id with a retry count, has been executed twice. */
  ghost predicate NoneTwice(s: State) {
    forall f, g :: 0 <= f < g < |s.flights| && Executed(s.flights[f]) && Executed(s.flights[g]) ==>
      !SameAttempt(s.flights[f].msg, s.flights[g].msg)
  }

  /** Dead letters cannot come back: nobody replays them, or there are none. */
  predicate SingleUse(c: Config) {
    c.broker == AtMostOnce && (c.replays ==> !c.useDlq)
  }

  ghost predicate Present(sv: Server, id: TaskId, r: nat) {
    || (exists i: nat :: i < |sv.stream| && sv.stream[i].msg.id == id && sv.stream[i].msg.retries == r)
    || (exists m :: m in sv.delayed && m.id == id && m.retries == r)
  }

  ghost predicate Delivered(sv: Server, id: TaskId, r: nat) {
    exists i: nat :: i < sv.cursor && i < |sv.stream| && sv.stream[i].msg.id == id && sv.stream[i].msg.retries == r
  }

  /** Attempts are unique among stream entries and scheduled messages together. */
  ghost predicate Unique(sv: Server) {
    && (forall i, j :: 0 <= i < j < |sv.stream| ==> !SameAttempt(sv.stream[i].msg, sv.stream[j].msg))
    && (forall m, i :: m in sv.delayed && 0 <= i < |sv.stream| ==> !SameAttempt(m, sv.stream[i].msg))
    && (forall m, n :: m in sv.delayed && n in sv.delayed && SameAttempt(m, n) ==> m == n)
  }

  /** An attempt exists only if the one before it was delivered. */
  ghost predicate Chained(sv: Server) {
    forall id: TaskId, r: nat {:trigger Present(sv, id, r + 1)} {:trigger Delivered(sv, id, r)} ::
      Present(sv, id, r + 1) ==> Delivered(sv, id, r)
  }

  /** A flight that may still publish has not done so yet. */
  ghost predicate Childless(sv: Server, fl: Flight) {
    PrePublish(fl.pc) ==> !Present(sv, fl.msg.id, fl.msg.retries + 1)
  }

  ghost predicate Single(s: State) {
    && Unique(s.sv) && Chained(s.sv)
    && (forall f, g :: 0 <= f < g < |s.flights| ==> s.flights[f].tag != s.flights[g].tag)
    && (forall f :: 0 <= f < |s.flights| ==> Childless(s.sv, s.flights[f]))
  }

  /** Steps that leave stream, cursor and schedule alone leave the whole invariant alone. */
  predicate SameQueues(sv: Server, sv': Server) {
    sv.stream == sv'.stream && sv.cursor == sv'.cursor && sv.delayed == sv'.delayed
  }

  lemma SameQueuesKeeps(sv: Server, sv': Server)
    requires SameQueues(sv, sv')
    ensures Unique(sv) ==> Unique(sv')
    ensures Chained(sv) ==> Chained(sv')
    ensures forall id: TaskId, r: nat :: Present(sv', id, r) ==> Present(sv, id, r)
  {
    forall id: TaskId, r: nat
      ensures Present(sv', id, r) ==> Present(sv, id, r)
      ensures Delivered(sv, id, r) ==> Delivered(sv', id, r)
    {}
  }

  /** Publishing a new attempt adds that attempt and no other. */
  lemma PublishPresent(sv: Server, m: TaskMessage, now: Time, at: Time)
    ensures forall id: TaskId, r: nat {:trigger Present(Publish(sv, m, now, at), id, r)} ::
              Present(Publish(sv, m, now, at), id, r) ==> Present(sv, id, r) || (id == m.id && r == m.retries)
  {
    var sv' := Publish(sv, m, now, at);
    forall id: TaskId, r: nat | Present(sv', id, r)
      ensures Present(sv, id, r) || (id == m.id && r == m.retries)
    {
      if i: nat :| i < |sv'.stream| && sv'.stream[i].msg.id == id && sv'.stream[i].msg.retries == r {
        assert i < |sv.stream| ==> sv'.stream[i] == sv.stream[i];
      }
    }
  }

  lemma PublishUnique(sv: Server, m: TaskMessage, now: Time, at: Time)
    requires Unique(sv) && !Present(sv, m.id, m.retries)
    ensures Unique(Publish(sv, m, now, at))
  {
    assert forall i :: 0 <= i < |sv.stream| ==> !SameAttempt(sv.stream[i].msg, m);
    assert forall n :: n in sv.delayed ==> !SameAttempt(n, m);
  }

  lemma PublishChained(sv: Server, m: TaskMessage, now: Time, at: Time)
    requires Chained(sv) && sv.cursor <= |sv.stream|
    requires m.retries > 0 ==> Delivered(sv, m.id, m.retries - 1)
    ensures Chained(Publish(sv, m, now, at))
  {
    var sv' := Publish(sv, m, now, at);
    PublishPresent(sv, m, now, at);
    forall id: TaskId, r: nat | Present(sv', id, r + 1)
      ensures Delivered(sv', id, r)
    {
      assert Delivered(sv, id, r);
      var i: nat :| i < sv.cursor && i < |sv.stream| && sv.stream[i].msg.id == id && sv.stream[i].msg.retries == r;
      assert sv'.stream[i] == sv.stream[i];
    }
  }

  lemma PromotePresent(sv: Server, m: TaskMessage, at: Time)
    requires m in sv.delayed
    ensures forall id: TaskId, r: nat :: Present(Promote(sv, m, at), id, r) ==> Present(sv, id, r)
  {
    var sv' := Promote(sv, m, at);
    forall id: TaskId, r: nat | Present(sv', id, r)
      ensures Present(sv, id, r)
    {
      if i: nat :| i < |sv'.stream| && sv'.stream[i].msg.id == id && sv'.stream[i].msg.retries == r {
        assert i < |sv.stream| ==> sv'.stream[i] == sv.stream[i];
      }
    }
  }

  lemma PromoteKeeps(sv: Server, m: TaskMessage, at: Time)
    requires Unique(sv) && Chained(sv) && m in sv.delayed && sv.cursor <= |sv.stream|
    ensures Unique(Promote(sv, m, at)) && Chained(Promote(sv, m, at))
  {
    var sv' := Promote(sv, m, at);
    PromotePresent(sv, m, at);
    forall id: TaskId, r: nat | Present(sv', id, r + 1)
      ensures Delivered(sv', id, r)
    {
      assert Delivered(sv, id, r);
      var i: nat :| i < sv.cursor && i < |sv.stream| && sv.stream[i].msg.id == id && sv.stream[i].msg.retries == r;
      assert sv'.stream[i] == sv.stream[i];
    }
  }

  /** The attempt after an undelivered entry does not exist yet. */
  lemma UndeliveredChildless(sv: Server)
    requires Unique(sv) && Chained(sv) && sv.cursor < |sv.stream|
    ensures !Present(sv, sv.stream[sv.cursor].msg.id, sv.stream[sv.cursor].msg.retries + 1)
  {
    var m := sv.stream[sv.cursor].msg;
    assert !Delivered(sv, m.id, m.retries);
  }

  lemma ReadPresent(sv: Server, w: WorkerId, at: Time)
    requires Unique(sv) && Chained(sv) && sv.cursor < |sv.stream|
    ensures Unique(Read(sv, w, at)) && Chained(Read(sv, w, at))
    ensures forall id: TaskId, r: nat :: Present(Read(sv, w, at), id, r) ==> Present(sv, id, r)
  {
    var sv' := Read(sv, w, at);
    forall id: TaskId, r: nat
      ensures Present(sv', id, r) ==> Present(sv, id, r)
      ensures Delivered(sv, id, r) ==> Delivered(sv', id, r)
    {}
  }

  lemma ReadKeeps(c: Config, s: State, w: WorkerId)
    requires Shape(c, s) && Single(s) && s.sv.cursor < |s.sv.stream| && MayRead(c, s, w)
    ensures Single(Next(c, s, Deliver(w)))
  {
    var s' := Next(c, s, Deliver(w));
    UndeliveredChildless(s.sv);
    ReadPresent(s.sv, w, s.clock);
    forall f | 0 <= f < |s'.flights|
      ensures Childless(s'.sv, s'.flights[f]) && (f < |s.flights| ==> s'.flights[f].tag < s.sv.cursor)
    {
      assert f < |s.flights| ==> s'.flights[f] == s.flights[f] && Aboard(s.sv, s.flights[f]);
    }
  }

  lemma MoveKeepsSingle(c: Config, s: State, fid: nat, pc: Pc, tally: Tally)
    requires Single(s) && fid < |s.flights| && (PrePublish(pc) ==> PrePublish(s.flights[fid].pc))
    ensures Single(Move(c, s, fid, pc, tally))
  {
    assert Childless(s.sv, s.flights[fid]);
  }

  lemma RepublishKeeps(c: Config, s: State, l: Label)
    requires Shape(c, s) && Mail(c, s) && Single(s) && Enabled(c, s, l)
    requires l.Call? && s.flights[l.fid].pc.Republish? && l.fault != Refused
    ensures Single(Next(c, s, l))
  {
    var fl := s.flights[l.fid];
    var next := fl.pc.next;
    var sv' := Publish(s.sv, next, l.now, s.clock);
    assert LinkOk(c, s.published, s.clock, fl) && Aboard(s.sv, fl) && Childless(s.sv, fl);
    assert Delivered(s.sv, next.id, next.retries - 1);
    PublishPresent(s.sv, next, l.now, s.clock);
    PublishUnique(s.sv, next, l.now, s.clock);
    PublishChained(s.sv, next, l.now, s.clock);
    RepublishChildless(c, s, l);
  }

  lemma RepublishChildless(c: Config, s: State, l: Label)
    requires Shape(c, s) && Single(s) && Enabled(c, s, l)
    requires l.Call? && s.flights[l.fid].pc.Republish? && l.fault != Refused
    requires LinkOk(c, s.published, s.clock, s.flights[l.fid])
    ensures var s' := Next(c, s, l);
            && |s'.flights| == |s.flights| && s'.sv == Publish(s.sv, s.flights[l.fid].pc.next, l.now, s.clock)
            && (forall g :: 0 <= g < |s.flights| ==>
                  s'.flights[g].tag == s.flights[g].tag && Childless(s'.sv, s'.flights[g]))
  {
    var fl := s.flights[l.fid];
    var (pc, tally) := Goto(c, fl, l.fault, l.exc);
    assert Aboard(s.sv, fl) && !PrePublish(pc);
    forall g | 0 <= g < |s.flights| && g != l.fid
      ensures Childless(Next(c, s, l).sv, s.flights[g])
    {
      assert Aboard(s.sv, s.flights[g]);
      OthersChildless(s, l.fid, g, fl.pc.next, l.now);
    }
  }

  /** No other flight handles the attempt that is retried. */
  lemma OthersChildless(s: State, fid: nat, g: nat, next: TaskMessage, now: Time)
    requires Single(s) && fid < |s.flights| && g < |s.flights| && g != fid
    requires Aboard(s.sv, s.flights[fid]) && Aboard(s.sv, s.flights[g])
    requires next.id == s.flights[fid].msg.id && next.retries == s.flights[fid].msg.retries + 1
    ensures Childless(Publish(s.sv, next, now, s.clock), s.flights[g])
  {
    var fl, other := s.flights[fid], s.flights[g];
    PublishPresent(s.sv, next, now, s.clock);
    assert other.tag != fl.tag && Childless(s.sv, other);
    assert !SameAttempt(other.msg, fl.msg);
  }

  lemma CallKeepsSingle(c: Config, s: State, l: Label)
    requires SingleUse(c) && Shape(c, s) && Mail(c, s) && Single(s) && Enabled(c, s, l) && l.Call?
    ensures Single(Next(c, s, l))
  {
    var fl := s.flights[l.fid];
    if fl.pc.Republish? && l.fault != Refused {
      RepublishKeeps(c, s, l);
    } else {
      var (pc, tally) := Goto(c, fl, l.fault, l.exc);
      var s' := if l.fault == Refused then s else Effect(c, s, fl, l.now);
      SameQueuesKeeps(s.sv, s'.sv);
      assert Single(s');
      MoveKeepsSingle(c, s', l.fid, pc, tally);
    }
  }

  lemma ClientKeepsSingle(c: Config, s: State, m: TaskMessage, now: Time)
    requires Shape(c, s) && Mail(c, s) && Single(s) && Enabled(c, s, ClientPublish(m, now))
    ensures Single(Next(c, s, ClientPublish(m, now)))
  {
    assert !Present(s.sv, m.id, 0);
    PublishPresent(s.sv, m, now, s.clock);
    PublishUnique(s.sv, m, now, s.clock);
    PublishChained(s.sv, m, now, s.clock);
  }

  lemma SingleKept(c: Config, s: State, l: Label)
    requires SingleUse(c) && Shape(c, s) && Mail(c, s) && Single(s) && Enabled(c, s, l)
    ensures Single(Next(c, s, l))
  {
    match l
    case ClientPublish(m, now) => ClientKeepsSingle(c, s, m, now);
    case PromoteOne(m, _) =>
      PromoteKeeps(s.sv, m, s.clock);
      PromotePresent(s.sv, m, s.clock);
    case Deliver(w) => ReadKeeps(c, s, w);
    case Call(_, _, _, _) => CallKeepsSingle(c, s, l);
    case Cleanup(w) => SameQueuesKeeps(s.sv, DelConsumer(s.sv, w));
    case Acquire(fid) =>
      MoveKeepsSingle(c, s, fid, if s.flights[fid].msg.name in c.tasks then SetStarted else StoreFailure, Outside);
    case Finish(fid, body, u) =>
      var (pc, tally) := AfterBody(c, s.flights[fid], body, u);
      var s' := if body == Returned then s.(completed := s.completed + {s.flights[fid].msg.id}) else s;
      MoveKeepsSingle(c, s', fid, pc, tally);
    case Handle(fid, now, u) =>
      MoveKeepsSingle(c, s, fid, Decide(c, s.flights[fid], now, u), s.flights[fid].tally);
    case Kill(fid) =>
      MoveKeepsSingle(c, s, fid, Done, Halted(s.flights[fid].tally));
    case Tick(_) | Poll(_) | Snapshot(_) =>
    case ClaimStale(_, _) =>
    case ReplayDlq(_, _) =>
  }

  lemma {:induction false} RunKeepsSingle(c: Config, ls: seq<Label>)
    requires SingleUse(c) && Admissible(c, INIT, ls)
    ensures Single(Run(c, INIT, ls))
  {
    if ls != [] {
      var before := ls[..|ls| - 1];
      RunKeepsSingle(c, before);
      RunKeepsMail(c, before);
      SingleKept(c, Run(c, INIT, before), ls[|ls| - 1]);
    }
  }

  /** With an at-most-once broker and no way back from the dead letters, no attempt is ever
      executed twice, whatever the interleaving, the failures and the crashes. */
  lemma NoAttemptTwice(c: Config, s: State)
    requires SingleUse(c) && Reachable(c, s)
    ensures NoneTwice(s)
  {
    var ls :| Admissible(c, INIT, ls) && Run(c, INIT, ls) == s;
    RunKeepsSingle(c, ls);
    RunKeepsMail(c, ls);
    assert forall f :: 0 <= f < |s.flights| ==> Aboard(s.sv, s.flights[f]);
  }

  // ---- How often one task is executed ----

  function Executions(fs: seq<Flight>, id: TaskId): nat {
    if fs == [] then 0
    else Executions(fs[..|fs| - 1], id) + if Executed(fs[|fs| - 1]) && fs[|fs| - 1].msg.id == id then 1 else 0
  }

  ghost function AttemptsMade(fs: seq<Flight>, id: TaskId): set<nat> {
    set f | 0 <= f < |fs| && Executed(fs[f]) && fs[f].msg.id == id :: fs[f].msg.retries
  }

  lemma LastAttempt(fs: seq<Flight>, id: TaskId)
    requires fs != []
    requires forall f, g :: 0 <= f < g < |fs| && Executed(fs[f]) && Executed(fs[g]) ==>
              !SameAttempt(fs[f].msg, fs[g].msg)
    ensures var front, last := AttemptsMade(fs[..|fs| - 1], id), fs[|fs| - 1];
            if Executed(last) && last.msg.id == id then
              AttemptsMade(fs, id) == front + {last.msg.retries} && last.msg.retries !in front
            else AttemptsMade(fs, id) == front
  {
    var front, last := fs[..|fs| - 1], fs[|fs| - 1];
    forall r | r in AttemptsMade(fs, id)
      ensures r in AttemptsMade(front, id) || (Executed(last) && last.msg.id == id && r == last.msg.retries)
    {
      var f :| 0 <= f < |fs| && Executed(fs[f]) && fs[f].msg.id == id && fs[f].msg.retries == r;
      assert f < |front| ==> front[f] == fs[f];
    }
  }

  lemma {:induction false} DistinctAttempts(fs: seq<Flight>, id: TaskId)
    requires forall f, g :: 0 <= f < g < |fs| && Executed(fs[f]) && Executed(fs[g]) ==>
              !SameAttempt(fs[f].msg, fs[g].msg)
    ensures Executions(fs, id) == |AttemptsMade(fs, id)|
  {
    if fs != [] {
      var front, last := fs[..|fs| - 1], fs[|fs| - 1];
      DistinctAttempts(front, id);
      LastAttempt(fs, id);
    }
  }

  lemma {:induction false} BoundedSet(xs: set<nat>, n: nat)
    requires forall x :: x in xs ==> x < n
    ensures |xs| <= n
  {
    if n > 0 {
      BoundedSet(xs - {n - 1}, n - 1);
    } else {
      assert xs == {};
    }
  }

  /** A task is executed at most once and then once per retry it is allowed. */
  lemma ExecutionsBounded(c: Config, s: State, id: TaskId)
    requires SingleUse(c) && Reachable(c, s) && id in s.published
    ensures Executions(s.flights, id) <= c.MaxRetriesOf(s.published[id].name) + 1
  {
    NoAttemptTwice(c, s);
    DistinctAttempts(s.flights, id);
    forall f | 0 <= f < |s.flights| && s.flights[f].msg.id == id
      ensures s.flights[f].msg.retries < c.MaxRetriesOf(s.published[id].name) + 1
    {
      HeldIsGenuine(c, s, s.flights[f].msg);
    }
    BoundedSet(AttemptsMade(s.flights, id), c.MaxRetriesOf(s.published[id].name) + 1);
  }

  // ---- The setting is exact ----

  /** One call that succeeds, seen from outside. */
  lemma FineStep(c: Config, s: State, fid: nat) returns (s': State)
    requires Reachable(c, s) && s.clock >= 0.0 && fid < |s.flights|
    requires s.flights[fid].pc == SetStarted || s.flights[fid].pc == EarlyAck
    ensures Reachable(c, s')
    ensures s' == s.(sv := s'.sv, flights := s'.flights, workers := s'.workers)
    ensures s'.sv == s.sv.(pel := s'.sv.pel) && (c.broker == AtMostOnce ==> s'.sv == s.sv)
    ensures s'.workers.Keys == s.workers.Keys + {s.flights[fid].worker}
    ensures var (pc, tally) := Goto(c, s.flights[fid], Fine, Exactness.ERROR);
            s'.flights == s.flights[fid := s.flights[fid].(pc := pc, tally := tally)]
  {
    s' := Exactness.Take(c, s, Exactness.FineAt(fid));
  }

  /** From its first call, a flight reaches the task body if nothing fails. */
  lemma StartBody(c: Config, s: State, fid: nat) returns (s': State)
    requires Reachable(c, s) && At(s, fid, SetStarted) && s.clock >= 0.0
    ensures Reachable(c, s')
    ensures s' == s.(sv := s'.sv, flights := s'.flights, workers := s'.workers)
    ensures s'.sv == s.sv.(pel := s'.sv.pel) && (c.broker == AtMostOnce ==> s'.sv == s.sv)
    ensures s'.workers.Keys == s.workers.Keys + {s.flights[fid].worker}
    ensures s'.flights == s.flights[fid := s.flights[fid].(pc := Execute, tally := InTry)]
  {
    s' := FineStep(c, s, fid);
    if s'.flights[fid].pc == EarlyAck {
      s' := FineStep(c, s', fid);
    }
  }

  lemma TwiceSeen(s: State)
    requires |s.flights| == 2 && Executed(s.flights[0]) && Executed(s.flights[1])
    requires SameAttempt(s.flights[0].msg, s.flights[1].msg)
    ensures !NoneTwice(s)
  {}

  /** A stale entry can be claimed while its first reader still works on it. */
  lemma ClaimRepeats(c: Config, name: string)
    requires c.broker == AtLeastOnce && name in c.tasks && c.concurrency > 0
    ensures exists s :: Reachable(c, s) && !NoneTwice(s)
  {
    var s := Exactness.ReachStarting(c, name);
    s := ClaimedAgain(c, s, name);
    s := StartBody(c, s, 0);
    s := StartBody(c, s, 1);
    TwiceSeen(s);
  }

  /** Another worker claims the entry and gets as far as the first. */
  lemma ClaimedAgain(c: Config, s: State, name: string) returns (s': State)
    requires c.broker == AtLeastOnce && name in c.tasks && c.concurrency > 0
    requires Reachable(c, s) && Exactness.Standing(s, name, SetStarted)
    ensures Reachable(c, s') && s'.clock >= 0.0 && |s'.flights| == 2
    ensures At(s', 0, SetStarted) && At(s', 1, SetStarted) && s'.flights[0].msg == s'.flights[1].msg
  {
    s' := Exactness.Take(c, s, Tick(Max(c.claimMinIdle, 0.0)));
    s' := Exactness.Take(c, s', ClaimStale(1, 0));
    s' := Exactness.Take(c, s', Acquire(1));
  }

  lemma ReachDeadLetter(c: Config, name: string) returns (s: State)
    requires name in c.tasks && c.concurrency > 0 && c.useDlq && c.broker == AtMostOnce
    ensures Reachable(c, s) && s.clock == 0.0 && s.condemned == {} && s.workers.Keys == {0}
    ensures |s.flights| == 1 && Executed(s.flights[0]) && s.flights[0].msg == Exactness.Sample(name)
    ensures |s.sv.stream| == s.sv.cursor == 1 && |s.sv.dlq| == 1 && s.sv.dlq[0].data == Exactness.Sample(name)
  {
    s := Exactness.ReachStarting(c, name);
    s := StartBody(c, s, 0);
    s := Exactness.FailBody(c, s, name);
    s := Exactness.RecordFailure(c, s, name);
    s := DeadLetterSample(c, s, name);
  }

  lemma DeadLetterSample(c: Config, s: State, name: string) returns (s': State)
    requires Reachable(c, s) && Exactness.Standing(s, name, MoveDlq) && s.flights[0].tally == Tally.Failed
    requires c.useDlq && c.broker == AtMostOnce
    ensures Reachable(c, s') && s'.clock == 0.0 && s'.condemned == {} && s'.workers.Keys == {0}
    ensures |s'.flights| == 1 && Executed(s'.flights[0]) && s'.flights[0].msg == Exactness.Sample(name)
    ensures |s'.sv.stream| == s'.sv.cursor == 1 && |s'.sv.dlq| == 1 && s'.sv.dlq[0].data == Exactness.Sample(name)
  {
    s' := Exactness.Take(c, s, Exactness.FineAt(0));
  }

  /** A dead letter replayed with its retry count is executed as the same attempt again. */
  lemma ReplayRepeats(c: Config, name: string)
    requires name in c.tasks && c.concurrency > 0 && c.replays && c.useDlq && c.broker == AtMostOnce
    ensures exists s :: Reachable(c, s) && !NoneTwice(s)
  {
    var s := ReachDeadLetter(c, name);
    s := Exactness.Take(c, s, ReplayDlq(0, false));
    s := Exactness.Take(c, s, Deliver(1));
    s := Exactness.Take(c, s, Acquire(1));
    s := StartBody(c, s, 1);
    TwiceSeen(s);
  }

  /** Executions are never repeated exactly when the broker is in at-most-once mode and dead
      letters, if there are any, are not replayed. */
  lemma NoAttemptTwiceExactly(c: Config)
    requires c.concurrency > 0 && c.tasks != map[]
    ensures (forall s :: Reachable(c, s) ==> NoneTwice(s)) <==> SingleUse(c)
  {
    if SingleUse(c) {
      forall s | Reachable(c, s)
        ensures NoneTwice(s)
      {
        NoAttemptTwice(c, s);
      }
    } else {
      var name :| name in c.tasks;
      if c.broker == AtLeastOnce {
        ClaimRepeats(c, name);
      } else {
        ReplayRepeats(c, name);
      }
    }
  }
}
