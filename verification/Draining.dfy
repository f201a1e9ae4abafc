/** Work drains: once nothing new comes in, only finitely many working steps are left, however much
    time passes between them, and their number is bounded before the first of them. */
module Draining {
  import opened Types
  import opened Context
  import opened RedisServer
  import opened Protocol
  import opened Invariants
  import opened Accounting

  /** Steps that do work. Failing calls and cancellations are among them. */
  predicate Drains(l: Label) {
    Forward(l) || l.Kill?
  }

  function Remaining(c: Config, m: TaskMessage): nat {
    if m.retries < c.MaxRetriesOf(m.name) then c.MaxRetriesOf(m.name) - m.retries else 0
  }

  /** Steps a flight may still take itself. */
  function Rank(pc: Pc): nat {
    match pc
    case Waiting => 13
    case SetStarted => 12
    case EarlyAck => 11
    case Execute => 10
    case StoreSuccess => 9
    case AckSuccess => 8
    case Handling(_) => 7
    case Retrying(_) => 7
    case SetRetry(_) => 6
    case Republish(_) => 5
    case AckRetry => 1
    case StoreFailure => 3
    case MoveDlq => 2
    case Finalize => 1
    case Done => 0
  }

  const LINK := 15

  /** A scheduled message is worth one promotion more than a stream entry, which is worth one
      delivery more than a waiting flight; every remaining retry is worth a whole link. */
  function FlightWorth(c: Config, fl: Flight): nat {
    Rank(fl.pc) + if PrePublish(fl.pc) then LINK * Remaining(c, fl.msg) else 0
  }

  function EntryWorth(c: Config, m: TaskMessage): nat {
    14 + LINK * Remaining(c, m)
  }

  function ScheduledWorth(c: Config, m: TaskMessage): nat {
    LINK + LINK * Remaining(c, m)
  }

  function FlightsWorth(c: Config, fs: seq<Flight>): nat {
    if fs == [] then 0 else FlightsWorth(c, fs[..|fs| - 1]) + FlightWorth(c, fs[|fs| - 1])
  }

  function EntriesWorth(c: Config, es: seq<Entry>): nat {
    if es == [] then 0 else EntriesWorth(c, es[..|es| - 1]) + EntryWorth(c, es[|es| - 1].msg)
  }

  ghost function SetWorth(c: Config, ms: set<TaskMessage>): nat {
    if ms == {} then 0
    else var m :| m in ms; ScheduledWorth(c, m) + SetWorth(c, ms - {m})
  }

  ghost function Worth(c: Config, s: State): nat
    requires s.sv.cursor <= |s.sv.stream|
  {
    SetWorth(c, s.sv.delayed) + EntriesWorth(c, s.sv.stream[s.sv.cursor..]) + FlightsWorth(c, s.flights)
  }

  lemma {:induction false} SetWorthRemove(c: Config, ms: set<TaskMessage>, m: TaskMessage)
    requires m in ms
    ensures SetWorth(c, ms) == ScheduledWorth(c, m) + SetWorth(c, ms - {m})
    decreases |ms|
  {
    var n :| n in ms && SetWorth(c, ms) == ScheduledWorth(c, n) + SetWorth(c, ms - {n});
    if n != m {
      SetWorthRemove(c, ms - {n}, m);
      SetWorthRemove(c, ms - {m}, n);
      assert ms - {n} - {m} == ms - {m} - {n};
    }
  }

  lemma SetWorthAdd(c: Config, ms: set<TaskMessage>, m: TaskMessage)
    ensures SetWorth(c, ms + {m}) <= SetWorth(c, ms) + ScheduledWorth(c, m)
  {
    if m in ms {
      assert ms + {m} == ms;
    } else {
      SetWorthRemove(c, ms + {m}, m);
      assert ms + {m} - {m} == ms;
    }
  }

  lemma EntriesAppend(c: Config, es: seq<Entry>, e: Entry)
    ensures EntriesWorth(c, es + [e]) == EntriesWorth(c, es) + EntryWorth(c, e.msg)
  {
    assert (es + [e])[..|es|] == es;
  }

  lemma {:induction false} EntriesHead(c: Config, es: seq<Entry>)
    requires es != []
    ensures EntriesWorth(c, es) == EntryWorth(c, es[0].msg) + EntriesWorth(c, es[1..])
  {
    if |es| > 1 {
      var front := es[..|es| - 1];
      EntriesHead(c, front);
      assert es[1..][..|es| - 2] == front[1..];
    } else {
      assert es[..0] == [] && es[1..] == [];
    }
  }

  lemma {:induction false} FlightsUpdate(c: Config, fs: seq<Flight>, i: nat, fl: Flight)
    requires i < |fs|
    ensures FlightsWorth(c, fs[i := fl]) + FlightWorth(c, fs[i]) == FlightsWorth(c, fs) + FlightWorth(c, fl)
  {
    var front := fs[..|fs| - 1];
    if i == |fs| - 1 {
      assert fs[i := fl][..|fs| - 1] == front;
    } else {
      FlightsUpdate(c, front, i, fl);
      assert fs[i := fl][..|fs| - 1] == front[i := fl];
    }
  }

  lemma FlightsAppend(c: Config, fs: seq<Flight>, fl: Flight)
    ensures FlightsWorth(c, fs + [fl]) == FlightsWorth(c, fs) + FlightWorth(c, fl)
  {
    assert (fs + [fl])[..|fs|] == fs;
  }

  /** Appending to the stream adds the entry's worth, whatever was delivered before. */
  lemma XaddWorth(c: Config, sv: Server, m: TaskMessage, at: Time)
    requires sv.cursor <= |sv.stream|
    ensures EntriesWorth(c, Xadd(sv, m, at).stream[sv.cursor..])
            == EntriesWorth(c, sv.stream[sv.cursor..]) + EntryWorth(c, m)
  {
    EntriesAppend(c, sv.stream[sv.cursor..], Entry(m, at));
    assert Xadd(sv, m, at).stream[sv.cursor..] == sv.stream[sv.cursor..] + [Entry(m, at)];
  }

  lemma PublishWorth(c: Config, s: State, m: TaskMessage, now: Time)
    requires s.sv.cursor <= |s.sv.stream|
    ensures Worth(c, s.(sv := Publish(s.sv, m, now, s.clock))) <= Worth(c, s) + ScheduledWorth(c, m)
  {
    if Later(m, now) {
      SetWorthAdd(c, s.sv.delayed, m);
    } else {
      XaddWorth(c, s.sv, m, s.clock);
    }
  }

  lemma MoveWorth(c: Config, s: State, fid: nat, pc: Pc, tally: Tally)
    requires s.sv.cursor <= |s.sv.stream| && fid < |s.flights|
    ensures var fl := s.flights[fid];
            Worth(c, Move(c, s, fid, pc, tally)) + FlightWorth(c, fl)
            == Worth(c, s) + FlightWorth(c, fl.(pc := pc, tally := tally))
  {
    FlightsUpdate(c, s.flights, fid, s.flights[fid].(pc := pc, tally := tally));
  }

  lemma PromoteDrains(c: Config, s: State, m: TaskMessage, now: Time)
    requires s.sv.cursor <= |s.sv.stream| && Enabled(c, s, PromoteOne(m, now))
    ensures Worth(c, Next(c, s, PromoteOne(m, now))) < Worth(c, s)
  {
    XaddWorth(c, s.sv, m, s.clock);
    SetWorthRemove(c, s.sv.delayed, m);
  }

  lemma DeliverDrains(c: Config, s: State, w: WorkerId)
    requires s.sv.cursor <= |s.sv.stream| && Enabled(c, s, Deliver(w))
    ensures Worth(c, Next(c, s, Deliver(w))) < Worth(c, s)
  {
    var e := s.sv.stream[s.sv.cursor];
    EntriesHead(c, s.sv.stream[s.sv.cursor..]);
    assert s.sv.stream[s.sv.cursor..][1..] == s.sv.stream[s.sv.cursor + 1..];
    FlightsAppend(c, s.flights, Flight(w, s.sv.cursor, e.msg, Waiting, Outside));
  }

  /** Every move of a flight lowers its own worth. */
  lemma GotoDescends(c: Config, fl: Flight, fault: Fault, exc: Exc)
    requires IsCall(fl.pc)
    ensures var (pc, tally) := Goto(c, fl, fault, exc);
            && Rank(pc) < Rank(fl.pc) && (PrePublish(pc) ==> PrePublish(fl.pc))
            && (fl.pc.Republish? ==> !PrePublish(pc) && Rank(pc) <= 1)
  {}

  lemma Descends(c: Config, fl: Flight, pc: Pc, tally: Tally)
    requires Rank(pc) < Rank(fl.pc) && (PrePublish(pc) ==> PrePublish(fl.pc))
    ensures FlightWorth(c, fl.(pc := pc, tally := tally)) < FlightWorth(c, fl)
  {}

  /** Only a republish makes the broker's queues longer. */
  lemma EffectQueues(c: Config, sv: Server, clock: Time, fl: Flight, now: Time)
    requires !fl.pc.Republish?
    ensures var sv' := ServerEffect(c, sv, clock, fl, now);
            sv'.stream == sv.stream && sv'.cursor == sv.cursor && sv'.delayed == sv.delayed
  {}

  /** A retry is paid for by the link that the publishing flight gives up. */
  lemma RepublishPaid(c: Config, s: State, fid: nat, now: Time)
    requires Shape(c, s) && Mail(c, s) && fid < |s.flights| && s.flights[fid].pc.Republish?
    ensures Worth(c, Effect(c, s, s.flights[fid], now)) <= Worth(c, s) + LINK * Remaining(c, s.flights[fid].msg)
  {
    var fl := s.flights[fid];
    var next := fl.pc.next;
    assert LinkOk(c, s.published, s.clock, fl) && Aboard(s.sv, fl);
    assert Genuine(c, s.published, s.clock, next) && Genuine(c, s.published, s.clock, fl.msg);
    assert Remaining(c, fl.msg) == Remaining(c, next) + 1;
    PublishWorth(c, s, next, now);
  }

  lemma CallDrains(c: Config, s: State, l: Label)
    requires Shape(c, s) && Mail(c, s) && Enabled(c, s, l) && l.Call?
    ensures Next(c, s, l).sv.cursor <= |Next(c, s, l).sv.stream|
    ensures Worth(c, Next(c, s, l)) < Worth(c, s)
  {
    var fl := s.flights[l.fid];
    var (pc, tally) := Goto(c, fl, l.fault, l.exc);
    var s' := if l.fault == Refused then s else Effect(c, s, fl, l.now);
    GotoDescends(c, fl, l.fault, l.exc);
    Descends(c, fl, pc, tally);
    EffectGrows(c, s.sv, s.condemned, s.clock, fl, l.now);
    MoveWorth(c, s', l.fid, pc, tally);
    if fl.pc.Republish? {
      RepublishPaid(c, s, l.fid, l.now);
    } else {
      EffectQueues(c, s.sv, s.clock, fl, l.now);
    }
  }

  lemma LocalDrains(c: Config, s: State, l: Label)
    requires s.sv.cursor <= |s.sv.stream| && Enabled(c, s, l)
    requires l.Acquire? || l.Handle? || l.Kill?
    ensures Next(c, s, l).sv == s.sv && Worth(c, Next(c, s, l)) < Worth(c, s)
  {
    var fl := s.flights[l.fid];
    var fl' := Next(c, s, l).flights[l.fid];
    Descends(c, fl, fl'.pc, fl'.tally);
    MoveWorth(c, s, l.fid, fl'.pc, fl'.tally);
  }

  lemma FinishDrains(c: Config, s: State, l: Label)
    requires s.sv.cursor <= |s.sv.stream| && Enabled(c, s, l) && l.Finish?
    ensures Next(c, s, l).sv == s.sv && Worth(c, Next(c, s, l)) < Worth(c, s)
  {
    var fl := s.flights[l.fid];
    var (pc, tally) := AfterBody(c, fl, l.body, l.u);
    Descends(c, fl, pc, tally);
    MoveWorth(c, if l.body == Returned then s.(completed := s.completed + {fl.msg.id}) else s, l.fid, pc, tally);
  }

  lemma StepDrains(c: Config, s: State, l: Label)
    requires Shape(c, s) && Mail(c, s) && Enabled(c, s, l) && Drains(l)
    ensures Next(c, s, l).sv.cursor <= |Next(c, s, l).sv.stream|
    ensures Worth(c, Next(c, s, l)) < Worth(c, s)
  {
    match l
    case PromoteOne(m, now) => PromoteDrains(c, s, m, now);
    case Deliver(w) => DeliverDrains(c, s, w);
    case Call(_, _, _, _) => CallDrains(c, s, l);
    case Finish(_, _, _) => FinishDrains(c, s, l);
    case Acquire(_) | Handle(_, _, _) | Kill(_) => LocalDrains(c, s, l);
  }

  /** Steps that bring no work and do none: time passes, consumers poll, a cleanup pass looks and
      deletes. */
  predicate Idles(l: Label) {
    l.Tick? || l.Poll? || l.Snapshot? || l.Cleanup?
  }

  /** Nothing is published by clients, claimed or replayed. */
  ghost predicate NothingNew(ls: seq<Label>) {
    forall l :: l in ls ==> Drains(l) || Idles(l)
  }

  function WorkSteps(ls: seq<Label>): nat {
    if ls == [] then 0 else WorkSteps(ls[..|ls| - 1]) + if Drains(ls[|ls| - 1]) then 1 else 0
  }

  lemma IdleKeepsWorth(c: Config, s: State, l: Label)
    requires s.sv.cursor <= |s.sv.stream| && Enabled(c, s, l) && Idles(l)
    ensures Next(c, s, l).sv.cursor <= |Next(c, s, l).sv.stream|
    ensures Worth(c, Next(c, s, l)) == Worth(c, s)
  {}

  /** In a run without new work, the steps that do work and the worth that is left together do not
      exceed the worth at its start, whatever time passes between the steps. */
  lemma {:induction false} DrainingIsFinite(c: Config, s: State, ls: seq<Label>)
    requires Shape(c, s) && Mail(c, s) && Admissible(c, s, ls) && NothingNew(ls)
    ensures Shape(c, Run(c, s, ls)) && Mail(c, Run(c, s, ls))
    ensures WorkSteps(ls) + Worth(c, Run(c, s, ls)) <= Worth(c, s)
  {
    if ls != [] {
      var before, l := ls[..|ls| - 1], ls[|ls| - 1];
      DrainingIsFinite(c, s, before);
      var s' := Run(c, s, before);
      if Drains(l) {
        StepDrains(c, s', l);
      } else {
        IdleKeepsWorth(c, s', l);
      }
      ShapeKept(c, s', l);
      MailKept(c, s', l);
    }
  }

  /** From every reachable state. */
  lemma DrainingTerminates(c: Config, s: State, ls: seq<Label>)
    requires Reachable(c, s) && Admissible(c, s, ls) && NothingNew(ls)
    ensures Shape(c, s) && WorkSteps(ls) <= Worth(c, s)
  {
    ReachableMail(c, s);
    DrainingIsFinite(c, s, ls);
  }

  lemma {:induction false} FinishedFlightsWorthless(c: Config, fs: seq<Flight>)
    requires forall f :: 0 <= f < |fs| ==> !Active(fs[f])
    ensures FlightsWorth(c, fs) == 0
  {
    if fs != [] {
      FinishedFlightsWorthless(c, fs[..|fs| - 1]);
    }
  }

  lemma NoWorkNoWorth(c: Config, s: State)
    requires s.sv.cursor <= |s.sv.stream| && !Busy(s)
    ensures Worth(c, s) == 0
  {
    FinishedFlightsWorthless(c, s.flights);
    assert s.sv.stream[s.sv.cursor..] == [];
  }

  /** A task published while there is no other work takes at most 15 working steps for its first
      attempt and 15 for every retry it is allowed, all delays included. */
  lemma OneTaskBound(c: Config, s: State, m: TaskMessage, now: Time, ls: seq<Label>)
    requires Reachable(c, s) && !Busy(s) && Enabled(c, s, ClientPublish(m, now))
    requires Admissible(c, Next(c, s, ClientPublish(m, now)), ls) && NothingNew(ls)
    ensures WorkSteps(ls) <= LINK * (c.MaxRetriesOf(m.name) + 1)
  {
    ReachableMail(c, s);
    NoWorkNoWorth(c, s);
    StepReachable(c, s, ClientPublish(m, now));
    DrainingTerminates(c, Next(c, s, ClientPublish(m, now)), ls);
    PublishWorth(c, s, m, now);
  }

  // ---- The work gets done ----

  predicate Progress(l: Label) {
    Forward(l) || l.Tick?
  }

  /** Progress leaves the readers as they are. */
  lemma ProgressKeepsReaders(c: Config, s: State, l: Label, reader: WorkerId)
    requires Enabled(c, s, l) && Progress(l)
    ensures MayRead(c, Next(c, s, l), reader) <==> MayRead(c, s, reader)
  {}

  lemma {:induction false} Prepend(c: Config, s: State, l: Label, ls: seq<Label>)
    requires Enabled(c, s, l) && Admissible(c, Next(c, s, l), ls)
    ensures Admissible(c, s, [l] + ls) && Run(c, s, [l] + ls) == Run(c, Next(c, s, l), ls)
  {
    if ls == [] {
      Extend(c, s, [], l);
      assert [] + [l] == [l] && [l] + [] == [l];
    } else {
      var front, last := ls[..|ls| - 1], ls[|ls| - 1];
      Prepend(c, s, l, front);
      Extend(c, s, [l] + front, last);
      assert [l] + ls == [l] + front + [last];
    }
  }

  /** From every reachable state, and so at any point of any run, all work can still get done, as
      long as one worker may read: then nothing is delayed, undelivered or in any worker. */
  lemma WorkGetsDone(c: Config, s: State, reader: WorkerId) returns (ls: seq<Label>)
    requires Reachable(c, s) && c.concurrency > 0 && MayRead(c, s, reader)
    ensures Admissible(c, s, ls) && !Busy(Run(c, s, ls)) && forall l :: l in ls ==> Progress(l)
  {
    ReachableMail(c, s);
    ls := DrainFrom(c, s, reader);
  }

  lemma {:induction false} DrainFrom(c: Config, s: State, reader: WorkerId) returns (ls: seq<Label>)
    requires Reachable(c, s) && Shape(c, s) && c.concurrency > 0 && MayRead(c, s, reader)
    ensures Admissible(c, s, ls) && !Busy(Run(c, s, ls)) && forall l :: l in ls ==> Progress(l)
    decreases Worth(c, s), 1
  {
    if !Busy(s) {
      return [];
    }
    var l := NoDeadlock(c, s, reader);
    if Forward(l) {
      ls := DrainAfter(c, s, l, reader);
    } else {
      var m :| m in s.sv.delayed && Enabled(c, Next(c, s, l), PromoteOne(m, s.clock + l.dt));
      var s' := Next(c, s, l);
      StepReachable(c, s, l);
      ReachableMail(c, s');
      IdleKeepsWorth(c, s, l);
      ls := DrainAfter(c, s', PromoteOne(m, s.clock + l.dt), reader);
      Prepend(c, s, l, ls);
      ls := [l] + ls;
    }
  }

  lemma {:induction false} DrainAfter(c: Config, s: State, l: Label, reader: WorkerId) returns (ls: seq<Label>)
    requires Reachable(c, s) && Shape(c, s) && c.concurrency > 0 && MayRead(c, s, reader)
    requires Enabled(c, s, l) && Forward(l)
    ensures Admissible(c, s, ls) && !Busy(Run(c, s, ls)) && forall l :: l in ls ==> Progress(l)
    decreases Worth(c, s), 0
  {
    ReachableMail(c, s);
    StepDrains(c, s, l);
    StepReachable(c, s, l);
    ReachableMail(c, Next(c, s, l));
    ProgressKeepsReaders(c, s, l, reader);
    ls := DrainFrom(c, Next(c, s, l), reader);
    Prepend(c, s, l, ls);
    ls := [l] + ls;
  }
}
