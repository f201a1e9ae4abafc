/** A worker's books: its semaphore, its counters, and that it never gets stuck. */
module Accounting {
  import opened Types
  import opened Context
  import opened Protocol
  import opened Invariants

  function Count(fs: seq<Flight>, p: Flight -> bool): nat {
    if fs == [] then 0 else Count(fs[..|fs| - 1], p) + if p(fs[|fs| - 1]) then 1 else 0
  }

  /** Envelopes of worker w past the semaphore and not finished. */
  function Holds(w: WorkerId): Flight -> bool {
    (fl: Flight) => fl.worker == w && fl.pc != Waiting && fl.pc != Done
  }

  function Tallied(w: WorkerId, t: Tally): Flight -> bool {
    (fl: Flight) => fl.worker == w && fl.tally == t
  }

  /** Envelopes of worker w that entered the execution block. */
  function Entered(w: WorkerId): Flight -> bool {
    (fl: Flight) => fl.worker == w && fl.tally != Outside
  }

  lemma {:induction false} CountUpdate(fs: seq<Flight>, i: nat, fl: Flight, p: Flight -> bool)
    requires i < |fs|
    ensures Count(fs[i := fl], p) == Count(fs, p) - (if p(fs[i]) then 1 else 0) + (if p(fl) then 1 else 0)
  {
    var front := fs[..|fs| - 1];
    if i == |fs| - 1 {
      assert fs[i := fl][..|fs| - 1] == front;
    } else {
      CountUpdate(front, i, fl, p);
      assert fs[i := fl][..|fs| - 1] == front[i := fl];
    }
  }

  lemma CountAppend(fs: seq<Flight>, fl: Flight, p: Flight -> bool)
    ensures Count(fs + [fl], p) == Count(fs, p) + if p(fl) then 1 else 0
  {
    assert (fs + [fl])[..|fs|] == fs;
  }

  lemma {:induction false} CountPositive(fs: seq<Flight>, p: Flight -> bool)
    ensures Count(fs, p) > 0 <==> exists f :: 0 <= f < |fs| && p(fs[f])
  {
    if fs != [] {
      var front := fs[..|fs| - 1];
      CountPositive(front, p);
      if f :| 0 <= f < |front| && p(front[f]) {
        assert p(fs[f]);
      }
    }
  }

  lemma {:induction false} TalliesAddUp(fs: seq<Flight>, w: WorkerId)
    ensures Count(fs, Entered(w)) == Count(fs, Tallied(w, InTry)) + Count(fs, Tallied(w, Processed))
                                     + Count(fs, Tallied(w, Failed)) + Count(fs, Tallied(w, Cancelled))
  {
    if fs != [] {
      TalliesAddUp(fs[..|fs| - 1], w);
    }
  }

  /** The counters agree with the flights, for every worker. */
  ghost predicate Balanced(c: Config, s: State, w: WorkerId) {
    var ws := WorkerOf(c, s, w);
    && ws.permits >= 0
    && ws.permits + Count(s.flights, Holds(w)) == c.concurrency
    && ws.processed == Count(s.flights, Tallied(w, Processed))
    && ws.failed == Count(s.flights, Tallied(w, Failed))
  }

  predicate InTryBlock(pc: Pc) {
    pc == Execute || pc == StoreSuccess || pc == AckSuccess
  }

  /** The tally tells where the flight stands: before, inside or past the execution block. */
  predicate Consistent(fl: Flight) {
    && (fl.tally == InTry <==> InTryBlock(fl.pc))
    && (fl.pc == Waiting || fl.pc == SetStarted || fl.pc == EarlyAck ==> fl.tally == Outside)
    && (fl.tally == Processed || fl.tally == Cancelled ==> fl.pc == Done)
    && (PrePublish(fl.pc) && fl.tally == Outside ==> fl.pc == Waiting || fl.pc == SetStarted || fl.pc == EarlyAck)
  }

  ghost predicate Books(c: Config, s: State) {
    && (forall w: WorkerId :: Balanced(c, s, w))
    && (forall f :: 0 <= f < |s.flights| ==> Consistent(s.flights[f]))
  }

  /** A move is regular if it takes a permit or returns one exactly when the source does, and if
      its tally changes once, out of the execution block. */
  predicate Regular(fl: Flight, pc: Pc, tally: Tally) {
    && fl.pc != Done && pc != Waiting
    && (tally != fl.tally ==> tally != Outside && (fl.tally == Outside || fl.tally == InTry))
  }

  lemma MoveBalanced(c: Config, s: State, fid: nat, pc: Pc, tally: Tally, w: WorkerId)
    requires fid < |s.flights| && Balanced(c, s, w) && Regular(s.flights[fid], pc, tally)
    requires s.flights[fid].pc == Waiting && pc != Done ==> WorkerOf(c, s, s.flights[fid].worker).permits > 0
    ensures Balanced(c, Move(c, s, fid, pc, tally), w)
  {
    var fl := s.flights[fid];
    var fl' := fl.(pc := pc, tally := tally);
    CountUpdate(s.flights, fid, fl', Holds(w));
    CountUpdate(s.flights, fid, fl', Tallied(w, Processed));
    CountUpdate(s.flights, fid, fl', Tallied(w, Failed));
  }

  lemma MoveKeepsBooks(c: Config, s: State, fid: nat, pc: Pc, tally: Tally)
    requires fid < |s.flights| && Books(c, s) && Regular(s.flights[fid], pc, tally)
    requires s.flights[fid].pc == Waiting && pc != Done ==> WorkerOf(c, s, s.flights[fid].worker).permits > 0
    requires Consistent(s.flights[fid].(pc := pc, tally := tally))
    ensures Books(c, Move(c, s, fid, pc, tally))
  {
    forall w: WorkerId
      ensures Balanced(c, Move(c, s, fid, pc, tally), w)
    {
      MoveBalanced(c, s, fid, pc, tally, w);
    }
  }

  lemma LaunchKeepsBooks(c: Config, s: State, s': State, fl: Flight)
    requires Books(c, s) && fl.pc == Waiting && fl.tally == Outside
    requires s'.flights == s.flights + [fl] && s'.workers == s.workers
    ensures Books(c, s')
  {
    forall w: WorkerId
      ensures Balanced(c, s', w)
    {
      assert Balanced(c, s, w);
      CountAppend(s.flights, fl, Holds(w));
      CountAppend(s.flights, fl, Tallied(w, Processed));
      CountAppend(s.flights, fl, Tallied(w, Failed));
    }
  }

  lemma SameBooks(c: Config, s: State, s': State)
    requires Books(c, s) && s'.flights == s.flights && s'.workers == s.workers
    ensures Books(c, s')
  {
    assert forall w: WorkerId :: Balanced(c, s, w) ==> Balanced(c, s', w);
  }

  lemma CallKeepsBooks(c: Config, s: State, l: Label)
    requires Books(c, s) && Enabled(c, s, l) && l.Call?
    ensures Books(c, Next(c, s, l))
  {
    var fl := s.flights[l.fid];
    assert Consistent(fl);
    var (pc, tally) := Goto(c, fl, l.fault, l.exc);
    var s' := if l.fault == Refused then s else Effect(c, s, fl, l.now);
    SameBooks(c, s, s');
    MoveKeepsBooks(c, s', l.fid, pc, tally);
  }

  /** Steps inside a worker. */
  lemma LocalBooks(c: Config, s: State, l: Label)
    requires Books(c, s) && Enabled(c, s, l) && (l.Acquire? || l.Handle?)
    ensures Books(c, Next(c, s, l))
  {
    var fl, fl' := s.flights[l.fid], Next(c, s, l).flights[l.fid];
    assert Consistent(fl);
    MoveKeepsBooks(c, s, l.fid, fl'.pc, fl'.tally);
  }

  lemma KillBooks(c: Config, s: State, fid: nat)
    requires Books(c, s) && Enabled(c, s, Kill(fid))
    ensures Books(c, Next(c, s, Kill(fid)))
  {
    assert Consistent(s.flights[fid]);
    MoveKeepsBooks(c, s, fid, Done, Halted(s.flights[fid].tally));
  }

  lemma FinishBooks(c: Config, s: State, l: Label)
    requires Books(c, s) && Enabled(c, s, l) && l.Finish?
    ensures Books(c, Next(c, s, l))
  {
    assert Consistent(s.flights[l.fid]);
    var (pc, tally) := AfterBody(c, s.flights[l.fid], l.body, l.u);
    var s' := if l.body == Returned then s.(completed := s.completed + {s.flights[l.fid].msg.id}) else s;
    SameBooks(c, s, s');
    MoveKeepsBooks(c, s', l.fid, pc, tally);
  }

  lemma BooksKept(c: Config, s: State, l: Label)
    requires Books(c, s) && Enabled(c, s, l)
    ensures Books(c, Next(c, s, l))
  {
    match l
    case Call(_, _, _, _) => CallKeepsBooks(c, s, l);
    case Finish(_, _, _) => FinishBooks(c, s, l);
    case Acquire(_) | Handle(_, _, _) => LocalBooks(c, s, l);
    case Kill(fid) => KillBooks(c, s, fid);
    case Deliver(w) =>
      LaunchKeepsBooks(c, s, Next(c, s, l), Flight(w, s.sv.cursor, s.sv.stream[s.sv.cursor].msg, Waiting, Outside));
    case ClaimStale(w, tag) =>
      LaunchKeepsBooks(c, s, Next(c, s, l), Flight(w, tag, s.sv.stream[tag].msg, Waiting, Outside));
    case _ => SameBooks(c, s, Next(c, s, l));
  }

  lemma {:induction false} RunKeepsBooks(c: Config, ls: seq<Label>)
    requires Admissible(c, INIT, ls)
    ensures Books(c, Run(c, INIT, ls))
  {
    if ls == [] {
      assert forall w: WorkerId :: Balanced(c, INIT, w);
    } else {
      RunKeepsBooks(c, ls[..|ls| - 1]);
      BooksKept(c, Run(c, INIT, ls[..|ls| - 1]), ls[|ls| - 1]);
    }
  }

  lemma ReachableBooks(c: Config, s: State)
    requires Reachable(c, s)
    ensures Books(c, s)
  {
    var ls :| Admissible(c, INIT, ls) && Run(c, INIT, ls) == s;
    RunKeepsBooks(c, ls);
  }

  /** No worker ever has more envelopes past its semaphore than its concurrency, and every envelope
      that entered the execution block is running, processed, failed or cancelled, just once. */
  lemma ConcurrencyAndAccounting(c: Config, s: State, w: WorkerId)
    requires Reachable(c, s)
    ensures Count(s.flights, Holds(w)) <= c.concurrency
    ensures Count(s.flights, Entered(w)) ==
            Count(s.flights, Tallied(w, InTry)) + WorkerOf(c, s, w).processed + WorkerOf(c, s, w).failed
            + Count(s.flights, Tallied(w, Cancelled))
  {
    ReachableBooks(c, s);
    assert Balanced(c, s, w);
    TalliesAddUp(s.flights, w);
  }

  // ---- No deadlock ----

  predicate Active(fl: Flight) {
    fl.pc != Done
  }

  /** The work that is there: something scheduled, undelivered or in flight. */
  ghost predicate Busy(s: State) {
    || s.sv.delayed != {}
    || s.sv.cursor < |s.sv.stream|
    || exists f :: 0 <= f < |s.flights| && Active(s.flights[f])
  }

  /** A step that moves work forward, nobody being cancelled. */
  predicate Forward(l: Label) {
    l.PromoteOne? || l.Deliver? || l.Acquire? || l.Finish? || l.Call? || l.Handle?
  }

  lemma FlightCanMove(c: Config, s: State, fid: nat) returns (l: Label)
    requires s.clock >= 0.0 && fid < |s.flights| && s.flights[fid].pc != Waiting && s.flights[fid].pc != Done
    ensures Forward(l) && Enabled(c, s, l)
  {
    var pc := s.flights[fid].pc;
    l := if pc == Execute then Finish(fid, Returned, 0.0)
    else if pc.Handling? || pc.Retrying? then Handle(fid, s.clock, 0.0)
    else Call(fid, Fine, Exc("", "", ""), s.clock);
  }

  /** A flight that waits for the semaphore waits for another flight that can move. */
  lemma FlightsCanMove(c: Config, s: State, fid: nat) returns (l: Label)
    requires Books(c, s) && c.concurrency > 0 && s.clock >= 0.0
    requires fid < |s.flights| && Active(s.flights[fid])
    ensures Forward(l) && Enabled(c, s, l)
  {
    var w := s.flights[fid].worker;
    assert Balanced(c, s, w);
    if s.flights[fid].pc != Waiting {
      l := FlightCanMove(c, s, fid);
    } else if WorkerOf(c, s, w).permits > 0 {
      l := Acquire(fid);
    } else {
      CountPositive(s.flights, Holds(w));
      var g: nat :| g < |s.flights| && Holds(w)(s.flights[g]);
      l := FlightCanMove(c, s, g);
    }
  }

  /** While there is work, some worker that may read can move it, at once or, if all of it is
      scheduled for later, once the clock has reached the time. */
  lemma NoDeadlock(c: Config, s: State, reader: WorkerId) returns (l: Label)
    requires Reachable(c, s) && c.concurrency > 0 && MayRead(c, s, reader) && Busy(s)
    ensures Enabled(c, s, l)
    ensures || Forward(l)
            || (l.Tick? && exists m :: m in s.sv.delayed && Enabled(c, Next(c, s, l), PromoteOne(m, s.clock + l.dt)))
  {
    ReachableBooks(c, s);
    ReachableMail(c, s);
    if fid: nat :| fid < |s.flights| && Active(s.flights[fid]) {
      l := FlightsCanMove(c, s, fid);
    } else if s.sv.cursor < |s.sv.stream| {
      l := Deliver(reader);
    } else {
      l := WaitForNext(c, s);
    }
  }

  lemma WaitForNext(c: Config, s: State) returns (l: Label)
    requires Mail(c, s) && s.sv.delayed != {}
    ensures Enabled(c, s, l) && l.Tick?
    ensures exists m :: m in s.sv.delayed && Enabled(c, Next(c, s, l), PromoteOne(m, s.clock + l.dt))
  {
    var m :| m in s.sv.delayed;
    l := Tick(Max(m.eta.value - s.clock, 0.0));
    assert Enabled(c, Next(c, s, l), PromoteOne(m, s.clock + l.dt));
  }

  // ---- Stopping a worker ----

  /** The end of stop(): whatever of the worker's envelopes is left is cancelled. Nothing of it is
      running afterwards, and the broker and the result store are as they were, so every entry
      that was pending still is. */
  lemma StopCancels(c: Config, s: State, w: WorkerId) returns (s': State)
    requires Reachable(c, s)
    ensures Reachable(c, s')
    ensures s'.sv == s.sv && s'.recorded == s.recorded && s'.published == s.published && s'.completed == s.completed
    ensures Count(s'.flights, Holds(w)) == 0 && forall f :: 0 <= f < |s'.flights| && s'.flights[f].worker == w ==>
              !Active(s'.flights[f])
    ensures |s'.flights| == |s.flights| && forall f :: 0 <= f < |s.flights| && s.flights[f].worker != w ==>
              s'.flights[f] == s.flights[f]
  {
    s' := CancelFirst(c, s, w, |s.flights|);
    CountPositive(s'.flights, Holds(w));
  }

  /** Cancelling one flight, if it belongs to the worker and is not over. */
  lemma CancelOne(c: Config, s: State, w: WorkerId, fid: nat) returns (s': State)
    requires Reachable(c, s) && fid < |s.flights|
    ensures Reachable(c, s')
    ensures s' == s.(flights := s'.flights, workers := s'.workers)
    ensures |s'.flights| == |s.flights| && s'.flights == s.flights[fid := s'.flights[fid]]
    ensures if s.flights[fid].worker == w then s'.flights[fid].worker == w && s'.flights[fid].pc == Done
            else s'.flights[fid] == s.flights[fid]
  {
    if s.flights[fid].worker == w && s.flights[fid].pc != Done {
      StepReachable(c, s, Kill(fid));
      s' := Next(c, s, Kill(fid));
    } else {
      s' := s;
    }
  }

  lemma {:induction false} CancelFirst(c: Config, s: State, w: WorkerId, n: nat) returns (s': State)
    requires Reachable(c, s) && n <= |s.flights|
    ensures Reachable(c, s') && |s'.flights| == |s.flights|
    ensures s'.sv == s.sv && s'.recorded == s.recorded && s'.published == s.published && s'.completed == s.completed
    ensures forall f :: 0 <= f < n && s.flights[f].worker == w ==> s'.flights[f].worker == w && s'.flights[f].pc == Done
    ensures forall f :: 0 <= f < |s.flights| && (f >= n || s.flights[f].worker != w) ==> s'.flights[f] == s.flights[f]
  {
    if n == 0 {
      return s;
    }
    var before := CancelFirst(c, s, w, n - 1);
    s' := CancelOne(c, before, w, n - 1);
  }
}
