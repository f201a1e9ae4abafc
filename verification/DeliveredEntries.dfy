/** What becomes of delivered entries: when one may stop being pending, and what that says about
    cancelled envelopes and about consumers. */
module DeliveredEntries {
  import opened Types
  import opened RedisServer
  import opened Protocol
  import opened Invariants
  import opened NoLoss
  import Accounting
  import Exactness

  // ---- At least once ----

  /** A delivered entry is pending, or its task does not depend on it. */
  ghost predicate Accounted(s: State, strict: bool, tag: nat) {
    tag < |s.sv.stream| && (tag in s.sv.pel || Safe(s, strict, s.sv.stream[tag].msg.id, tag))
  }

  ghost predicate AllAccounted(s: State, strict: bool) {
    forall tag :: 0 <= tag < s.sv.cursor ==> Accounted(s, strict, tag)
  }

  /** A call settles an entry only for a flight that knows its task to be safe without it. */
  lemma CallAccounts(c: Config, s: State, strict: bool, l: Label, tag: nat)
    requires Shape(c, s) && Mail(c, s) && Covered(c, s, strict) && Protected(c, strict)
    requires Enabled(c, s, l) && l.Call? && tag < s.sv.cursor && tag in s.sv.pel
    ensures tag in Next(c, s, l).sv.pel || Safe(Next(c, s, l), strict, s.sv.stream[tag].msg.id, tag)
  {
    var fl := s.flights[l.fid];
    assert Aboard(s.sv, fl) && FlightSafe(c, s, strict, fl);
    if tag !in Next(c, s, l).sv.pel {
      assert tag == fl.tag;
      match fl.pc
      case AckSuccess | AckRetry | Finalize => SafeKept(c, s, strict, l, fl.msg.id, tag);
      case MoveDlq =>
        if c.useDlq {
          assert LiveDlq(Next(c, s, l).sv, |s.sv.dlq|);
        } else {
          SettledGrows(c, s, strict, l);
        }
      case _ => assert false;
    }
  }

  lemma StaysPending(c: Config, s: State, l: Label, tag: nat)
    requires Shape(c, s) && c.idleStayAway && Enabled(c, s, l) && !l.Call? && tag in s.sv.pel
    ensures tag in Next(c, s, l).sv.pel
  {}

  lemma AccountedKept(c: Config, s: State, strict: bool, l: Label, tag: nat)
    requires Shape(c, s) && Mail(c, s) && Covered(c, s, strict) && Protected(c, strict) && Enabled(c, s, l)
    requires tag < s.sv.cursor && Accounted(s, strict, tag)
    ensures Accounted(Next(c, s, l), strict, tag)
  {
    StreamStays(c, s, l, tag);
    if tag !in s.sv.pel {
      SafeKept(c, s, strict, l, s.sv.stream[tag].msg.id, tag);
    } else if l.Call? {
      CallAccounts(c, s, strict, l, tag);
    } else {
      StaysPending(c, s, l, tag);
    }
  }

  lemma StreamStays(c: Config, s: State, l: Label, tag: nat)
    requires Enabled(c, s, l) && tag < |s.sv.stream|
    ensures tag < |Next(c, s, l).sv.stream| && Next(c, s, l).sv.stream[tag] == s.sv.stream[tag]
  {}

  /** Only a delivery moves the cursor, and what it delivers is pending. */
  lemma CursorMoves(c: Config, s: State, l: Label, tag: nat)
    requires Enabled(c, s, l) && s.sv.cursor <= tag < Next(c, s, l).sv.cursor
    ensures tag in Next(c, s, l).sv.pel && tag < |Next(c, s, l).sv.stream|
  {}

  lemma {:induction false} RunAccounts(c: Config, strict: bool, ls: seq<Label>)
    requires Admissible(c, INIT, ls) && Protected(c, strict)
    ensures AllAccounted(Run(c, INIT, ls), strict)
  {
    if ls != [] {
      var before, l := ls[..|ls| - 1], ls[|ls| - 1];
      var s := Run(c, INIT, before);
      RunAccounts(c, strict, before);
      RunKeepsMail(c, before);
      RunKeepsCovered(c, strict, before);
      forall tag | 0 <= tag < Next(c, s, l).sv.cursor
        ensures Accounted(Next(c, s, l), strict, tag)
      {
        if tag < s.sv.cursor {
          AccountedKept(c, s, strict, l, tag);
        } else {
          CursorMoves(c, s, l, tag);
        }
      }
    }
  }

  /** In every reachable state, every delivered entry is still pending or its task is settled or held
      elsewhere. */
  lemma PendingOrCovered(c: Config, strict: bool, s: State, tag: nat)
    requires Protected(c, strict) && Reachable(c, s) && tag < s.sv.cursor
    ensures Accounted(s, strict, tag)
  {
    var ls :| Admissible(c, INIT, ls) && Run(c, INIT, ls) == s;
    RunAccounts(c, strict, ls);
  }

  /** Of every envelope, cancelled or not, running or over: its entry is still pending, or its task
      does not depend on that entry any more. */
  lemma EnvelopeIsCovered(c: Config, strict: bool, s: State, f: nat)
    requires Protected(c, strict) && Reachable(c, s) && f < |s.flights|
    ensures s.flights[f].tag in s.sv.pel || Safe(s, strict, s.flights[f].msg.id, s.flights[f].tag)
  {
    ReachableMail(c, s);
    assert Aboard(s.sv, s.flights[f]);
    PendingOrCovered(c, strict, s, s.flights[f].tag);
  }

  /** Once stop() has waited: no envelope of the worker is running, none holds a permit, and each that
      was cancelled is pending or covered, now and in every later state of any run. */
  lemma StoppedWorkerLosesNothing(c: Config, strict: bool, s: State, w: WorkerId, ls: seq<Label>)
    requires Protected(c, strict) && Reachable(c, s) && Admissible(c, s, ls)
    requires forall f :: 0 <= f < |s.flights| && s.flights[f].worker == w ==> !Accounting.Active(s.flights[f])
    ensures Accounting.Count(s.flights, Accounting.Holds(w)) == 0 && WorkerOf(c, s, w).permits == c.concurrency
    ensures var later := Run(c, s, ls);
            forall f :: 0 <= f < |later.flights|
                        && later.flights[f].worker == w && later.flights[f].tally == Cancelled ==>
              later.flights[f].tag in later.sv.pel || Safe(later, strict, later.flights[f].msg.id, later.flights[f].tag)
  {
    Accounting.CountPositive(s.flights, Accounting.Holds(w));
    Accounting.ReachableBooks(c, s);
    assert Accounting.Balanced(c, s, w);
    var later := Run(c, s, ls);
    RunReachable(c, s, ls);
    forall f | 0 <= f < |later.flights| && later.flights[f].tally == Cancelled
      ensures later.flights[f].tag in later.sv.pel || Safe(later, strict, later.flights[f].msg.id, later.flights[f].tag)
    {
      EnvelopeIsCovered(c, strict, later, f);
    }
  }

  // ---- Owners ----

  /** The entry that a step hands out. */
  function HandedOut(s: State, l: Label): nat
    requires l.Deliver? || l.ClaimStale?
  {
    if l.Deliver? then s.sv.cursor else l.tag
  }

  /** An entry once delivered is pending since then at the earliest, if at all. */
  predicate PendingSince(sv: Server, tag: nat, t: Time) {
    tag < sv.cursor && (tag in sv.pel ==> sv.pel[tag].since >= t)
  }

  lemma StaysPendingSince(c: Config, s: State, l: Label, tag: nat, t: Time)
    requires Enabled(c, s, l) && s.clock >= t && PendingSince(s.sv, tag, t)
    ensures PendingSince(Next(c, s, l).sv, tag, t) && Next(c, s, l).clock >= t
    ensures tag !in s.sv.pel ==> tag !in Next(c, s, l).sv.pel
  {
    if l.Call? {
      EffectOnlySettles(c, s.sv, s.clock, s.flights[l.fid], l.now);
    }
  }

  lemma EffectOnlySettles(c: Config, sv: Server, clock: Time, fl: Flight, now: Time)
    ensures var sv' := ServerEffect(c, sv, clock, fl, now);
            sv'.cursor == sv.cursor && forall tag :: tag in sv'.pel ==> tag in sv.pel && sv'.pel[tag] == sv.pel[tag]
  {}

  lemma {:induction false} RunStaysPendingSince(c: Config, s: State, ls: seq<Label>, tag: nat, t: Time)
    requires Admissible(c, s, ls) && s.clock >= t && PendingSince(s.sv, tag, t)
    ensures PendingSince(Run(c, s, ls).sv, tag, t) && Run(c, s, ls).clock >= t
    ensures tag !in s.sv.pel ==> tag !in Run(c, s, ls).sv.pel
  {
    if ls != [] {
      RunStaysPendingSince(c, s, ls[..|ls| - 1], tag, t);
      StaysPendingSince(c, Run(c, s, ls[..|ls| - 1]), ls[|ls| - 1], tag, t);
    }
  }

  /** An entry that is handed out, by a delivery or by a claim, is the receiver's from then on, and in no run
      is it claimed again, by anybody, before it has been pending for the claims' idle time. */
  lemma NotClaimedEarly(c: Config, s: State, l: Label, ls: seq<Label>, w: WorkerId)
    requires Reachable(c, s) && Enabled(c, s, l) && (l.Deliver? || l.ClaimStale?)
    requires Admissible(c, Next(c, s, l), ls)
    ensures var tag, got, later := HandedOut(s, l), Next(c, s, l).sv.pel, Run(c, Next(c, s, l), ls);
            && tag in got && got[tag] == Pending(l.w, s.clock)
            && (Enabled(c, later, ClaimStale(w, tag)) ==> later.clock >= s.clock + c.claimMinIdle)
            && (tag in later.sv.pel && later.sv.pel[tag] == got[tag] && c.broker == AtLeastOnce
                && MayRead(c, later, w) ==>
                  (Enabled(c, later, ClaimStale(w, tag)) <==> later.clock >= s.clock + c.claimMinIdle))
  {
    HandingOut(c, s, l);
    StepReachable(c, s, l);
    RunReachable(c, Next(c, s, l), ls);
    ReachableMail(c, Run(c, Next(c, s, l), ls));
    hide Mail, Next;
    RunStaysPendingSince(c, Next(c, s, l), ls, HandedOut(s, l), s.clock);
  }

  lemma HandingOut(c: Config, s: State, l: Label)
    requires Reachable(c, s) && Enabled(c, s, l) && (l.Deliver? || l.ClaimStale?)
    ensures var tag, s' := HandedOut(s, l), Next(c, s, l);
            && tag in s'.sv.pel && s'.sv.pel[tag] == Pending(l.w, s.clock) && tag < s'.sv.cursor && s'.clock == s.clock
  {
    ReachableMail(c, s);
  }

  /** Counters whose call settles the flight's entry. */
  predicate Settles(pc: Pc) {
    pc == EarlyAck || pc == AckSuccess || pc == AckRetry || pc == MoveDlq || pc == Finalize
  }

  /** At least once: a call that settles an entry settles it for good, if it takes effect. */
  lemma SettledForGood(c: Config, s: State, l: Label, ls: seq<Label>)
    requires Reachable(c, s) && Enabled(c, s, l) && c.broker == AtLeastOnce
    requires l.Call? && l.fault != Refused && Settles(s.flights[l.fid].pc)
    requires Admissible(c, Next(c, s, l), ls)
    ensures s.flights[l.fid].tag !in Run(c, Next(c, s, l), ls).sv.pel
  {
    ReachableMail(c, s);
    assert Aboard(s.sv, s.flights[l.fid]);
    CallLands(c, s, l);
    RunStaysPendingSince(c, Next(c, s, l), ls, s.flights[l.fid].tag, 0.0);
  }

  // ---- Cleanup ----

  predicate ReadsAs(l: Label, w: WorkerId) {
    (l.Poll? || l.Deliver? || l.ClaimStale?) && l.w == w
  }

  ghost predicate SeenSince(c: Config, s: State, w: WorkerId, t: Time) {
    w in s.seen && s.seen[w] >= t && s.clock >= t && (s.clock <= t + c.staleAfter ==> w !in s.condemned)
  }

  lemma {:induction false} RunStaysSeen(c: Config, s: State, ls: seq<Label>, w: WorkerId, t: Time)
    requires Admissible(c, s, ls) && SeenSince(c, s, w, t)
    ensures SeenSince(c, Run(c, s, ls), w, t)
  {
    if ls != [] {
      RunStaysSeen(c, s, ls[..|ls| - 1], w, t);
      StaysSeen(c, Run(c, s, ls[..|ls| - 1]), ls[|ls| - 1], w, t);
    }
  }

  lemma StaysSeen(c: Config, s: State, l: Label, w: WorkerId, t: Time)
    requires Enabled(c, s, l) && SeenSince(c, s, w, t)
    ensures SeenSince(c, Next(c, s, l), w, t)
  {}

  /** A consumer that reads, even in vain, is not found idle by any cleanup pass before the time is over. */
  lemma ReadersAreNotIdle(c: Config, s: State, l: Label, w: WorkerId, ls: seq<Label>)
    requires Enabled(c, s, l) && ReadsAs(l, w) && w !in s.condemned && Admissible(c, Next(c, s, l), ls)
    ensures Run(c, Next(c, s, l), ls).clock <= s.clock + c.staleAfter ==> w !in Run(c, Next(c, s, l), ls).condemned
  {
    RunStaysSeen(c, Next(c, s, l), ls, w, s.clock);
  }

  /** In any run in which consumers seen idle never read again, a cleanup's deletion changes nothing. */
  lemma CleanupLosesNothing(c: Config, s: State, w: WorkerId)
    requires Reachable(c, s) && c.idleStayAway && Enabled(c, s, Cleanup(w))
    ensures Next(c, s, Cleanup(w)) == s
  {
    ReachableMail(c, s);
    assert PendingOf(s.sv, w) == {};
    DelConsumerSafe(s.sv, w);
  }

  // ---- At most once ----

  ghost predicate ForeverPending(s: State) {
    && (forall tag :: 0 <= tag < s.sv.cursor ==> tag in s.sv.pel)
    && (forall f :: 0 <= f < |s.flights| ==>
          s.flights[f].tag in s.sv.pel && s.sv.pel[s.flights[f].tag].consumer == s.flights[f].worker)
  }

  lemma FlightsStay(c: Config, s: State, l: Label)
    requires Enabled(c, s, l)
    ensures |Next(c, s, l).flights| == |s.flights| + if l.Deliver? || l.ClaimStale? then 1 else 0
    ensures l.Deliver? ==>
              Next(c, s, l).flights[|s.flights|].tag == s.sv.cursor && Next(c, s, l).flights[|s.flights|].worker == l.w
  {}

  lemma FlightStays(c: Config, s: State, l: Label, f: nat)
    requires Enabled(c, s, l) && f < |s.flights|
    ensures f < |Next(c, s, l).flights|
    ensures Next(c, s, l).flights[f].tag == s.flights[f].tag && Next(c, s, l).flights[f].worker == s.flights[f].worker
  {}

  lemma ForeverKept(c: Config, s: State, l: Label)
    requires c.broker == AtMostOnce && c.idleStayAway && Shape(c, s) && ForeverPending(s) && Enabled(c, s, l)
    ensures ForeverPending(Next(c, s, l))
  {
    hide Next;
    SamePel(c, s, l);
    FlightsStay(c, s, l);
    forall f | 0 <= f < |s.flights|
      ensures Aboard(s.sv, s.flights[f])
      ensures f < |Next(c, s, l).flights|
      ensures Next(c, s, l).flights[f].tag == s.flights[f].tag && Next(c, s, l).flights[f].worker == s.flights[f].worker
    {
      FlightStays(c, s, l, f);
    }
  }

  lemma EffectSamePel(c: Config, sv: Server, clock: Time, fl: Flight, now: Time)
    requires c.broker == AtMostOnce
    ensures ServerEffect(c, sv, clock, fl, now).pel == sv.pel && ServerEffect(c, sv, clock, fl, now).cursor == sv.cursor
  {}

  lemma CallSamePel(c: Config, s: State, l: Label)
    requires c.broker == AtMostOnce && Enabled(c, s, l) && l.Call?
    ensures Next(c, s, l).sv.pel == s.sv.pel && Next(c, s, l).sv.cursor == s.sv.cursor
  {
    EffectSamePel(c, s.sv, s.clock, s.flights[l.fid], l.now);
  }

  /** At most once, the pending list only grows, by deliveries. */
  lemma SamePel(c: Config, s: State, l: Label)
    requires c.broker == AtMostOnce && c.idleStayAway && Shape(c, s) && Enabled(c, s, l)
    ensures Next(c, s, l).sv.pel == if l.Deliver? then s.sv.pel[s.sv.cursor := Pending(l.w, s.clock)] else s.sv.pel
    ensures Next(c, s, l).sv.cursor == if l.Deliver? then s.sv.cursor + 1 else s.sv.cursor
  {
    if l.Call? {
      CallSamePel(c, s, l);
    } else if l.Cleanup? {
      assert PendingOf(s.sv, l.w) == {};
      DelConsumerSafe(s.sv, l.w);
    }
  }

  lemma {:induction false} RunKeepsForever(c: Config, ls: seq<Label>)
    requires c.broker == AtMostOnce && c.idleStayAway && Admissible(c, INIT, ls)
    ensures ForeverPending(Run(c, INIT, ls))
  {
    if ls != [] {
      var before := ls[..|ls| - 1];
      RunKeepsForever(c, before);
      RunKeepsMail(c, before);
      ForeverKept(c, Run(c, INIT, before), ls[|ls| - 1]);
    }
  }

  /** At most once, acknowledgements never settle anything: exactly when idle consumers stay away,
      every entry ever delivered is pending in every reachable state. */
  lemma NeverSettledExactly(c: Config)
    requires c.broker == AtMostOnce
    ensures (forall s, tag :: Reachable(c, s) && 0 <= tag < s.sv.cursor ==> tag in s.sv.pel) <==> c.idleStayAway
  {
    if c.idleStayAway {
      forall s, tag | Reachable(c, s) && 0 <= tag < s.sv.cursor
        ensures tag in s.sv.pel
      {
        var ls :| Admissible(c, INIT, ls) && Run(c, INIT, ls) == s;
        RunKeepsForever(c, ls);
      }
    } else {
      var s := Exactness.ReachLateCleanup(c, "");
      assert 0 < s.sv.cursor && 0 !in s.sv.pel;
    }
  }

  /** So a consumer that has ever been given an entry is never cleaned up, however long it has been
      idle or dead. */
  lemma ReadersAreNeverCleanedUp(c: Config, s: State, f: nat)
    requires c.broker == AtMostOnce && c.idleStayAway && Reachable(c, s) && f < |s.flights|
    ensures !Enabled(c, s, Snapshot(s.flights[f].worker)) && !Enabled(c, s, Cleanup(s.flights[f].worker))
  {
    var ls :| Admissible(c, INIT, ls) && Run(c, INIT, ls) == s;
    RunKeepsForever(c, ls);
    RunKeepsMail(c, ls);
    assert s.flights[f].tag in PendingOf(s.sv, s.flights[f].worker);
  }
}
