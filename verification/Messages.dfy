/** What retries and dead letters do to one message. */
module Messages {
  import opened Types
  import opened RedisServer
  import opened Protocol
  import opened Invariants

  /** One link of a retry chain: when it was built, with which countdown and error. */
  datatype Link = Link(at: Time, countdown: Option<real>, lastError: Option<string>)

  function Chain(m: TaskMessage, links: seq<Link>): TaskMessage {
    if links == [] then m
    else
      var l := links[|links| - 1];
      RetryMessage(Chain(m, links[..|links| - 1]), l.at, l.countdown, l.lastError)
  }

  /** Along any chain the payload is constant, retries count the links, and the time of the first
      failure is fixed by the first link unless the message already had one. */
  lemma {:induction false} ChainKeepsIdentity(m: TaskMessage, links: seq<Link>)
    ensures SamePayload(m, Chain(m, links))
    ensures Chain(m, links).retries == m.retries + |links|
    ensures links != [] ==>
              Chain(m, links).firstFailureAt == if m.firstFailureAt.Some? then m.firstFailureAt else Some(links[0].at)
    ensures links != [] ==> Chain(m, links).lastError == links[|links| - 1].lastError
    ensures links != [] ==> Chain(m, links).priority == None
  {
    if links != [] {
      ChainKeepsIdentity(m, links[..|links| - 1]);
    }
  }

  // ---- All messages are such chains ----

  /** The message is a retry chain from the published task, or from a dead letter's reset of it. */
  ghost predicate Linked(pub: Originals, m: TaskMessage) {
    m.id in pub && exists links :: m == Chain(pub[m.id], links) || m == Chain(ResetMessage(pub[m.id]), links)
  }

  ghost predicate InBroker(sv: Server, m: TaskMessage) {
    || (exists i :: 0 <= i < |sv.stream| && sv.stream[i].msg == m)
    || m in sv.delayed
    || (exists k :: 0 <= k < |sv.dlq| && sv.dlq[k].data == m)
  }

  ghost predicate AllLinked(s: State) {
    forall m :: InBroker(s.sv, m) ==> Linked(s.published, m)
  }

  lemma PublishedIsLinked(pub: Originals, m: TaskMessage)
    requires m.id in pub && (m == pub[m.id] || m == ResetMessage(pub[m.id]))
    ensures Linked(pub, m)
  {
    assert Chain(m, []) == m;
  }

  lemma NextIsLinked(pub: Originals, m: TaskMessage, next: TaskMessage)
    requires Linked(pub, m) && IsNext(m, next)
    ensures Linked(pub, next)
  {
    var at, countdown, e :| next == RetryMessage(m, at, countdown, e);
    var links :| m == Chain(pub[m.id], links) || m == Chain(ResetMessage(pub[m.id]), links);
    var longer := links + [Link(at, countdown, e)];
    assert longer[..|links|] == links;
    assert next == Chain(pub[m.id], longer) || next == Chain(ResetMessage(pub[m.id]), longer);
  }

  lemma ReplayedIsLinked(pub: Originals, m: TaskMessage, reset: bool)
    requires Linked(pub, m)
    ensures Linked(pub, Replayed(m, reset))
  {
    var links :| m == Chain(pub[m.id], links) || m == Chain(ResetMessage(pub[m.id]), links);
    ChainKeepsIdentity(pub[m.id], links);
    ChainKeepsIdentity(ResetMessage(pub[m.id]), links);
    if reset {
      PublishedIsLinked(pub, ResetMessage(m));
    }
  }

  /** Where a message of the broker comes from. */
  lemma WhereFrom(c: Config, s: State, l: Label, m: TaskMessage)
    requires Shape(c, s) && Enabled(c, s, l) && InBroker(Next(c, s, l).sv, m)
    ensures || InBroker(s.sv, m)
            || (l.ClientPublish? && m == l.m)
            || (l.Call? && s.flights[l.fid].pc.Republish? && m == s.flights[l.fid].pc.next)
            || (l.ReplayDlq? && m == Replayed(s.sv.dlq[l.k].data, l.reset))
  {
    if l.Call? {
      CallBrings(c, s, l, m);
    }
  }

  lemma CallBrings(c: Config, s: State, l: Label, m: TaskMessage)
    requires Shape(c, s) && Enabled(c, s, l) && l.Call? && InBroker(Next(c, s, l).sv, m)
    ensures InBroker(s.sv, m) || (s.flights[l.fid].pc.Republish? && m == s.flights[l.fid].pc.next)
  {
    var fl := s.flights[l.fid];
    assert Aboard(s.sv, fl);
    var sv' := ServerEffect(c, s.sv, s.clock, fl, l.now);
    if k :| 0 <= k < |sv'.dlq| && sv'.dlq[k].data == m && !InBroker(s.sv, m) {
      assert s.sv.stream[fl.tag].msg == fl.msg;
    }
  }

  lemma FlightInBroker(sv: Server, fl: Flight)
    requires Aboard(sv, fl)
    ensures InBroker(sv, fl.msg)
  {
    assert sv.stream[fl.tag].msg == fl.msg;
  }

  lemma StepLinks(c: Config, s: State, l: Label, m: TaskMessage)
    requires Shape(c, s) && Mail(c, s) && AllLinked(s) && Enabled(c, s, l) && InBroker(Next(c, s, l).sv, m)
    ensures Linked(s.published, m) || (l.ClientPublish? && m == l.m)
  {
    WhereFrom(c, s, l, m);
    if InBroker(s.sv, m) || l.ClientPublish? {
    } else if l.Call? {
      FlightInBroker(s.sv, s.flights[l.fid]);
      assert LinkOk(c, s.published, s.clock, s.flights[l.fid]);
      NextIsLinked(s.published, s.flights[l.fid].msg, m);
    } else {
      assert InBroker(s.sv, s.sv.dlq[l.k].data);
      ReplayedIsLinked(s.published, s.sv.dlq[l.k].data, l.reset);
    }
  }

  lemma PublishedGrows(c: Config, s: State, l: Label)
    requires Enabled(c, s, l)
    ensures forall id :: id in s.published ==>
              id in Next(c, s, l).published && Next(c, s, l).published[id] == s.published[id]
    ensures l.ClientPublish? ==> l.m.id in Next(c, s, l).published && Next(c, s, l).published[l.m.id] == l.m
  {}

  lemma LinkedKept(c: Config, s: State, l: Label)
    requires Shape(c, s) && Mail(c, s) && AllLinked(s) && Enabled(c, s, l)
    ensures AllLinked(Next(c, s, l))
  {
    hide Next;
    PublishedGrows(c, s, l);
    forall m | InBroker(Next(c, s, l).sv, m)
      ensures Linked(Next(c, s, l).published, m)
    {
      StepLinks(c, s, l, m);
      if l.ClientPublish? && m == l.m {
        PublishedIsLinked(Next(c, s, l).published, m);
      }
    }
  }

  lemma {:induction false} RunKeepsLinked(c: Config, ls: seq<Label>)
    requires Admissible(c, INIT, ls)
    ensures AllLinked(Run(c, INIT, ls))
  {
    if ls != [] {
      var before := ls[..|ls| - 1];
      RunKeepsLinked(c, before);
      RunKeepsMail(c, before);
      LinkedKept(c, Run(c, INIT, before), ls[|ls| - 1]);
    }
  }

  lemma ReachableLinked(c: Config, s: State)
    requires Reachable(c, s)
    ensures AllLinked(s) && Shape(c, s) && Mail(c, s)
  {
    var ls :| Admissible(c, INIT, ls) && Run(c, INIT, ls) == s;
    RunKeepsLinked(c, ls);
    RunKeepsMail(c, ls);
  }

  /** In every reachable state, every message held anywhere is a retry chain from the published task
      or from its reset: what is proved of chains holds of it. */
  lemma EveryMessageIsChain(c: Config, s: State, m: TaskMessage)
    requires Reachable(c, s) && Holds(s, m)
    ensures Linked(s.published, m)
  {
    ReachableLinked(c, s);
    if f :| 0 <= f < |s.flights| && s.flights[f].msg == m {
      FlightInBroker(s.sv, s.flights[f]);
    }
  }

  /** And the message a flight is about to publish is the next link after the flight's own message:
      one retry more, with the same payload and the same time of the first failure. */
  lemma NextMessageIsLink(c: Config, s: State, f: nat, next: TaskMessage)
    requires Reachable(c, s) && f < |s.flights|
    requires s.flights[f].pc == SetRetry(next) || s.flights[f].pc == Republish(next)
    ensures Linked(s.published, next) && IsNext(s.flights[f].msg, next)
    ensures SamePayload(s.flights[f].msg, next) && next.retries == s.flights[f].msg.retries + 1
    ensures next.firstFailureAt.Some?
    ensures s.flights[f].msg.firstFailureAt.Some? ==> next.firstFailureAt == s.flights[f].msg.firstFailureAt
  {
    ReachableLinked(c, s);
    FlightInBroker(s.sv, s.flights[f]);
    assert LinkOk(c, s.published, s.clock, s.flights[f]);
    NextIsLinked(s.published, s.flights[f].msg, next);
  }

  // ---- Dead letters ----

  ghost function LiveLetters(sv: Server): set<nat> {
    set k | 0 <= k < |sv.dlq| && k !in sv.dlqDeleted
  }

  lemma LetterKept(c: Config, s: State, l: Label, k: nat)
    requires Enabled(c, s, l) && LiveDlq(s.sv, k) && (l.ReplayDlq? ==> l.k != k)
    ensures LiveDlq(Next(c, s, l).sv, k) && Next(c, s, l).sv.dlq[k] == s.sv.dlq[k]
  {}

  predicate Replays(l: Label, k: nat) {
    l.ReplayDlq? && l.k == k
  }

  /** Whatever happens, a dead letter waits unchanged until it is replayed. */
  lemma {:induction false} LetterWaits(c: Config, s: State, ls: seq<Label>, k: nat)
    requires Admissible(c, s, ls) && LiveDlq(s.sv, k) && forall l :: l in ls ==> !Replays(l, k)
    ensures LiveDlq(Run(c, s, ls).sv, k) && Run(c, s, ls).sv.dlq[k] == s.sv.dlq[k]
  {
    if ls != [] {
      var before, l := ls[..|ls| - 1], ls[|ls| - 1];
      LetterWaits(c, s, before, k);
      assert !Replays(l, k);
      LetterKept(c, Run(c, s, before), l, k);
    }
  }

  lemma LetterMade(c: Config, s: State, l: Label) returns (s': State)
    requires Reachable(c, s) && Enabled(c, s, l)
    requires l.Call? && l.fault != Refused && c.useDlq && s.flights[l.fid].pc == MoveDlq
    ensures s' == Next(c, s, l) && LiveDlq(s'.sv, |s.sv.dlq|) && s'.sv.dlq[|s.sv.dlq|].data == s.flights[l.fid].msg
    ensures |s'.sv.dlq| == |s.sv.dlq| + 1
    ensures s'.sv.dlq[|s.sv.dlq|].failedAt == s.clock && s'.sv.dlq[|s.sv.dlq|].tag == s.flights[l.fid].tag
    ensures c.broker == AtLeastOnce ==> s.flights[l.fid].tag !in s'.sv.pel
  {
    ReachableMail(c, s);
    s' := Next(c, s, l);
  }

  /** The round trip: a worker dead-letters its message, anything happens, an operator replays the
      letter. The message comes back as the last stream entry, with its payload, and with its
      retries and history unless they are reset; the other dead letters, the schedule and what is
      pending stay. */
  lemma DeadLetterRoundTrip(c: Config, s: State, bury: Label, ls: seq<Label>, reset: bool)
    requires Reachable(c, s) && Enabled(c, s, bury)
    requires bury.Call? && bury.fault != Refused && c.useDlq && s.flights[bury.fid].pc == MoveDlq
    requires Admissible(c, Next(c, s, bury), ls) && forall l :: l in ls ==> !Replays(l, |s.sv.dlq|)
    requires c.replays
    ensures var m, k, later := s.flights[bury.fid].msg, |s.sv.dlq|, Run(c, Next(c, s, bury), ls);
            && Enabled(c, later, ReplayDlq(k, reset))
            && var back := Next(c, later, ReplayDlq(k, reset));
            && |back.sv.stream| == |later.sv.stream| + 1 && back.sv.stream[..|later.sv.stream|] == later.sv.stream
            && (var r := back.sv.stream[|later.sv.stream|].msg;
                && SamePayload(m, r)
                && (!reset ==> r == m)
                && (reset ==> r.retries == 0 && r.firstFailureAt.None? && r.eta.None? && r.lastError.None?))
            && k in LiveLetters(later.sv) && LiveLetters(back.sv) == LiveLetters(later.sv) - {k}
            && back.sv.delayed == later.sv.delayed && back.sv.pel == later.sv.pel && back.sv.cursor == later.sv.cursor
  {
    var dead := LetterMade(c, s, bury);
    var k := |s.sv.dlq|;
    LetterWaits(c, dead, ls, k);
    var later := Run(c, dead, ls);
    assert forall j :: j in LiveLetters(Next(c, later, ReplayDlq(k, reset)).sv) <==>
        j in LiveLetters(later.sv) && j != k;
  }

  lemma {:induction false} RunOnlyAppends(c: Config, s: State, ls: seq<Label>)
    requires Shape(c, s) && Admissible(c, s, ls)
    ensures Shape(c, Run(c, s, ls)) && Grows(s.sv, Run(c, s, ls).sv)
  {
    if ls != [] {
      var before, l := ls[..|ls| - 1], ls[|ls| - 1];
      RunOnlyAppends(c, s, before);
      ShapeKept(c, Run(c, s, before), l);
      StepOnlyAppends(c, Run(c, s, before), l);
    }
  }

  lemma StepOnlyAppends(c: Config, s: State, l: Label)
    requires Enabled(c, s, l) && Shape(c, s) && Shape(c, Next(c, s, l))
    ensures Grows(s.sv, Next(c, s, l).sv)
  {
    if l.Call? {
      EffectGrows(c, s.sv, s.condemned, s.clock, s.flights[l.fid], l.now);
    }
  }

  /** Replaying writes what was read, even if the letter has been replayed since. */
  lemma ReplayWrites(c: Config, s: State, k: nat, reset: bool)
    requires Enabled(c, s, ReplayDlq(k, reset))
    ensures var sv := Next(c, s, ReplayDlq(k, reset)).sv;
            && |sv.stream| == |s.sv.stream| + 1 && sv.dlq == s.sv.dlq && k in sv.dlqDeleted
            && sv.stream[|s.sv.stream|].msg == Replayed(s.sv.dlq[k].data, reset)
  {}

  /** Two operators read the same dead letter, and each replays it some time later, anything happening
      before and between: both replays succeed, and the message comes back twice, at two places of
      the stream that stay. */
  lemma ConcurrentReplaysDuplicate(c: Config, s: State, k: nat, first: bool, second: bool, before: seq<Label>,
                                   between: seq<Label>)
    requires Reachable(c, s) && c.replays && k < |s.sv.dlq| && Admissible(c, s, before)
    requires Enabled(c, Run(c, s, before), ReplayDlq(k, first))
    requires Admissible(c, Next(c, Run(c, s, before), ReplayDlq(k, first)), between)
    ensures var s1 := Run(c, s, before);
            var s2 := Run(c, Next(c, s1, ReplayDlq(k, first)), between);
            && Enabled(c, s2, ReplayDlq(k, second))
            && var stream := Next(c, s2, ReplayDlq(k, second)).sv.stream;
            && |s1.sv.stream| < |s2.sv.stream| < |stream|
            && stream[|s1.sv.stream|].msg == Replayed(s.sv.dlq[k].data, first)
            && stream[|s2.sv.stream|].msg == Replayed(s.sv.dlq[k].data, second)
  {
    ReachableMail(c, s);
    RunOnlyAppends(c, s, before);
    var s1 := Run(c, s, before);
    var once := ReplayOnce(c, s1, k, first);
    RunOnlyAppends(c, once, between);
    var s2 := Run(c, once, between);
    ReplayWrites(c, s2, k, second);
    StreamPlace(c, s2, k, second, |s1.sv.stream|);
  }

  lemma ReplayOnce(c: Config, s: State, k: nat, reset: bool) returns (s': State)
    requires Shape(c, s) && Enabled(c, s, ReplayDlq(k, reset))
    ensures s' == Next(c, s, ReplayDlq(k, reset)) && Shape(c, s') && s'.sv.dlq == s.sv.dlq
    ensures |s'.sv.stream| == |s.sv.stream| + 1
    ensures s'.sv.stream[|s.sv.stream|].msg == Replayed(s.sv.dlq[k].data, reset)
  {
    s' := Next(c, s, ReplayDlq(k, reset));
    ShapeKept(c, s, ReplayDlq(k, reset));
  }

  lemma StreamPlace(c: Config, s: State, k: nat, reset: bool, i: nat)
    requires Enabled(c, s, ReplayDlq(k, reset)) && i < |s.sv.stream|
    ensures i < |Next(c, s, ReplayDlq(k, reset)).sv.stream|
    ensures Next(c, s, ReplayDlq(k, reset)).sv.stream[i] == s.sv.stream[i]
  {}
}
