/** The Redis broker's operations, step by step, against the commands of RedisServer. */
module RedisBroker {
  import opened Types
  import opened RedisServer
  import opened Protocol

  datatype Envelope = Envelope(message: TaskMessage, tag: nat)

  /** The ready members in the order the script visits them: by score, ties in any order. */
  ghost predicate ReadyOrder(delayed: set<TaskMessage>, now: Time, ready: seq<TaskMessage>) {
    && (forall m :: m in ready <==> m in delayed && Ripe(m, now))
    && (forall i, j :: 0 <= i < j < |ready| ==> ready[i] != ready[j])
    && (forall i :: 0 <= i < |ready| ==> ready[i].eta.Some?)
    && (forall i, j :: 0 <= i < j < |ready| ==> ready[i].eta.value <= ready[j].eta.value)
  }

  function PromoteAll(sv: Server, ready: seq<TaskMessage>, at: Time): Server {
    if ready == [] then sv else Promote(PromoteAll(sv, ready[..|ready| - 1], at), ready[|ready| - 1], at)
  }

  function Entries(ms: seq<TaskMessage>, at: Time): seq<Entry> {
    seq(|ms|, i requires 0 <= i < |ms| => Entry(ms[i], at))
  }

  ghost function Members(ms: seq<TaskMessage>): set<TaskMessage> {
    set m | m in ms
  }

  /** The whole script: the members leave the sorted set and join the stream in order. */
  lemma {:induction false} PromoteAllMoves(sv: Server, ready: seq<TaskMessage>, at: Time)
    ensures PromoteAll(sv, ready, at)
            == sv.(stream := sv.stream + Entries(ready, at), delayed := sv.delayed - Members(ready))
  {
    if ready == [] {
      assert sv.stream + Entries([], at) == sv.stream;
      assert sv.delayed - Members([]) == sv.delayed;
    } else {
      var front, last := ready[..|ready| - 1], ready[|ready| - 1];
      PromoteAllMoves(sv, front, at);
      assert Entries(ready, at) == Entries(front, at) + [Entry(last, at)];
      assert ready == front + [last];
      assert sv.delayed - Members(ready) == sv.delayed - Members(front) - {last};
    }
  }

  /** The script is a run of single promotions, so everything proved of runs holds of it. */
  lemma {:induction false} BatchReachable(c: Config, s: State, ready: seq<TaskMessage>, now: Time)
    requires Reachable(c, s) && now <= s.clock
    requires forall m :: m in ready ==> m in s.sv.delayed && Ripe(m, now)
    requires forall i, j :: 0 <= i < j < |ready| ==> ready[i] != ready[j]
    ensures Reachable(c, s.(sv := PromoteAll(s.sv, ready, s.clock)))
  {
    if ready == [] {
      assert s.(sv := s.sv) == s;
    } else {
      var front, last := ready[..|ready| - 1], ready[|ready| - 1];
      BatchReachable(c, s, front, now);
      PromoteAllMoves(s.sv, front, s.clock);
      assert last !in front;
      StepReachable(c, s.(sv := PromoteAll(s.sv, front, s.clock)), PromoteOne(last, now));
    }
  }

  /** A history of one sorted set: inserts by publishers, script runs by any number of movers. */
  datatype Event = Insert(m: TaskMessage) | Script(ready: seq<TaskMessage>, now: Time)

  datatype Schedule = Schedule(delayed: set<TaskMessage>, promoted: seq<TaskMessage>)

  function ScheduleAfter(es: seq<Event>): Schedule {
    if es == [] then Schedule({}, [])
    else
      var before := ScheduleAfter(es[..|es| - 1]);
      match es[|es| - 1]
      case Insert(m) => before.(delayed := before.delayed + {m})
      case Script(ready, _) => Schedule(before.delayed - (set m | m in ready), before.promoted + ready)
  }

  /** Scripts visit what is ready when they run. Equal messages may be inserted any number of times. */
  ghost predicate Lawful(es: seq<Event>) {
    es == [] ||
    var front, last := es[..|es| - 1], es[|es| - 1];
    Lawful(front) && (last.Script? ==> ReadyOrder(ScheduleAfter(front).delayed, last.now, last.ready))
  }

  predicate NoRepeats(ms: seq<TaskMessage>) {
    forall i, j :: 0 <= i < j < |ms| ==> ms[i] != ms[j]
  }

  function Inserts(es: seq<Event>, m: TaskMessage): nat {
    if es == [] then 0 else Inserts(es[..|es| - 1], m) + if es[|es| - 1] == Insert(m) then 1 else 0
  }

  lemma {:induction false} OnceEach(ms: seq<TaskMessage>, m: TaskMessage)
    requires NoRepeats(ms)
    ensures multiset(ms)[m] == if m in ms then 1 else 0
  {
    if ms != [] {
      var front, last := ms[..|ms| - 1], ms[|ms| - 1];
      OnceEach(front, m);
      assert ms == front + [last];
      assert last !in front;
    }
  }

  /** Whatever the number of movers: what is scheduled or promoted was inserted, no more often than
      it was inserted, and everything inserted is scheduled or has been promoted. So a message
      inserted once is either scheduled or promoted, and promoted once. */
  lemma {:induction false} PromotedOnce(es: seq<Event>, m: TaskMessage)
    requires Lawful(es)
    ensures var sch := ScheduleAfter(es);
            && multiset(sch.promoted)[m] + (if m in sch.delayed then 1 else 0) <= Inserts(es, m)
            && (Inserts(es, m) > 0 ==> m in sch.delayed || m in sch.promoted)
            && (Inserts(es, m) == 1 ==> multiset(sch.promoted)[m] == if m in sch.delayed then 0 else 1)
  {
    if es != [] {
      var front, last := es[..|es| - 1], es[|es| - 1];
      PromotedOnce(front, m);
      if last.Script? {
        OnceEach(last.ready, m);
      }
    }
  }

  lemma EarliestExists(ms: set<TaskMessage>) returns (first: TaskMessage)
    requires ms != {} && forall m :: m in ms ==> m.eta.Some?
    ensures first in ms && forall m :: m in ms ==> first.eta.value <= m.eta.value
  {
    first :| first in ms;
    if ms != {first} {
      var other := EarliestExists(ms - {first});
      if other.eta.value < first.eta.value {
        first := other;
      }
    }
  }

  function ClaimEach(sv: Server, es: seq<Envelope>, w: WorkerId, at: Time): Server {
    if es == [] then sv else Claim(ClaimEach(sv, es[..|es| - 1], w, at), es[|es| - 1].tag, w, at)
  }

  lemma ClaimOneMore(sv: Server, es: seq<Envelope>, e: Envelope, w: WorkerId, at: Time)
    ensures ClaimEach(sv, es + [e], w, at) == Claim(ClaimEach(sv, es, w, at), e.tag, w, at)
  {
    assert (es + [e])[..|es|] == es;
  }

  /** Claiming changes owners only: nothing starts or stops being pending, the rest is untouched. */
  lemma {:induction false} ClaimKeepsPending(sv: Server, es: seq<Envelope>, w: WorkerId, at: Time)
    requires forall e :: e in es ==> e.tag in sv.pel
    ensures ClaimEach(sv, es, w, at) == sv.(pel := ClaimEach(sv, es, w, at).pel)
    ensures ClaimEach(sv, es, w, at).pel.Keys == sv.pel.Keys
  {
    if es != [] {
      ClaimKeepsPending(sv, es[..|es| - 1], w, at);
      assert es[|es| - 1] in es;
    }
  }

  /** The entry is one of those claimed. */
  predicate Includes(es: seq<Envelope>, tag: nat) {
    exists i :: 0 <= i < |es| && es[i].tag == tag
  }

  /** A claimed entry is the claimer's from now on, and an entry nobody claimed is whose it was, since then. */
  lemma {:induction false} ClaimedAreTaken(sv: Server, es: seq<Envelope>, w: WorkerId, at: Time, tag: nat)
    ensures var pel := ClaimEach(sv, es, w, at).pel;
            if Includes(es, tag) then tag in pel && pel[tag] == Pending(w, at)
            else (tag in pel <==> tag in sv.pel) && (tag in pel ==> pel[tag] == sv.pel[tag])
  {
    if es != [] {
      var front, last := es[..|es| - 1], es[|es| - 1];
      ClaimedAreTaken(sv, front, w, at, tag);
      assert forall i :: 0 <= i < |front| ==> es[i] == front[i];
      assert Includes(es, tag) <==> Includes(front, tag) || last.tag == tag;
    }
  }

  predicate InOrder(es: seq<Envelope>) {
    forall i, j :: 0 <= i < j < |es| ==> es[i].tag < es[j].tag
  }

  /** The entry had been pending for long enough, and the envelope carries its message. */
  predicate ClaimedFairly(sv: Server, e: Envelope, minIdle: real, at: Time) {
    Stale(sv, e.tag, minIdle, at) && e.tag < |sv.stream| && e.message == sv.stream[e.tag].msg
  }

  /** The entry was claimed, or the claim was full before it came to the entry. */
  ghost predicate ClaimedOrFull(es: seq<Envelope>, tag: nat, count: nat) {
    (exists e :: e in es && e.tag == tag) || (|es| == count && forall e :: e in es ==> e.tag < tag)
  }

  /** A claim that has looked at all entries before `tag`. */
  ghost predicate ClaimedUpTo(sv: Server, es: seq<Envelope>, tag: nat, minIdle: real, at: Time, count: nat) {
    && |es| <= count && InOrder(es)
    && (forall e :: e in es ==> e.tag < tag && ClaimedFairly(sv, e, minIdle, at))
    && (forall t: nat :: t < tag && Stale(sv, t, minIdle, at) ==> ClaimedOrFull(es, t, count))
  }

  lemma PassedOver(sv: Server, es: seq<Envelope>, tag: nat, minIdle: real, at: Time, count: nat)
    requires ClaimedUpTo(sv, es, tag, minIdle, at, count)
    requires |es| == count || !Stale(sv, tag, minIdle, at)
    ensures ClaimedUpTo(sv, es, tag + 1, minIdle, at, count)
  {}

  lemma OneMoreClaimed(sv: Server, es: seq<Envelope>, e: Envelope, minIdle: real, at: Time, count: nat)
    requires ClaimedUpTo(sv, es, e.tag, minIdle, at, count)
    requires |es| < count && ClaimedFairly(sv, e, minIdle, at)
    ensures ClaimedUpTo(sv, es + [e], e.tag + 1, minIdle, at, count)
  {
    assert e in es + [e];
    forall t: nat | t < e.tag && Stale(sv, t, minIdle, at)
      ensures ClaimedOrFull(es + [e], t, count)
    {
      var d :| d in es && d.tag == t;
      assert d in es + [e];
    }
  }

  /** The replay's transaction: write a message that was read earlier, and delete its letter. */
  function WriteBack(sv: Server, k: nat, m: TaskMessage, at: Time): Server {
    Xadd(sv, m, at).(dlqDeleted := sv.dlqDeleted + {k})
  }

  /** As letters never change, the transaction writes what it would have read itself, whatever has happened
      since, another replay of the same letter included. */
  lemma WritesWhatWasRead(sv: Server, found: Server, k: nat, reset: bool, at: Time)
    requires k < |sv.dlq| && sv.dlq <= found.dlq
    ensures WriteBack(found, k, Replayed(sv.dlq[k].data, reset), at) == Replay(found, k, reset, at)
  {}

  /** The listing shows the consumer idle for too long, with nothing pending. */
  predicate Idle(info: map<WorkerId, Time>, listed: Server, w: WorkerId, staleSeconds: real, at: Time) {
    w in info && PendingOf(listed, w) == {} && at - info[w] > staleSeconds
  }

  function IdleOnes(listing: seq<WorkerId>, info: map<WorkerId, Time>, listed: Server, staleSeconds: real,
                    at: Time): seq<WorkerId> {
    if listing == [] then []
    else
      var w := listing[|listing| - 1];
      IdleOnes(listing[..|listing| - 1], info, listed, staleSeconds, at)
      + if Idle(info, listed, w, staleSeconds, at) then [w] else []
  }

  lemma {:induction false} IdleOnesAre(listing: seq<WorkerId>, info: map<WorkerId, Time>, listed: Server,
                                       staleSeconds: real, at: Time)
    ensures forall w :: w in IdleOnes(listing, info, listed, staleSeconds, at) <==>
              w in listing && w in info && PendingOf(listed, w) == {} && at - info[w] > staleSeconds
  {
    if listing != [] {
      IdleOnesAre(listing[..|listing| - 1], info, listed, staleSeconds, at);
    }
  }

  /** The contents after deletions with others coming before each of them. */
  function AfterDeletions(sv: Server, ws: seq<WorkerId>, others: (nat, Server) -> Server): Server {
    if ws == [] then sv
    else
      var n := |ws| - 1;
      DelConsumer(others(n, AfterDeletions(sv, ws[..n], others)), ws[n])
  }

  /** And what the others alone would have made of them. */
  function WithoutDeletions(sv: Server, n: nat, others: (nat, Server) -> Server): Server {
    if n == 0 then sv else others(n - 1, WithoutDeletions(sv, n - 1, others))
  }

  lemma OneMoreDeletion(sv: Server, ws: seq<WorkerId>, w: WorkerId, others: (nat, Server) -> Server,
                        info: map<WorkerId, Time>)
    ensures AfterDeletions(sv, ws + [w], others) == DelConsumer(others(|ws|, AfterDeletions(sv, ws, others)), w)
    ensures info - (set v | v in ws + [w]) == (info - set v | v in ws) - {w}
  {
    assert (ws + [w])[..|ws|] == ws;
  }

  ghost predicate NothingPending(sv: Server, ws: seq<WorkerId>) {
    forall w :: w in ws ==> PendingOf(sv, w) == {}
  }

  /** These consumers do not read or claim: nobody makes an entry pending for them. */
  ghost predicate StayAway(ws: seq<WorkerId>, others: (nat, Server) -> Server) {
    forall i: nat, sv: Server {:trigger others(i, sv)} :: NothingPending(sv, ws) ==> NothingPending(others(i, sv), ws)
  }

  /** If the consumers to be deleted stay away from the listing on, the deletions change nothing, whatever
      the others do between them: every pending entry is where the others alone would have it. */
  lemma {:induction false} DeletionsLoseNothing(sv: Server, all: seq<WorkerId>, n: nat, others: (nat, Server) -> Server)
    requires n <= |all| && NothingPending(sv, all) && StayAway(all, others)
    ensures AfterDeletions(sv, all[..n], others) == WithoutDeletions(sv, n, others)
    ensures NothingPending(AfterDeletions(sv, all[..n], others), all)
  {
    if n > 0 {
      DeletionsLoseNothing(sv, all, n - 1, others);
      assert all[..n][..n - 1] == all[..n - 1];
      var found := others(n - 1, AfterDeletions(sv, all[..n - 1], others));
      assert NothingPending(found, all) && all[n - 1] in all;
      DelConsumerSafe(found, all[n - 1]);
    }
  }

  lemma {:induction false} IdleHaveNothingPending(listing: seq<WorkerId>, info: map<WorkerId, Time>, listed: Server,
                                                  staleSeconds: real, at: Time)
    ensures NothingPending(listed, IdleOnes(listing, info, listed, staleSeconds, at))
  {
    if listing != [] {
      IdleHaveNothingPending(listing[..|listing| - 1], info, listed, staleSeconds, at);
    }
  }

  /** Right after its deletion a consumer has nothing pending, whatever it had got meanwhile. */
  lemma DeletedHasNothing(sv: Server, ws: seq<WorkerId>, others: (nat, Server) -> Server)
    requires ws != []
    ensures PendingOf(AfterDeletions(sv, ws, others), ws[|ws| - 1]) == {}
  {
    var n := |ws| - 1;
    DelConsumerSafe(others(n, AfterDeletions(sv, ws[..n], others)), ws[n]);
  }

  /** A whole pass, from the listing to the last deletion. */
  lemma CleanupLosesNothing(listing: seq<WorkerId>, info: map<WorkerId, Time>, listed: Server, staleSeconds: real,
                            at: Time, others: (nat, Server) -> Server)
    requires StayAway(IdleOnes(listing, info, listed, staleSeconds, at), others)
    ensures var idle := IdleOnes(listing, info, listed, staleSeconds, at);
            AfterDeletions(listed, idle, others) == WithoutDeletions(listed, |idle|, others)
  {
    var idle := IdleOnes(listing, info, listed, staleSeconds, at);
    IdleHaveNothingPending(listing, info, listed, staleSeconds, at);
    DeletionsLoseNothing(listed, idle, |idle|, others);
    assert idle[..|idle|] == idle;
  }

  class Broker {
    const mode: DeliveryMode
    var stream: seq<Entry>
    var cursor: nat
    var pel: map<nat, Pending>
    var delayed: set<TaskMessage>
    var dlq: seq<DlqEntry>
    var dlqDeleted: set<nat>
    var consumers: map<WorkerId, Time>     // when each consumer was last seen

    function Contents(): Server
      reads this
    {
      Server(stream, cursor, pel, delayed, dlq, dlqDeleted)
    }

    constructor (mode: DeliveryMode)
      ensures this.mode == mode && Contents() == EMPTY && consumers == map[]
    {
      this.mode := mode;
      stream, cursor, pel, delayed, dlq, dlqDeleted := [], 0, map[], {}, [], {};
      consumers := map[];
    }

    method Publish(m: TaskMessage, now: Time, at: Time)
      modifies this
      ensures Contents() == RedisServer.Publish(old(Contents()), m, now, at) && consumers == old(consumers)
      ensures if m.eta.Some? && now < m.eta.value then delayed == old(delayed) + {m} && stream == old(stream)
              else stream == old(stream) + [Entry(m, at)] && delayed == old(delayed)
    {
      if m.eta.Some? && m.eta.value > now {
        delayed := delayed + {m};
        return;
      }
      stream := stream + [Entry(m, at)];
    }

    method Ack(tag: nat)
      modifies this
      ensures Contents() == RedisServer.Ack(old(Contents()), mode, tag) && consumers == old(consumers)
    {
      if mode == AtLeastOnce {
        pel := pel - {tag};
      }
    }

    method Nack(tag: nat, requeue: bool)
      modifies this
      ensures Contents() == if requeue then old(Contents()) else RedisServer.Ack(old(Contents()), mode, tag)
      ensures consumers == old(consumers)
    {
      if mode == AtLeastOnce {
        if !requeue {
          pel := pel - {tag};
        }
      }
    }

    method MoveToDlq(e: Envelope, at: Time)
      modifies this
      ensures Contents() == DeadLetter(old(Contents()), mode, e.tag, e.message, at) && consumers == old(consumers)
    {
      dlq := dlq + [DlqEntry(e.message, at, e.tag)];
      if mode == AtLeastOnce {
        pel := pel - {e.tag};
      }
    }

    /** XRANGE of one id. */
    method ReadLetter(k: nat) returns (m: Option<TaskMessage>)
      ensures m == if LiveDlq(Contents(), k) then Some(dlq[k].data) else None
    {
      if k >= |dlq| || k in dlqDeleted {
        return None;
      }
      return Some(dlq[k].data);
    }

    /** What others have made of the server when the next command is executed. */
    method Become(sv: Server)
      modifies this
      ensures Contents() == sv && consumers == old(consumers)
    {
      stream, cursor, pel, delayed, dlq, dlqDeleted := sv.stream, sv.cursor, sv.pel, sv.delayed, sv.dlq, sv.dlqDeleted;
    }

    /** Two commands: read the letter, then write the message back and delete the letter; `others` is
        what everybody else makes of the server between them. The answer is yes exactly if the letter was
        there when it was read, even if somebody else has replayed it since. */
    method ReplayFromDlq(k: nat, reset: bool, at: Time, others: Server -> Server) returns (replayed: bool)
      modifies this
      ensures replayed <==> LiveDlq(old(Contents()), k)
      ensures consumers == old(consumers)
      ensures if replayed then
                Contents() == WriteBack(others(old(Contents())), k, Replayed(old(dlq)[k].data, reset), at)
              else Contents() == old(Contents())
    {
      var letter := ReadLetter(k);
      if letter.None? {
        return false;
      }
      var message := letter.value;
      if reset {
        message := ResetMessage(message);
      }
      Become(others(Contents()));
      stream := stream + [Entry(message, at)];
      dlqDeleted := dlqDeleted + {k};
      return true;
    }

    /** ZRANGEBYSCORE delayed 0 now. */
    method ReadyMembers(now: Time) returns (ready: seq<TaskMessage>)
      ensures ReadyOrder(delayed, now, ready)
    {
      ready := [];
      var rest := set m | m in delayed && Ripe(m, now);
      while rest != {}
        invariant forall m :: m in rest || m in ready <==> m in delayed && Ripe(m, now)
        invariant forall m :: m in ready ==> m !in rest
        invariant NoRepeats(ready)
        invariant forall i :: 0 <= i < |ready| ==> ready[i].eta.Some?
        invariant forall i, j :: 0 <= i < j < |ready| ==> ready[i].eta.value <= ready[j].eta.value
        invariant forall i, m :: 0 <= i < |ready| && m in rest ==> ready[i].eta.value <= m.eta.value
        decreases rest
      {
        ghost var earliest := EarliestExists(rest);
        var first :| first in rest && forall m :: m in rest ==> first.eta.value <= m.eta.value;
        ready, rest := ready + [first], rest - {first};
      }
    }

    /** The promotion script: one atomic pass over the ready members. */
    method MoveReadyDelayed(now: Time, at: Time) returns (moved: nat, ghost ready: seq<TaskMessage>)
      modifies this`stream, this`delayed
      ensures ReadyOrder(old(delayed), now, ready) && moved == |ready|
      ensures Contents() == PromoteAll(old(Contents()), ready, at) && consumers == old(consumers)
      ensures stream == old(stream) + Entries(ready, at)
      ensures delayed == set m | m in old(delayed) && !Ripe(m, now)
    {
      var batch := ReadyMembers(now);
      ready := batch;
      moved := 0;
      for i := 0 to |batch|
        invariant moved == i && consumers == old(consumers)
        invariant Contents() == PromoteAll(old(Contents()), batch[..i], at)
      {
        stream := stream + [Entry(batch[i], at)];
        delayed := delayed - {batch[i]};
        moved := moved + 1;
        assert batch[..i + 1][..i] == batch[..i];
      }
      assert batch[..|batch|] == batch;
      PromoteAllMoves(old(Contents()), batch, at);
    }

    method ClaimEntry(tag: nat, w: WorkerId, at: Time) returns (e: Envelope)
      requires tag < |stream|
      modifies `pel
      ensures Contents() == Claim(old(Contents()), tag, w, at)
      ensures e == Envelope(stream[tag].msg, tag)
    {
      pel := pel[tag := Pending(w, at)];
      e := Envelope(stream[tag].msg, tag);
    }

    /** XAUTOCLAIM: the first `count` stale entries among those the server looks at change hands, in
        order; no entry is claimed before its time and nothing stops being pending. */
    method ClaimStaleMessages(w: WorkerId, minIdle: real, at: Time, count: nat, scanned: nat)
      returns (envelopes: seq<Envelope>)
      requires cursor <= |stream|
      modifies this
      ensures |envelopes| <= count && InOrder(envelopes)
      ensures forall e :: e in envelopes ==> ClaimedFairly(old(Contents()), e, minIdle, at)
      ensures forall tag :: 0 <= tag < scanned && tag < cursor && Stale(old(Contents()), tag, minIdle, at) ==>
                ClaimedOrFull(envelopes, tag, count)
      ensures Contents() == ClaimEach(old(Contents()), envelopes, w, at)
      ensures pel.Keys == old(pel).Keys && consumers == old(consumers)
      ensures forall tag :: tag in pel ==>
                pel[tag] == if Includes(envelopes, tag) then Pending(w, at) else old(pel)[tag]
    {
      envelopes := [];
      var limit := if scanned <= cursor then scanned else cursor;
      ghost var before := Contents();
      for tag := 0 to limit
        invariant ClaimedUpTo(before, envelopes, tag, minIdle, at, count)
        invariant Contents() == ClaimEach(before, envelopes, w, at)
        invariant stream == old(stream) && cursor == old(cursor) && consumers == old(consumers)
      {
        ClaimedAreTaken(before, envelopes, w, at, tag);
        if |envelopes| < count && Stale(Contents(), tag, minIdle, at) {
          var e := ClaimEntry(tag, w, at);
          ClaimOneMore(before, envelopes, e, w, at);
          OneMoreClaimed(before, envelopes, e, minIdle, at, count);
          envelopes := envelopes + [e];
        } else {
          PassedOver(before, envelopes, tag, minIdle, at, count);
        }
      }
      ClaimKeepsPending(before, envelopes, w, at);
      forall tag: nat
        ensures if Includes(envelopes, tag) then tag in pel && pel[tag] == Pending(w, at)
                else tag in pel ==> pel[tag] == old(pel)[tag]
      {
        ClaimedAreTaken(before, envelopes, w, at, tag);
      }
    }

    /** The listing comes first, in some order, then a deletion for each consumer that it shows idle for
        too long with nothing pending; `others(i, sv)` is what everybody else has made of the contents sv
        when deletion i is executed. Just these consumers are counted and deleted. */
    method CleanupStaleClients(listing: seq<WorkerId>, staleSeconds: real, at: Time, others: (nat, Server) -> Server)
      returns (removed: nat)
      requires forall w :: w in listing <==> w in consumers
      requires forall i, j :: 0 <= i < j < |listing| ==> listing[i] != listing[j]
      modifies this
      ensures var idle := IdleOnes(listing, old(consumers), old(Contents()), staleSeconds, at);
              && removed == |idle| && Contents() == AfterDeletions(old(Contents()), idle, others)
              && consumers == old(consumers) - set w | w in idle
      ensures forall w :: w in old(consumers) ==>
                (w !in consumers <==> PendingOf(old(Contents()), w) == {} && at - old(consumers)[w] > staleSeconds)
    {
      var info, listed := consumers, Contents();
      removed := 0;
      ghost var gone: seq<WorkerId> := [];
      hide Idle, PendingOf, DelConsumer, Contents;
      for i := 0 to |listing|
        invariant gone == IdleOnes(listing[..i], info, listed, staleSeconds, at) && removed == |gone|
        invariant Contents() == AfterDeletions(listed, gone, others)
        invariant consumers == info - set w | w in gone
      {
        var w := listing[i];
        assert listing[..i + 1][..i] == listing[..i];
        if Idle(info, listed, w, staleSeconds, at) {
          DeleteAfterOthers(w, removed, others);
          OneMoreDeletion(listed, gone, w, others, info);
          removed, gone := removed + 1, gone + [w];
        }
      }
      assert listing[..|listing|] == listing;
      IdleOnesAre(listing, info, listed, staleSeconds, at);
    }

    method DeleteAfterOthers(w: WorkerId, i: nat, others: (nat, Server) -> Server)
      modifies this
      ensures Contents() == DelConsumer(others(i, old(Contents())), w) && consumers == old(consumers) - {w}
    {
      Become(others(i, Contents()));
      DeleteConsumer(w);
    }

    /** XGROUP DELCONSUMER. */
    method DeleteConsumer(w: WorkerId)
      modifies this
      ensures Contents() == DelConsumer(old(Contents()), w) && consumers == old(consumers) - {w}
    {
      pel := DelConsumer(Contents(), w).pel;
      consumers := consumers - {w};
    }
  }
}
