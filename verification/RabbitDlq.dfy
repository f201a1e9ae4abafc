/** RabbitMQ dead letters: finding one message by scanning, and what failures cannot lose.

    Every call to the server may answer, fail (with or without effect), or be the last thing the
    process does. In the last case the method ends there, so what its contract says of that case
    holds between any two calls. How the server will answer its calls is part of a channel, so that
    what the methods do with the answers is determined. */
module RabbitDlq {
  import opened Types
  import RedisServer

  /** What a dead letter's body decodes to: written by the manual move (whose inner data may or may
      not decode), a native task message, or neither. */
  datatype Body =
    | Manual(taskId: TaskId, data: Option<TaskMessage>)
    | Native(task: TaskMessage)
    | Garbage

  function CurrentTaskId(b: Body): Option<TaskId> {
    match b
    case Manual(id, _) => Some(id)
    case Native(m) => Some(m.id)
    case Garbage => None
  }

  function Decode(b: Body): Option<TaskMessage> {
    match b
    case Manual(_, data) => data
    case Native(m) => Some(m)
    case Garbage => None
  }

  /** A dead letter; no two have the same tag. */
  datatype Delivery = Delivery(tag: nat, body: Body)

  predicate Matches(d: Delivery, id: TaskId) {
    CurrentTaskId(d.body) == Some(id)
  }

  /** The first message of the id among the first `limit`. */
  function Find(ready: seq<Delivery>, id: TaskId, limit: nat): Option<Delivery> {
    if limit == 0 || ready == [] then None
    else if Matches(ready[0], id) then Some(ready[0])
    else Find(ready[1..], id, limit - 1)
  }

  lemma {:induction false} FindIsFirst(ready: seq<Delivery>, id: TaskId, limit: nat)
    ensures match Find(ready, id, limit)
            case None => forall i :: 0 <= i < |ready| && i < limit ==> !Matches(ready[i], id)
            case Some(d) =>
              exists k: nat :: k < |ready| && k < limit && ready[k] == d && Matches(d, id)
                               && forall i :: 0 <= i < k ==> !Matches(ready[i], id)
  {
    if limit > 0 && ready != [] && !Matches(ready[0], id) {
      var rest := ready[1..];
      FindIsFirst(rest, id, limit - 1);
      if Find(ready, id, limit).Some? {
        var k: nat :| k < |rest| && k < limit - 1 && rest[k] == Find(ready, id, limit).value
                      && forall i :: 0 <= i < k ==> !Matches(rest[i], id);
        assert ready[k + 1] == rest[k];
        assert forall i :: 0 < i < k + 1 ==> ready[i] == rest[i - 1];
      } else {
        assert forall i :: 0 < i < |ready| ==> ready[i] == rest[i - 1];
      }
    }
  }

  /** How many letters the scan takes out before the match, or before it gives up. */
  function Skipped(ready: seq<Delivery>, id: TaskId, limit: nat): (n: nat)
    ensures n <= |ready| && n <= limit
    ensures Find(ready, id, limit).Some? ==> n < |ready| && n < limit && Find(ready, id, limit).value == ready[n]
    ensures Find(ready, id, limit).None? ==> n == limit || n == |ready|
  {
    if limit == 0 || ready == [] || Matches(ready[0], id) then 0 else Skipped(ready[1..], id, limit - 1) + 1
  }

  /** How often the scan asks for a letter: also for the match, or to learn that there is no more. */
  function Gets(ready: seq<Delivery>, id: TaskId, limit: nat): nat {
    Skipped(ready, id, limit) + if Find(ready, id, limit).Some? || Skipped(ready, id, limit) < limit then 1 else 0
  }

  datatype Reply = Answered | Errored(reached: bool) | Gone(reached: bool)

  predicate Effective(r: Reply) {
    r.Answered? || r.reached
  }

  /** How a broker method ends: with a result, with an exception, or not at all. */
  datatype Ending = Returned(b: bool) | Threw | Died

  function Failing(r: Reply): Ending {
    if r.Gone? then Died else Threw
  }

  predicate Different(ds: seq<Delivery>) {
    forall i, j :: 0 <= i < j < |ds| ==> ds[i] != ds[j]
  }

  /** Messages that are all different and that the client has not settled yet. */
  ghost predicate Fresh(ds: seq<Delivery>, processed: set<Delivery>) {
    Different(ds) && forall d :: d in ds ==> d !in processed
  }

  ghost predicate OneOfEach(ds: multiset<Delivery>) {
    forall d :: ds[d] <= 1
  }

  ghost function Letters(ds: seq<Delivery>): set<Delivery> {
    set d | d in ds
  }

  /** The match cannot be read. */
  predicate Unreadable(found: Option<Delivery>) {
    found.Some? && Decode(found.value.body).None?
  }

  /** Publish and acknowledge the match, or put it back if it cannot be read. */
  function CallsAfterScan(found: Option<Delivery>): nat {
    if found.None? then 0 else if Unreadable(found) then 1 else 2
  }

  class Channel {
    const env: nat -> Reply                // how the server answers each call
    var calls: nat
    var ready: seq<Delivery>               // dead letters the server may hand out, in order
    var unacked: multiset<Delivery>        // handed out on this channel, not settled
    var processed: set<Delivery>           // of the running operation: settled, as the client has seen
    var main: seq<TaskMessage>             // what has been published to the main queue

    ghost var gone: seq<Delivery>          // dead letters that the server has deleted, in order

    /** Every dead letter there ever was: none is lost but those in `gone`. */
    ghost function All(): multiset<Delivery>
      reads this
    {
      multiset(ready) + unacked + multiset(gone)
    }

    /** Dead letters may have changed places, and none has left. */
    twostate predicate Kept()
      reads this
    {
      All() == old(All()) && gone == old(gone)
    }

    /** Just this one has left. */
    twostate predicate Lost(d: Delivery)
      reads this
    {
      All() == old(All()) && gone == old(gone) + [d]
    }

    ghost predicate Distinct()
      reads this
    {
      OneOfEach(multiset(ready) + unacked)
    }

    ghost predicate AllAnswered(from: nat, to: nat) {
      forall k :: from <= k < to ==> env(k).Answered?
    }

    /** The last call is the first one that did not answer. */
    ghost predicate FirstTrouble(from: nat, r: Reply)
      reads this
    {
      from < calls && AllAnswered(from, calls - 1) && r == env(calls - 1) && !r.Answered?
    }

    constructor (letters: seq<Delivery>, env: nat -> Reply)
      requires Different(letters)
      ensures ready == letters && unacked == multiset{} && processed == {} && main == [] && gone == [] && calls == 0
      ensures this.env == env && Distinct()
    {
      this.env, calls := env, 0;
      ready, unacked, processed, main, gone := letters, multiset{}, {}, [], [];
      DifferentOnce(letters);
    }

    /** basic_get. A reply lost on the way still hands the message out. */
    method Get() returns (d: Option<Delivery>, r: Reply)
      modifies this
      ensures main == old(main) && Kept() && processed == old(processed)
      ensures r == env(old(calls)) && calls == old(calls) + 1
      ensures !r.Answered? ==> d == None && unacked >= old(unacked)
      ensures r.Answered? && old(ready) == [] ==> d == None && ready == [] && unacked == old(unacked)
      ensures r.Answered? && old(ready) != [] ==>
                && d == Some(old(ready)[0]) && ready == old(ready)[1..]
                && unacked == old(unacked) + multiset{old(ready)[0]}
    {
      r, calls := env(calls), calls + 1;
      d := None;
      if Effective(r) && ready != [] {
        if r.Answered? {
          d := Some(ready[0]);
        }
        TakenOut(ready, unacked);
        unacked := unacked + multiset{ready[0]};
        ready := ready[1..];
      }
    }

    /** The client refuses, without asking the server, to settle a message that it has seen settled. */
    method Ack(d: Delivery) returns (r: Reply)
      modifies this
      ensures main == old(main) && ready == old(ready)
      ensures d in old(processed) ==>
                && r == Errored(false) && calls == old(calls)
                && unacked == old(unacked) && processed == old(processed) && Kept()
      ensures d !in old(processed) ==>
                && r == env(old(calls)) && calls == old(calls) + 1
                && unacked == (if Effective(r) then old(unacked) - multiset{d} else old(unacked))
                && processed == (if r.Answered? then old(processed) + {d} else old(processed))
                && if Effective(r) && d in old(unacked) then Lost(d) else Kept()
    {
      if d in processed {
        return Errored(false);
      }
      r, calls := env(calls), calls + 1;
      if Effective(r) {
        if d in unacked {
          OneGone(ready, unacked, gone, d);
          gone := gone + [d];
        } else {
          assert unacked - multiset{d} == unacked;
        }
        unacked := unacked - multiset{d};
      }
      if r.Answered? {
        processed := processed + {d};
      }
    }

    method AckMatch(d: Delivery, ghost rest: multiset<Delivery>) returns (r: Reply)
      requires d !in processed && unacked == rest + multiset{d}
      modifies this
      ensures main == old(main) && r == env(old(calls)) && calls == old(calls) + 1
      ensures if Effective(r) then Lost(d) && unacked == rest else Kept()
      ensures processed == if r.Answered? then old(processed) + {d} else old(processed)
    {
      OneBack(rest, d);
      r := Ack(d);
    }

    /** The server puts a message back where it likes, if it is out at all. */
    method Return(d: Delivery)
      modifies this`ready, this`unacked
      ensures Kept() && unacked == old(unacked) - multiset{d}
    {
      if d in unacked {
        var p :| 0 <= p <= |ready|;
        PutBack(ready, unacked, p, d);
        ready, unacked := WithAt(ready, p, d), unacked - multiset{d};
      } else {
        assert unacked - multiset{d} == unacked;
      }
    }

    /** Requeue, unless the client has seen the message settled. */
    method NackRequeue(d: Delivery) returns (r: Reply)
      modifies this
      ensures main == old(main) && Kept()
      ensures d in old(processed) ==>
                r == Errored(false) && calls == old(calls) && unacked == old(unacked) && processed == old(processed)
      ensures d !in old(processed) ==>
                && r == env(old(calls)) && calls == old(calls) + 1
                && unacked == (if Effective(r) then old(unacked) - multiset{d} else old(unacked))
                && processed == if r.Answered? then old(processed) + {d} else old(processed)
    {
      if d in processed {
        return Errored(false);
      }
      r, calls := env(calls), calls + 1;
      if Effective(r) {
        Return(d);
      }
      if r.Answered? {
        processed := processed + {d};
      }
    }

    method Publish(m: TaskMessage) returns (r: Reply)
      modifies this
      ensures ready == old(ready) && unacked == old(unacked) && processed == old(processed) && Kept()
      ensures r == env(old(calls)) && calls == old(calls) + 1
      ensures main == if Effective(r) then old(main) + [m] else old(main)
    {
      r, calls := env(calls), calls + 1;
      if Effective(r) {
        main := main + [m];
      }
    }

    /** So far the scan has only set messages aside. */
    ghost predicate Scanned(all: seq<Delivery>, id: TaskId, limit: nat, aside: seq<Delivery>, from: nat,
                            out: multiset<Delivery>)
      reads this
    {
      && |aside| <= limit && all == aside + ready && unacked == out + multiset(aside)
      && calls == from + |aside| && AllAnswered(from, calls)
      && Find(all, id, limit) == Find(ready, id, limit - |aside|)
      && Skipped(all, id, limit) == |aside| + Skipped(ready, id, limit - |aside|)
    }

    /** And this message, or the lack of one, ends it. */
    ghost predicate ScanEnds(all: seq<Delivery>, id: TaskId, limit: nat, aside: seq<Delivery>, from: nat,
                             out: multiset<Delivery>,
                             message: Option<Delivery>)
      reads this
    {
      && Find(all, id, limit) == message && Skipped(all, id, limit) == |aside|
      && unacked == out + multiset(aside) + (if message.Some? then multiset{message.value} else multiset{})
      && calls == from + |aside| + 1 && AllAnswered(from, calls) && (message.None? ==> |aside| < limit)
      && aside <= all
    }

    method ScanNext(id: TaskId, limit: nat, aside: seq<Delivery>, ghost all: seq<Delivery>, ghost from: nat,
                    ghost out: multiset<Delivery>)
      returns (message: Option<Delivery>, r: Reply)
      requires |aside| < limit && Scanned(all, id, limit, aside, from, out)
      modifies this
      ensures main == old(main) && Kept() && processed == old(processed)
      ensures if !r.Answered? then
                FirstTrouble(from, r) && calls == from + |aside| + 1 && |aside| <= Skipped(all, id, limit)
              else if message.None? || Matches(message.value, id) then
                ScanEnds(all, id, limit, aside, from, out, message)
              else Scanned(all, id, limit, aside + [message.value], from, out)
    {
      ghost var rest := ready;
      message, r := Get();
      if r.Answered? && message.Some? {
        assert rest == [message.value] + ready;
        assert all == aside + [message.value] + ready;
        assert multiset(aside + [message.value]) == multiset(aside) + multiset{message.value};
      }
    }

    /** Take messages out until one matches, setting the others aside. */
    method Scan(id: TaskId, limit: nat) returns (target: Option<Delivery>, aside: seq<Delivery>, r: Reply)
      requires Distinct()
      modifies this
      ensures Fresh(aside, processed) && (target.Some? ==> target.value !in aside && target.value in unacked)
      ensures main == old(main) && Kept() && processed == {}
      ensures aside <= old(ready) && |aside| <= Skipped(old(ready), id, limit)
      ensures r.Answered? ==>
                && calls == old(calls) + Gets(old(ready), id, limit) && AllAnswered(old(calls), calls)
                && target == Find(old(ready), id, limit) && |aside| == Skipped(old(ready), id, limit)
                && unacked == old(unacked) + multiset(aside)
                              + if target.Some? then multiset{target.value} else multiset{}
      ensures !r.Answered? ==>
                && FirstTrouble(old(calls), r) && calls <= old(calls) + Gets(old(ready), id, limit)
                && target == None && |aside| == calls - 1 - old(calls)
    {
      processed := {};
      target, aside, r := ScanLoop(id, limit);
      DistinctDifferent(old(ready), old(unacked));
      PrefixDifferent(old(ready), aside);
    }

    method ScanLoop(id: TaskId, limit: nat) returns (target: Option<Delivery>, aside: seq<Delivery>, r: Reply)
      modifies this
      ensures main == old(main) && Kept() && processed == old(processed)
      ensures aside <= old(ready) && |aside| <= Skipped(old(ready), id, limit)
      ensures r.Answered? ==>
                && calls == old(calls) + Gets(old(ready), id, limit) && AllAnswered(old(calls), calls)
                && target == Find(old(ready), id, limit) && |aside| == Skipped(old(ready), id, limit)
                && unacked == old(unacked) + multiset(aside)
                              + if target.Some? then multiset{target.value} else multiset{}
      ensures !r.Answered? ==>
                && FirstTrouble(old(calls), r) && calls <= old(calls) + Gets(old(ready), id, limit)
                && target == None && |aside| == calls - 1 - old(calls)
    {
      target, aside, r := None, [], Answered;
      for scanned := 0 to limit
        invariant r.Answered? && main == old(main) && Kept() && processed == old(processed)
        invariant |aside| == scanned && Scanned(old(ready), id, limit, aside, old(calls), old(unacked))
      {
        var message;
        message, r := ScanNext(id, limit, aside, old(ready), old(calls), old(unacked));
        if !r.Answered? || message.None? {
          return;
        }
        if Matches(message.value, id) {
          target := message;
          return;
        }
        aside := aside + [message.value];
      }
    }

    /** The first i messages of the list have been requeued, one answered call each. */
    ghost predicate Requeued(msgs: seq<Delivery>, i: nat, from: nat, settled: set<Delivery>, out: multiset<Delivery>)
      requires i <= |msgs|
      reads this
    {
      && calls == from + i && AllAnswered(from, calls)
      && processed == settled + Letters(msgs[..i])
      && (multiset(msgs) <= out ==> unacked + multiset(msgs[..i]) == out)
    }

    lemma AllRequeued(msgs: seq<Delivery>, from: nat, settled: set<Delivery>, out: multiset<Delivery>,
                      rest: multiset<Delivery>)
      requires Requeued(msgs, |msgs|, from, settled, out)
      ensures msgs != [] ==> msgs[0] in processed
      ensures out == rest + multiset(msgs) ==> unacked == rest
      ensures processed == settled + Letters(msgs)
    {
      assert msgs[..|msgs|] == msgs;
      if out == rest + multiset(msgs) {
        Cancel(unacked, multiset(msgs), rest);
      }
    }

    method RequeueNext(msgs: seq<Delivery>, i: nat, ghost from: nat, ghost settled: set<Delivery>,
                       ghost out: multiset<Delivery>)
      returns (r: Reply)
      requires i < |msgs| && (msgs[i] in processed || (Fresh(msgs, settled) && Requeued(msgs, i, from, settled, out)))
      modifies this
      ensures main == old(main) && Kept()
      ensures if msgs[i] in old(processed) then
                r == Errored(false) && calls == old(calls) && unacked == old(unacked) && processed == old(processed)
              else if r.Answered? then Requeued(msgs, i + 1, from, settled, out)
              else FirstTrouble(from, r) && calls == from + i + 1 && processed == old(processed)
    {
      Split(msgs, i);
      if msgs[i] !in processed && multiset(msgs) <= out {
        StillOut(msgs, i, unacked, out);
      }
      r := NackRequeue(msgs[i]);
      assert Letters(msgs[..i + 1]) == Letters(msgs[..i]) + {msgs[i]};
    }

    /** Requeue a list of messages, stopping at the first call that does not answer. */
    method RequeueAll(msgs: seq<Delivery>, ghost rest: multiset<Delivery>) returns (r: Reply)
      requires msgs != [] ==> msgs[0] in processed || Fresh(msgs, processed)
      modifies this
      ensures main == old(main) && Kept()
      ensures msgs != [] && msgs[0] in old(processed) ==>
                r == Errored(false) && calls == old(calls) && unacked == old(unacked) && processed == old(processed)
      ensures Fresh(msgs, old(processed)) && r.Answered? ==>
                && calls == old(calls) + |msgs| && AllAnswered(old(calls), calls)
                && (msgs != [] ==> StartedRequeue(msgs))
                && (old(unacked) == rest + multiset(msgs) ==> unacked == rest)
      ensures Fresh(msgs, old(processed)) && !r.Answered? ==>
                && FirstTrouble(old(calls), r) && calls <= old(calls) + |msgs|
                && (StartedRequeue(msgs) <==> calls > old(calls) + 1)
                && (calls == old(calls) + 1 ==> processed == old(processed))
      ensures processed <= old(processed) + Letters(msgs)
    {
      r := Answered;
      for i := 0 to |msgs|
        invariant r.Answered? && main == old(main) && Kept()
        invariant i == 0 ==> calls == old(calls) && unacked == old(unacked) && processed == old(processed)
        invariant Fresh(msgs, old(processed)) ==> Requeued(msgs, i, old(calls), old(processed), old(unacked))
        invariant i > 0 ==> Fresh(msgs, old(processed))
        invariant processed <= old(processed) + Letters(msgs)
      {
        assert i > 0 ==> msgs[i] !in Letters(msgs[..i]) && msgs[..i][0] == msgs[0];
        r := RequeueNext(msgs, i, old(calls), old(processed), old(unacked));
        if !r.Answered? {
          return;
        }
      }
      if Fresh(msgs, old(processed)) {
        AllRequeued(msgs, old(calls), old(processed), old(unacked), rest);
      }
    }

    /** Ready for a recovery: the match can still be settled, and so can all messages set aside or, if
        some have been settled, not the first. */
    ghost predicate Recoverable(target: Option<Delivery>, aside: seq<Delivery>)
      reads this
    {
      && (Fresh(aside, processed) || StartedRequeue(aside))
      && (target.Some? ==> target.value !in processed && target.value !in aside)
    }

    ghost predicate StartedRequeue(aside: seq<Delivery>)
      reads this
    {
      aside != [] && aside[0] in processed
    }

    /** Where the try block ended: in the scan, with what had been set aside; or after it. */
    ghost predicate EndedAt(from: nat, gets: nat, skipped: nat, found: Option<Delivery>, target: Option<Delivery>,
                            aside: seq<Delivery>)
      reads this
    {
      if calls - 1 < from + gets then target == None && |aside| == calls - 1 - from
      else target == found && |aside| == skipped
    }

    /** How many calls it takes to put everything back, up to the one that is refused. */
    ghost function ToRecover(target: Option<Delivery>, aside: seq<Delivery>): nat
      reads this
    {
      (if target.Some? then 1 else 0) + if StartedRequeue(aside) then 0 else |aside|
    }

    /** The scan of a replay: only the match, if any, stays out. */
    method ScanAndRequeue(id: TaskId, limit: nat) returns (target: Option<Delivery>, aside: seq<Delivery>, r: Reply)
      requires Distinct()
      modifies this
      ensures main == old(main) && Kept() && Recoverable(target, aside)
      ensures r.Answered? ==>
                && calls == old(calls) + Gets(old(ready), id, limit) + |aside| && AllAnswered(old(calls), calls)
                && target == Find(old(ready), id, limit) && |aside| == Skipped(old(ready), id, limit)
                && unacked == old(unacked) + if target.Some? then multiset{target.value} else multiset{}
      ensures r.Answered? ==> (StartedRequeue(aside) <==> aside != [])
      ensures !r.Answered? ==>
                && FirstTrouble(old(calls), r)
                && calls <= old(calls) + Gets(old(ready), id, limit) + Skipped(old(ready), id, limit)
                && (StartedRequeue(aside) <==> calls - 1 > old(calls) + Gets(old(ready), id, limit))
                && EndedAt(old(calls), Gets(old(ready), id, limit), Skipped(old(ready), id, limit),
                           Find(old(ready), id, limit), target, aside)
    {
      hide Find, Skipped, Gets, All;
      target, aside, r := Scan(id, limit);
      if !r.Answered? {
        return;
      }
      ghost var rest := old(unacked) + if target.Some? then multiset{target.value} else multiset{};
      assert unacked == rest + multiset(aside);
      r := RequeueAll(aside, rest);
    }

    /** A readable match is published by the call at `pub`, if all before it have answered, and deleted
        by the next one, if that one has answered too; and nothing else happens. */
    twostate predicate MovedBy(found: Option<Delivery>, reset: bool, pub: nat)
      requires old(calls) <= pub
      reads this
    {
      if found.Some? && !Unreadable(found) && AllAnswered(old(calls), pub) then
        && (var m := RedisServer.Replayed(Decode(found.value.body).value, reset);
            main == old(main) + if Effective(env(pub)) then [m] else [])
        && if env(pub).Answered? && Effective(env(pub + 1)) then Lost(found.value) else Kept()
      else main == old(main) && Kept()
    }

    /** Publish the target, and only then settle its dead letter. */
    method PublishThenAck(d: Delivery, reset: bool, ghost rest: multiset<Delivery>) returns (r: Reply)
      requires unacked == rest + multiset{d} && d !in processed
      modifies this
      ensures MovedBy(Some(d), reset, old(calls))
      ensures Unreadable(Some(d)) ==>
                && r == Errored(false) && calls == old(calls) && unacked == old(unacked) && processed == old(processed)
      ensures !Unreadable(Some(d)) && r.Answered? ==>
                unacked == rest && calls == old(calls) + 2 && AllAnswered(old(calls), calls)
      ensures !Unreadable(Some(d)) && !r.Answered? ==>
                FirstTrouble(old(calls), r) && calls <= old(calls) + 2 && processed == old(processed)
    {
      hide All;
      var task := Decode(d.body);
      if task.None? {
        return Errored(false);
      }
      r := Publish(RedisServer.Replayed(task.value, reset));
      if !r.Answered? {
        return;
      }
      r := AckMatch(d, rest);
    }

    /** The exception handler: put the target back, then the others, some of which may be back. If one
        of its own calls fails, it raises or dies. */
    method Recover(target: Option<Delivery>, aside: seq<Delivery>) returns (e: Ending)
      requires Recoverable(target, aside)
      modifies this
      ensures main == old(main) && Kept() && calls >= old(calls)
      ensures e == (if AllAnswered(old(calls), calls) && !old(StartedRequeue(aside)) then Returned(false)
                    else if calls > old(calls) && env(calls - 1).Gone? then Died else Threw)
      ensures AllAnswered(old(calls), calls) ==> calls == old(calls) + old(ToRecover(target, aside))
      ensures AllAnswered(old(calls), calls) && (old(StartedRequeue(aside)) || aside == []) ==>
                unacked == old(unacked) - if target.Some? then multiset{target.value} else multiset{}
    {
      var r := Answered;
      if target.Some? {
        r := NackRequeue(target.value);
      }
      if r.Answered? {
        r := RequeueAll(aside, unacked);
      }
      e := if r.Answered? then Returned(false) else Failing(r);
    }

    /** The try block ends at the first call that does not answer, before which some message has been
        requeued exactly if all letters had been fetched and one requeue had answered. */
    ghost predicate Troubled(from: nat, gets: nat, skipped: nat, unreadable: bool, aside: seq<Delivery>, r: Reply)
      reads this
    {
      && FirstTrouble(from, r)
      && (StartedRequeue(aside) <==> skipped > 0 && calls - 1 > from + gets)
      && (unreadable ==> calls <= from + gets + skipped)
    }

    /** Or everything has answered, and the match cannot be read. */
    ghost predicate Unread(from: nat, gets: nat, skipped: nat, target: Option<Delivery>, aside: seq<Delivery>, r: Reply)
      reads this
    {
      && target.Some? && r == Errored(false)
      && calls == from + gets + skipped && AllAnswered(from, calls)
      && |aside| == skipped && (StartedRequeue(aside) <==> aside != [])
    }

    /** The try block of a replay. */
    method TryReplay(id: TaskId, reset: bool, limit: nat)
      returns (target: Option<Delivery>, aside: seq<Delivery>, r: Reply)
      requires Distinct()
      modifies this
      ensures calls >= old(calls)
      ensures var found := Find(old(ready), id, limit);
              var gets, skipped := Gets(old(ready), id, limit), Skipped(old(ready), id, limit);
              && MovedBy(found, reset, old(calls) + gets + skipped)
              && if r.Answered? then
                   && target == found && !Unreadable(found) && unacked == old(unacked)
                   && AllAnswered(old(calls), calls) && calls == old(calls) + gets + skipped + CallsAfterScan(found)
                 else
                   && Recoverable(target, aside)
                   && (|| (Troubled(old(calls), gets, skipped, Unreadable(found), aside, r)
                           && ToRecover(target, aside) == CallsToRecover(old(calls), gets, skipped, found, calls - 1))
                       || (&& Unreadable(found) && Unread(old(calls), gets, skipped, target, aside, r)
                           && target == found && unacked == old(unacked) + multiset{found.value}))
    {
      hide Find, Skipped, Gets, All;
      target, aside, r := ScanAndRequeue(id, limit);
      if r.Answered? && target.Some? {
        label requeued:
        r := PublishThenAck(target.value, reset, old(unacked));
        assert MovedBy@requeued(target, reset,
                                old(calls) + Gets(old(ready), id, limit) + Skipped(old(ready), id, limit));
      }
    }

    /** Of all calls in a range, one raises, and the others answer. */
    ghost predicate OneError(from: nat, j: nat, to: nat) {
      from <= j < to && env(j).Errored? && forall k :: from <= k < to && k != j ==> env(k).Answered?
    }

    /** Where the only error of the script is, if the calls get that far. */
    lemma ErrorAt(j: nat, to: nat)
      requires env(j).Errored? && forall k: nat :: k < to && k != j ==> env(k).Answered?
      ensures if j < to then OneError(0, j, to) else AllAnswered(0, to)
    {}

    lemma NoError(from: nat, to: nat)
      requires AllAnswered(from, to)
      ensures forall j: nat :: !OneError(from, j, to)
    {}

    /** Exactly one call has raised; and if the match cannot be read, which is noticed after the last
        requeue and is an error as well, it is not this one. */
    ghost predicate OneErrorInTry(from: nat, gets: nat, skipped: nat, unreadable: bool, j: nat, to: nat) {
      OneError(from, j, to) && (unreadable ==> j < from + gets + skipped)
    }

    /** There is exactly one error, and no message set aside had been requeued before. */
    ghost predicate NoIsDue(from: nat, gets: nat, skipped: nat, unreadable: bool, to: nat) {
      exists j: nat :: OneErrorInTry(from, gets, skipped, unreadable, j, to) && !(skipped > 0 && j > from + gets)
    }

    /** How a method ends that has met an error. */
    ghost function AfterError(from: nat, gets: nat, skipped: nat, unreadable: bool, to: nat): Ending {
      if NoIsDue(from, gets, skipped, unreadable, to) then Returned(false)
      else if to > from && env(to - 1).Gone? then Died
      else Threw
    }

    lemma TwoFailures(from: nat, i: nat, k: nat, to: nat)
      requires from <= i < k < to && !env(i).Answered? && !env(k).Answered?
      ensures forall j: nat :: !OneError(from, j, to)
    {}

    /** The exception handler after the try block. */
    method Handle(target: Option<Delivery>, aside: seq<Delivery>, r: Reply, ghost from: nat, ghost gets: nat,
                  ghost skipped: nat,
                  ghost unreadable: bool, ghost rest: multiset<Delivery>)
      returns (e: Ending)
      requires Recoverable(target, aside) && !r.Answered?
      requires || Troubled(from, gets, skipped, unreadable, aside, r)
               || (&& unreadable && Unread(from, gets, skipped, target, aside, r)
                   && unacked == rest + multiset{target.value})
      modifies this
      ensures main == old(main) && Kept() && e != Returned(true)
      ensures AllAnswered(from, calls) ==>
                && unreadable && calls == from + gets + skipped + 1 && unacked == rest
                && e == if skipped == 0 then Returned(false) else Threw
      ensures !AllAnswered(from, calls) ==> e == AfterError(from, gets, skipped, unreadable, calls)
      ensures forall j: nat :: OneErrorInTry(from, gets, skipped, unreadable, j, calls) ==>
                j == old(calls) - 1 && calls == j + 1 + old(ToRecover(target, aside))
    {
      if r.Gone? {
        return Died;
      }
      ghost var mid := calls;
      if target.Some? {
        OneBack(rest, target.value);
      }
      e := Recover(target, aside);
      if old(FirstTrouble(from, r)) {
        HandledTrouble(from, gets, skipped, unreadable, mid, calls);
      }
    }

    lemma HandledTrouble(from: nat, gets: nat, skipped: nat, unreadable: bool, mid: nat, to: nat)
      requires from < mid <= to && AllAnswered(from, mid - 1) && env(mid - 1).Errored?
      requires unreadable ==> mid <= from + gets + skipped
      ensures NoIsDue(from, gets, skipped, unreadable, to) <==>
                AllAnswered(mid, to) && !(skipped > 0 && mid - 1 > from + gets)
      ensures forall j: nat :: OneError(from, j, to) ==> j == mid - 1 && AllAnswered(mid, to)
    {
      if AllAnswered(mid, to) {
        assert OneError(from, mid - 1, to);
        assert OneErrorInTry(from, gets, skipped, unreadable, mid - 1, to);
      } else {
        var k :| mid <= k < to && !env(k).Answered?;
        TwoFailures(from, mid - 1, k, to);
      }
    }

    /** The calls that put back what had been taken out, after one error at j. */
    ghost function CallsToRecover(from: nat, gets: nat, skipped: nat, found: Option<Delivery>, j: nat): nat
      requires from <= j
    {
      if j < from + gets then j - from
      else (if found.Some? then 1 else 0) + if j == from + gets then skipped else 0
    }

    /** How a replay ends that makes the calls in this range, and how many they are unless there are two
        errors or the process dies. */
    ghost predicate ReplayEnds(found: Option<Delivery>, gets: nat, skipped: nat, from: nat, to: nat, e: Ending) {
      && from <= to
      && (e == Returned(true) <==> found.Some? && !Unreadable(found) && AllAnswered(from, to))
      && (AllAnswered(from, to) ==>
            && to == from + gets + skipped + CallsAfterScan(found)
            && (e == Threw <==> Unreadable(found) && skipped > 0) && e != Died)
      && (!AllAnswered(from, to) ==> e == AfterError(from, gets, skipped, Unreadable(found), to))
      && forall j: nat :: OneErrorInTry(from, gets, skipped, Unreadable(found), j, to) ==>
                            to == j + 1 + CallsToRecover(from, gets, skipped, found, j)
    }

    twostate predicate Moves(id: TaskId, reset: bool, limit: nat)
      reads this
    {
      MovedBy(Find(old(ready), id, limit), reset,
              old(calls) + Gets(old(ready), id, limit) + Skipped(old(ready), id, limit))
    }

    method ReplayLetter(id: TaskId, reset: bool, limit: nat, ghost found: Option<Delivery>, ghost gets: nat,
                        ghost skipped: nat)
      returns (e: Ending)
      requires Distinct()
      requires found == Find(ready, id, limit) && gets == Gets(ready, id, limit) && skipped == Skipped(ready, id, limit)
      modifies this
      ensures MovedBy(found, reset, old(calls) + gets + skipped)
      ensures ReplayEnds(found, gets, skipped, old(calls), calls, e)
      ensures AllAnswered(old(calls), calls) ==> unacked == old(unacked)
    {
      hide Find, Skipped, Gets, All;
      var target, aside, r := TryReplay(id, reset, limit);
      if r.Answered? {
        NoError(old(calls), calls);
        return Returned(target.Some?);
      }
      e := Handle(target, aside, r, old(calls), gets, skipped, Unreadable(found), old(unacked));
    }

    /** Whatever fails, and wherever the process dies: a readable match is published and deleted as far
        as the calls for it have come, and no other dead letter leaves.

        If all calls answer, the answer is yes exactly when the scan reaches a message of the id and that
        message decodes; then the DLQ loses just that message and the main queue gains it once.

        A match that does not decode is an error. An error is answered by no exactly if it is the only
        one, the handler's own calls included, and no message set aside had been requeued before;
        otherwise that message is requeued again, and the method raises, or the process has died. */
    method ReplayFromDlq(id: TaskId, reset: bool, limit: nat) returns (e: Ending)
      requires Distinct()
      modifies this
      ensures Moves(id, reset, limit)
      ensures ReplayEnds(Find(old(ready), id, limit), Gets(old(ready), id, limit), Skipped(old(ready), id, limit),
                         old(calls), calls, e)
      ensures AllAnswered(old(calls), calls) ==> unacked == old(unacked)
    {
      hide Find, Skipped, Gets, All, ReplayEnds;
      e := ReplayLetter(id, reset, limit, Find(ready, id, limit), Gets(ready, id, limit), Skipped(ready, id, limit));
    }

    ghost function DeletesToRecover(from: nat, gets: nat, settled: nat, skipped: nat, j: nat): nat
      requires from <= j
    {
      if j < from + gets then j - from else if j <= from + settled then skipped else 0
    }

    /** The call that settles the match is reached and takes effect. */
    ghost predicate Deletes(found: Option<Delivery>, from: nat, settle: nat) {
      found.Some? && AllAnswered(from, settle) && Effective(env(settle))
    }

    /** The match is deleted by the call at `settle`, if all before it have answered; nothing else goes. */
    twostate predicate DeletedBy(found: Option<Delivery>, settle: nat)
      requires old(calls) <= settle
      reads this
    {
      if Deletes(found, old(calls), settle) then Lost(found.value) else Kept()
    }

    /** How a deletion ends that makes the calls in this range. */
    ghost predicate DeletionEnds(found: Option<Delivery>, gets: nat, settled: nat, skipped: nat, from: nat, to: nat,
                                 e: Ending) {
      && from <= to
      && (AllAnswered(from, to) ==> e == Returned(found.Some?) && to == from + settled + skipped)
      && (!AllAnswered(from, to) ==> e == AfterError(from, settled, skipped, false, to))
      && forall j: nat :: OneErrorInTry(from, settled, skipped, false, j, to) ==>
                            to == j + 1 + DeletesToRecover(from, gets, settled, skipped, j)
    }

    /** The scan of a deletion, which settles the match on the spot. */
    method ScanAndAck(id: TaskId, limit: nat) returns (target: Option<Delivery>, aside: seq<Delivery>, r: Reply)
      requires Distinct()
      modifies this
      ensures main == old(main) && Fresh(aside, processed)
      ensures DeletedBy(Find(old(ready), id, limit), old(calls) + Gets(old(ready), id, limit))
      ensures r.Answered? ==>
                && calls == old(calls) + Settled(old(ready), id, limit) && AllAnswered(old(calls), calls)
                && target == Find(old(ready), id, limit) && |aside| == Skipped(old(ready), id, limit)
                && unacked == old(unacked) + multiset(aside)
      ensures !r.Answered? ==>
                && FirstTrouble(old(calls), r) && calls <= old(calls) + Settled(old(ready), id, limit)
                && |aside| == if calls - 1 < old(calls) + Gets(old(ready), id, limit) then calls - 1 - old(calls)
                              else Skipped(old(ready), id, limit)
    {
      hide Find, Skipped, Gets, All;
      target, aside, r := Scan(id, limit);
      if r.Answered? && target.Some? {
        r := AckMatch(target.value, old(unacked) + multiset(aside));
      }
    }

    /** The try block of a deletion. */
    method TryDelete(id: TaskId, limit: nat) returns (target: Option<Delivery>, aside: seq<Delivery>, r: Reply)
      requires Distinct()
      modifies this
      ensures main == old(main) && calls >= old(calls)
      ensures DeletedBy(Find(old(ready), id, limit), old(calls) + Gets(old(ready), id, limit))
      ensures r.Answered? ==>
                && target == Find(old(ready), id, limit) && AllAnswered(old(calls), calls) && unacked == old(unacked)
                && calls == old(calls) + Settled(old(ready), id, limit) + Skipped(old(ready), id, limit)
      ensures !r.Answered? ==>
                && Recoverable(None, aside)
                && Troubled(old(calls), Settled(old(ready), id, limit), Skipped(old(ready), id, limit), false, aside, r)
                && ToRecover(None, aside)
                   == DeletesToRecover(old(calls), Gets(old(ready), id, limit), Settled(old(ready), id, limit),
                                       Skipped(old(ready), id, limit), calls - 1)
    {
      hide Find, Skipped, Gets, All;
      target, aside, r := ScanAndAck(id, limit);
      if r.Answered? {
        r := RequeueAll(aside, old(unacked));
      }
    }

    method DeleteLetter(id: TaskId, limit: nat, ghost found: Option<Delivery>, ghost gets: nat, ghost settled: nat,
                        ghost skipped: nat)
      returns (e: Ending)
      requires Distinct()
      requires found == Find(ready, id, limit) && gets == Gets(ready, id, limit)
      requires settled == Settled(ready, id, limit) && skipped == Skipped(ready, id, limit)
      modifies this
      ensures main == old(main) && DeletedBy(found, old(calls) + gets)
      ensures DeletionEnds(found, gets, settled, skipped, old(calls), calls, e)
      ensures AllAnswered(old(calls), calls) ==> unacked == old(unacked)
    {
      hide Find, Skipped, Gets, All;
      var target, aside, r := TryDelete(id, limit);
      if r.Answered? {
        NoError(old(calls), calls);
        return Returned(target.Some?);
      }
      e := Handle(None, aside, r, old(calls), settled, skipped, false, old(unacked));
    }

    /** Whatever fails: the match leaves exactly if the call that settles it is reached and takes effect,
        and no other dead letter does. If all calls answer, the answer is yes exactly when the scan
        reaches a match, and nothing stays unacknowledged. An error is answered by no, even if the match
        is gone already, exactly if it is the only one and no message set aside had been requeued
        before; otherwise the method raises, or the process has died. */
    method DeleteFromDlq(id: TaskId, limit: nat) returns (e: Ending)
      requires Distinct()
      modifies this
      ensures main == old(main)
      ensures DeletedBy(Find(old(ready), id, limit), old(calls) + Gets(old(ready), id, limit))
      ensures DeletionEnds(Find(old(ready), id, limit), Gets(old(ready), id, limit), Settled(old(ready), id, limit),
                           Skipped(old(ready), id, limit), old(calls), calls, e)
      ensures AllAnswered(old(calls), calls) ==> unacked == old(unacked)
    {
      hide Find, Skipped, Gets, All, Settled, DeletionEnds;
      e := DeleteLetter(id, limit, Find(ready, id, limit), Gets(ready, id, limit), Settled(ready, id, limit),
                        Skipped(ready, id, limit));
    }

    /** The input at which a replay raises instead of answering no: two letters, the second of which is
        replayed, and a publish that fails. */
    lemma RaisesInsteadOfAnswering(first: TaskMessage, second: TaskMessage, to: nat, e: Ending)
      requires first.id != second.id && env(3).Errored? && forall k: nat :: k != 3 ==> env(k).Answered?
      requires var letters := Two(first, second);
               ReplayEnds(Find(letters, second.id, 2), Gets(letters, second.id, 2), Skipped(letters, second.id, 2),
                          0, to, e)
      ensures e == Threw
    {
      SecondOfTwo(first, second);
      ErrorAt(3, to);
    }

    /** And one at which nothing had been requeued: a single letter, on a connection that is lost when the
        publish is sent, so that putting the letter back fails as well. */
    lemma RaisesOnLostConnection(m: TaskMessage, to: nat, e: Ending)
      requires env(0).Answered? && forall k: nat :: k > 0 ==> env(k).Errored?
      requires var letters := [Delivery(0, Native(m))];
               ReplayEnds(Find(letters, m.id, 1), Gets(letters, m.id, 1), Skipped(letters, m.id, 1), 0, to, e)
      ensures e == Threw
    {
      var letters := [Delivery(0, Native(m))];
      assert Find(letters, m.id, 1) == Some(letters[0]) && Skipped(letters, m.id, 1) == 0;
      if to <= 2 {
        ErrorAt(1, to);
        assert to == 2 ==> OneErrorInTry(0, 1, 0, false, 1, to);
      } else {
        TwoFailures(0, 1, 2, to);
        assert !AllAnswered(0, to);
      }
    }

    /** A deletion that answers no although it has deleted the letter: two letters, the second of which is
        deleted, and a requeue of the first that fails. */
    lemma AnswersNoThoughGone(first: TaskMessage, second: TaskMessage, to: nat, e: Ending)
      requires first.id != second.id && env(3).Errored? && forall k: nat :: k != 3 ==> env(k).Answered?
      requires var letters := Two(first, second);
               DeletionEnds(Find(letters, second.id, 2), Gets(letters, second.id, 2), Settled(letters, second.id, 2),
                            Skipped(letters, second.id, 2), 0, to, e)
      ensures var letters := Two(first, second);
              e == Returned(false) && Deletes(Find(letters, second.id, 2), 0, Gets(letters, second.id, 2))
    {
      SecondOfTwo(first, second);
      ErrorAt(3, to);
      assert to > 3 ==> OneErrorInTry(0, 3, 1, false, 3, to);
    }
  }

  /** The calls of a deletion up to the one that settles the match. */
  function Settled(ready: seq<Delivery>, id: TaskId, limit: nat): nat {
    Gets(ready, id, limit) + if Find(ready, id, limit).Some? then 1 else 0
  }

  lemma PrefixDifferent(all: seq<Delivery>, front: seq<Delivery>)
    requires Different(all) && front <= all
    ensures Different(front) && (|front| < |all| ==> all[|front|] !in front)
  {
    assert forall i :: 0 <= i < |front| ==> front[i] == all[i];
  }

  lemma {:induction false} DistinctDifferent(ready: seq<Delivery>, out: multiset<Delivery>)
    requires OneOfEach(multiset(ready) + out)
    ensures Different(ready)
  {
    forall i, j | 0 <= i < j < |ready|
      ensures ready[i] != ready[j]
    {
      Split(ready, j);
      assert ready[i] in ready[..j] && ready[i] in multiset(ready[..j]);
      assert (multiset(ready) + out)[ready[j]] <= 1;
    }
  }

  function Two(first: TaskMessage, second: TaskMessage): seq<Delivery> {
    [Delivery(0, Native(first)), Delivery(1, Native(second))]
  }

  lemma SecondOfTwo(first: TaskMessage, second: TaskMessage)
    requires first.id != second.id
    ensures var letters := Two(first, second);
            && Different(letters) && Find(letters, second.id, 2) == Some(letters[1]) && !Unreadable(Some(letters[1]))
            && Skipped(letters, second.id, 2) == 1 && Gets(letters, second.id, 2) == 2
  {
    var letters := Two(first, second);
    assert letters[1..] == [letters[1]];
  }

  function WithAt(ready: seq<Delivery>, p: nat, d: Delivery): seq<Delivery>
    requires p <= |ready|
  {
    ready[..p] + [d] + ready[p..]
  }

  lemma PutBack(ready: seq<Delivery>, out: multiset<Delivery>, p: nat, d: Delivery)
    requires p <= |ready| && d in out
    ensures multiset(WithAt(ready, p, d)) + (out - multiset{d}) == multiset(ready) + out
  {
    assert ready == ready[..p] + ready[p..];
    assert (out - multiset{d}) + multiset{d} == out;
  }

  lemma OneBack(out: multiset<Delivery>, d: Delivery)
    ensures out + multiset{d} - multiset{d} == out
  {}

  lemma Cancel(a: multiset<Delivery>, b: multiset<Delivery>, c: multiset<Delivery>)
    requires a + b == c + b
    ensures a == c
  {
    forall d
      ensures a[d] == c[d]
    {
      assert (a + b)[d] == (c + b)[d];
    }
  }

  lemma OneGone(ready: seq<Delivery>, out: multiset<Delivery>, gone: seq<Delivery>, d: Delivery)
    requires d in out
    ensures multiset(ready) + (out - multiset{d}) + multiset(gone + [d]) == multiset(ready) + out + multiset(gone)
  {
    assert (out - multiset{d}) + multiset{d} == out;
  }

  lemma TakenOut(ready: seq<Delivery>, out: multiset<Delivery>)
    requires ready != []
    ensures multiset(ready[1..]) + (out + multiset{ready[0]}) == multiset(ready) + out
  {
    assert ready == [ready[0]] + ready[1..];
  }

  lemma {:induction false} DifferentOnce(ds: seq<Delivery>)
    requires Different(ds)
    ensures OneOfEach(multiset(ds))
  {
    if ds != [] {
      var front, last := ds[..|ds| - 1], ds[|ds| - 1];
      DifferentOnce(front);
      assert ds == front + [last];
      assert last !in front;
    }
  }

  /** What a list still has to requeue is still out. */
  lemma StillOut(msgs: seq<Delivery>, i: nat, out: multiset<Delivery>, all: multiset<Delivery>)
    requires i < |msgs| && multiset(msgs) <= all && out + multiset(msgs[..i]) == all
    ensures msgs[i] in out
  {
    Split(msgs, i);
    assert all[msgs[i]] >= multiset(msgs)[msgs[i]] >= multiset(msgs[..i])[msgs[i]] + 1;
    assert all[msgs[i]] == out[msgs[i]] + multiset(msgs[..i])[msgs[i]];
  }

  /** A message on its way from the main queue to the dead letters. */
  class Handover {
    const message: TaskMessage
    const env: nat -> Reply                // how the server answers each call
    var calls: nat
    var held: bool                         // still unsettled in the main queue
    var processed: bool                    // the client library has seen it settled
    var letters: seq<Body>                 // dead letters made of it

    constructor (m: TaskMessage, env: nat -> Reply)
      ensures message == m && this.env == env && calls == 0 && held && !processed && letters == []
    {
      message, this.env, calls, held, processed, letters := m, env, 0, true, false, [];
    }

    /** The message can still be found: it will be redelivered, or a dead letter carries it. */
    ghost predicate Kept()
      reads this
    {
      held || exists i :: 0 <= i < |letters| && Decode(letters[i]) == Some(message)
    }

    /** reject without requeue: the server routes the message to the dead letters. */
    method Reject() returns (r: Reply)
      modifies this
      ensures r == env(old(calls)) && calls == old(calls) + 1 && processed == (old(processed) || r.Answered?)
      ensures held == (old(held) && !Effective(r))
      ensures letters == old(letters) + if old(held) && Effective(r) then [Native(message)] else []
    {
      r, calls := env(calls), calls + 1;
      processed := processed || r.Answered?;
      if Effective(r) && held {
        held, letters := false, letters + [Native(message)];
      }
    }

    method PublishLetter(b: Body) returns (r: Reply)
      modifies this
      ensures r == env(old(calls)) && calls == old(calls) + 1 && held == old(held) && processed == old(processed)
      ensures letters == old(letters) + if Effective(r) then [b] else []
    {
      r, calls := env(calls), calls + 1;
      if Effective(r) {
        letters := letters + [b];
      }
    }

    method Ack() returns (r: Reply)
      modifies this
      ensures r == env(old(calls)) && calls == old(calls) + 1 && processed == (old(processed) || r.Answered?)
      ensures letters == old(letters) && held == (old(held) && !Effective(r))
    {
      r, calls := env(calls), calls + 1;
      processed := processed || r.Answered?;
      if Effective(r) {
        held := false;
      }
    }

    /** However the calls go, and wherever the process dies, the message is kept; if the method
        returns, it is in the dead letters and not in the main queue: once, unless a reject took
        effect and was reported as failed. */
    method MoveToDlq() returns (e: Ending)
      requires held && !processed && letters == []
      modifies this
      ensures Kept() && Buried(old(calls), e, letters)
      ensures e == Returned(true) ==> !held
    {
      var r := Reject();
      if Effective(r) {
        assert letters[0] == Native(message);
      }
      if r.Gone? {
        return Died;
      }
      if r.Answered? {
        return Returned(true);
      }
      e := ManualMove();
    }

    /** How the call at `from` and, if it raises, the manual move end, and with which dead letters. */
    ghost predicate Buried(from: nat, e: Ending, after: seq<Body>) {
      var native := if Effective(env(from)) then [Native(message)] else [];
      match env(from)
      case Answered => e == Returned(true) && after == native
      case Gone(_) => e == Died && after == native
      case Errored(_) => ManuallyMoved(native, from + 1, e, after)
    }

    /** The manual move makes its letter with its first call and settles the message with its second. */
    ghost predicate ManuallyMoved(before: seq<Body>, from: nat, e: Ending, after: seq<Body>) {
      && after == before + (if Effective(env(from)) then [Manual(message.id, Some(message))] else [])
      && e == (if !env(from).Answered? then Failing(env(from))
               else if !env(from + 1).Answered? then Failing(env(from + 1)) else Returned(true))
    }

    method ManualMove() returns (e: Ending)
      requires Kept() && !processed
      modifies this
      ensures Kept() && ManuallyMoved(old(letters), old(calls), e, letters)
      ensures e == Returned(true) ==> !held
    {
      var b := Manual(message.id, Some(message));
      ghost var before := letters;
      var r := PublishLetter(b);
      assert forall i :: 0 <= i < |before| ==> letters[i] == before[i];
      if !r.Answered? {
        return Failing(r);
      }
      assert letters[|before|] == b;
      if !processed {
        r := Ack();
        if !r.Answered? {
          return Failing(r);
        }
      }
      return Returned(true);
    }

    /** Every dead letter that is made can be found under the message's id, and decodes to the message. */
    lemma BuriedIsFound(from: nat, e: Ending, after: seq<Body>, ready: seq<Delivery>, k: nat, limit: nat)
      requires Buried(from, e, after) && k < |ready| && k < limit && ready[k].body in after
      requires forall i :: 0 <= i < k ==> !Matches(ready[i], message.id)
      ensures Find(ready, message.id, limit) == Some(ready[k]) && Decode(ready[k].body) == Some(message)
    {
      FindIsFirst(ready, message.id, limit);
    }

    /** A reject that takes effect and is reported as failed makes two dead letters of one message. */
    lemma BuriedTwice(e: Ending, after: seq<Body>)
      requires env(0) == Errored(true) && forall k: nat :: k > 0 ==> env(k).Answered?
      requires Buried(0, e, after)
      ensures e == Returned(true) && after == [Native(message), Manual(message.id, Some(message))]
    {
      assert env(1).Answered? && env(2).Answered?;
    }
  }

  lemma Split(msgs: seq<Delivery>, i: nat)
    requires i < |msgs|
    ensures multiset(msgs[..i + 1]) == multiset(msgs[..i]) + multiset{msgs[i]}
    ensures multiset(msgs[..i]) + multiset{msgs[i]} <= multiset(msgs)
  {
    assert msgs[..i + 1] == msgs[..i] + [msgs[i]];
    assert msgs == msgs[..i + 1] + msgs[i + 1..];
  }
}
