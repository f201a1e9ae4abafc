/** The delayed-task mover: how late a scheduled task can be. */
module Mover {
  import opened Types
  import opened Policy
  import opened RedisServer
  import opened RedisBroker

  datatype Settings = Settings(minSleep: real, maxSleep: real)
  {
    predicate Valid() {
      minSleep >= 0.0 && maxSleep >= 0.0
    }

    function LongestSleep(): real {
      Max(minSleep, maxSleep)
    }

    function ShortestSleep(): real {
      Min(minSleep, maxSleep)
    }
  }

  /** The answer of _next_delayed_score: the smallest score, or nothing. */
  ghost predicate IsNextScore(delayed: set<TaskMessage>, score: Option<Time>) {
    match score
    case None => delayed == {}
    case Some(t) =>
      && (exists m :: m in delayed && m.eta == score)
      && (forall m :: m in delayed && m.eta.Some? ==> t <= m.eta.value)
  }

  method NextDelayedScore(delayed: set<TaskMessage>) returns (score: Option<Time>)
    requires forall m :: m in delayed ==> m.eta.Some?
    ensures IsNextScore(delayed, score)
  {
    score := None;
    var rest := delayed;
    while rest != {}
      invariant rest <= delayed && IsNextScore(delayed - rest, score)
      decreases rest
    {
      var m :| m in rest;
      if score.None? || m.eta.value < score.value {
        score := m.eta;
      }
      rest := rest - {m};
      assert delayed - rest == (delayed - (rest + {m})) + {m};
      assert m in delayed - rest;
    }
    assert delayed - {} == delayed;
  }

  /** Nothing overdue is left behind, and the next iteration will not be late for what is left. */
  ghost predicate OnSchedule(cfg: Settings, waiting: set<TaskMessage>, last: Time, now: Time) {
    && last <= now <= last + cfg.LongestSleep()
    && forall m :: m in waiting ==> m.eta.Some? && last < m.eta.value && now <= m.eta.value + cfg.minSleep
  }

  lemma SleepKeepsSchedule(cfg: Settings, waiting: set<TaskMessage>, now: Time, moved: bool, score: Option<Time>,
                           wait: real)
    requires cfg.Valid() && IsNextScore(waiting, score)
    requires forall m :: m in waiting ==> m.eta.Some? && now < m.eta.value
    requires wait == if moved then cfg.minSleep
                     else if score.Some? then Min(cfg.maxSleep, Max(cfg.minSleep, score.value - now)) else cfg.maxSleep
    ensures OnSchedule(cfg, waiting, now, now + wait)
    ensures cfg.ShortestSleep() <= wait
  {}

  function Repeated(n: nat, x: real): real {
    if n == 0 then 0.0 else Repeated(n - 1, x) + x
  }

  lemma {:induction false} RepeatedIsProduct(n: nat, x: real)
    ensures Repeated(n, x) == n as real * x
  {
    if n > 0 {
      RepeatedIsProduct(n - 1, x);
      OneMore(n - 1, x);
    }
  }

  // ---- What happens to a message that is inserted ----

  /** A publisher adds a message to the sorted set, before the message's eta. */
  datatype Insert = Insert(m: TaskMessage, at: Time)

  predicate Early(ins: set<Insert>) {
    forall x :: x in ins ==> x.m.eta.Some? && x.at < x.m.eta.value
  }

  /** What waits after an iteration at `last`: inserted by then, and due later. */
  function Waiting(ins: set<Insert>, last: Time): set<TaskMessage>
    requires Early(ins)
  {
    set x | x in ins && x.at <= last && last < x.m.eta.value :: x.m
  }

  ghost predicate Inserted(ins: set<Insert>, m: TaskMessage) {
    exists x :: x in ins && x.m == m
  }

  /** What an iteration at `now` promotes: all that has become due since the one before, in order. */
  ghost predicate IsBatch(ins: set<Insert>, last: Time, now: Time, ready: seq<TaskMessage>) {
    && NoRepeats(ready)
    && (forall m :: m in ready <==> Inserted(ins, m) && m.eta.Some? && last < m.eta.value <= now)
    && (forall i :: 0 <= i < |ready| ==> ready[i].eta.Some?)
    && (forall i, j :: 0 <= i < j < |ready| ==> ready[i].eta.value <= ready[j].eta.value)
  }

  function Before(start: Time, times: seq<Time>, i: nat): Time
    requires i <= |times|
  {
    if i == 0 then start else times[i - 1]
  }

  function WakeUp(times: seq<Time>, wake: Time, i: nat): Time
    requires i < |times|
  {
    if i + 1 < |times| then times[i + 1] else wake
  }

  /** One iteration, and the sleep after it. */
  ghost predicate Iteration(cfg: Settings, ins: set<Insert>, start: Time, times: seq<Time>, wake: Time,
                            batches: seq<seq<TaskMessage>>, i: nat)
    requires Early(ins) && i < |times| == |batches|
  {
    && IsBatch(ins, Before(start, times, i), times[i], batches[i])
    && OnSchedule(cfg, Waiting(ins, times[i]), times[i], WakeUp(times, wake, i))
    && cfg.ShortestSleep() <= WakeUp(times, wake, i) - times[i]
  }

  /** Iterations at these times, with these batches; the next one is at `wake`. */
  ghost predicate MoverRun(cfg: Settings, ins: set<Insert>, start: Time, times: seq<Time>, wake: Time,
                           batches: seq<seq<TaskMessage>>)
    requires Early(ins)
  {
    && |times| == |batches| && (if times == [] then wake == start else times[0] == start)
    && (forall i :: 0 <= i < |times| ==> Iteration(cfg, ins, start, times, wake, batches, i))
  }

  lemma RunExtends(cfg: Settings, ins: set<Insert>, start: Time, times: seq<Time>, now: Time,
                   batches: seq<seq<TaskMessage>>, ready: seq<TaskMessage>, wait: real)
    requires Early(ins) && MoverRun(cfg, ins, start, times, now, batches)
    requires IsBatch(ins, Before(start, times, |times|), now, ready)
    requires OnSchedule(cfg, Waiting(ins, now), now, now + wait) && cfg.ShortestSleep() <= wait
    ensures MoverRun(cfg, ins, start, times + [now], now + wait, batches + [ready])
  {
    var times', batches', wake := times + [now], batches + [ready], now + wait;
    forall i | 0 <= i < |times'|
      ensures Iteration(cfg, ins, start, times', wake, batches', i)
    {
      if i < |times| {
        assert Iteration(cfg, ins, start, times, now, batches, i);
        assert WakeUp(times', wake, i) == WakeUp(times, now, i);
      }
    }
  }

  lemma {:induction false} TimesAdvance(cfg: Settings, ins: set<Insert>, start: Time, times: seq<Time>, wake: Time,
                                        batches: seq<seq<TaskMessage>>, i: nat, j: nat)
    requires Early(ins) && MoverRun(cfg, ins, start, times, wake, batches) && i <= j < |times|
    ensures times[i] <= times[j]
    decreases j - i
  {
    if i < j {
      assert Iteration(cfg, ins, start, times, wake, batches, i);
      TimesAdvance(cfg, ins, start, times, wake, batches, i + 1, j);
    }
  }

  /** Promoted by the first iteration that is not before its eta: late by at most one longest sleep, and
      by at most one shortest configured sleep if it was in the set at the iteration before. */
  predicate PromotedBy(cfg: Settings, x: Insert, times: seq<Time>, batches: seq<seq<TaskMessage>>, i: nat)
    requires x.m.eta.Some? && 0 < i < |times| == |batches|
  {
    && x.m in batches[i] && times[i - 1] < x.m.eta.value <= times[i]
    && times[i] <= x.m.eta.value + cfg.LongestSleep()
    && (x.at <= times[i - 1] ==> times[i] <= x.m.eta.value + cfg.minSleep)
  }

  ghost predicate Punctual(cfg: Settings, x: Insert, times: seq<Time>, batches: seq<seq<TaskMessage>>) {
    x.m.eta.Some? && |times| == |batches| && exists i :: 0 < i < |times| && PromotedBy(cfg, x, times, batches, i)
  }

  lemma {:induction false} FirstNotBefore(times: seq<Time>, eta: Time, n: nat) returns (i: nat)
    requires n < |times| && times[0] < eta <= times[n]
    ensures 0 < i <= n && times[i - 1] < eta <= times[i]
  {
    if times[n - 1] < eta {
      i := n;
    } else {
      i := FirstNotBefore(times, eta, n - 1);
    }
  }

  /** Every message that has become due by the last iteration has been promoted, and in time. */
  lemma DueIsPunctual(cfg: Settings, ins: set<Insert>, start: Time, times: seq<Time>, wake: Time,
                      batches: seq<seq<TaskMessage>>, x: Insert)
    requires Early(ins) && MoverRun(cfg, ins, start, times, wake, batches)
    requires x in ins && times != [] && start < x.m.eta.value <= times[|times| - 1]
    ensures Punctual(cfg, x, times, batches)
  {
    var i := FirstNotBefore(times, x.m.eta.value, |times| - 1);
    assert Iteration(cfg, ins, start, times, wake, batches, i);
    assert Iteration(cfg, ins, start, times, wake, batches, i - 1);
    assert x.at <= times[i - 1] ==> x.m in Waiting(ins, times[i - 1]);
    assert PromotedBy(cfg, x, times, batches, i);
  }

  /** No message is promoted by two iterations, or before its eta, or without having been inserted. */
  lemma PromotedAtMostOnce(cfg: Settings, ins: set<Insert>, start: Time, times: seq<Time>, wake: Time,
                           batches: seq<seq<TaskMessage>>, m: TaskMessage, i: nat, j: nat)
    requires Early(ins) && MoverRun(cfg, ins, start, times, wake, batches)
    requires i < |times| && j < |times| && m in batches[i] && m in batches[j]
    ensures i == j && NoRepeats(batches[i])
    ensures m.eta.Some? && m.eta.value <= times[i] && exists x :: x in ins && x.m == m && x.at < times[i]
  {
    assert Iteration(cfg, ins, start, times, wake, batches, i);
    assert Iteration(cfg, ins, start, times, wake, batches, j);
    if i < j {
      TimesAdvance(cfg, ins, start, times, wake, batches, i, j - 1);
    } else if j < i {
      TimesAdvance(cfg, ins, start, times, wake, batches, j, i - 1);
    }
  }

  /** The clock advances, so that waiting ends. */
  lemma {:induction false} ClockAdvances(cfg: Settings, ins: set<Insert>, start: Time, times: seq<Time>, wake: Time,
                                         batches: seq<seq<TaskMessage>>)
    requires Early(ins) && MoverRun(cfg, ins, start, times, wake, batches)
    ensures start + Repeated(|times|, cfg.ShortestSleep()) <= wake
  {
    if times != [] {
      var n := |times| - 1;
      var front := times[..n];
      assert n > 0 ==> Iteration(cfg, ins, start, times, wake, batches, n - 1);
      forall i | 0 <= i < n
        ensures Iteration(cfg, ins, start, front, times[n], batches[..n], i)
      {
        assert Iteration(cfg, ins, start, times, wake, batches, i);
        assert WakeUp(front, times[n], i) == WakeUp(times, wake, i);
      }
      ClockAdvances(cfg, ins, start, front, times[n], batches[..n]);
      assert Iteration(cfg, ins, start, times, wake, batches, n);
    }
  }

  // ---- The loop ----

  /** The stream entries of a run: before each batch, whatever others have appended. */
  function Woven(batches: seq<seq<TaskMessage>>, times: seq<Time>, others: nat -> seq<Entry>): seq<Entry>
    requires |times| == |batches|
  {
    if batches == [] then []
    else
      var n := |batches| - 1;
      Woven(batches[..n], times[..n], others) + others(n) + Entries(batches[n], times[n])
  }

  lemma WovenExtends(before: seq<Entry>, batches: seq<seq<TaskMessage>>, times: seq<Time>, others: nat -> seq<Entry>,
                     ready: seq<TaskMessage>, now: Time)
    requires |times| == |batches|
    ensures before + Woven(batches + [ready], times + [now], others)
            == before + Woven(batches, times, others) + others(|batches|) + Entries(ready, now)
  {
    assert (batches + [ready])[..|batches|] == batches && (times + [now])[..|times|] == times;
    Associates(before, Woven(batches, times, others), others(|batches|), Entries(ready, now));
  }

  lemma Associates(a: seq<Entry>, b: seq<Entry>, c: seq<Entry>, d: seq<Entry>)
    ensures a + (b + c + d) == a + b + c + d
  {}

  /** The sleep ends when the next message is due, unless it would be too short or too long. */
  predicate SleepsUntil(cfg: Settings, gap: real, wait: real) {
    && (cfg.minSleep <= gap <= cfg.maxSleep ==> wait == gap)
    && (gap > cfg.maxSleep ==> wait == cfg.maxSleep)
    && (gap < cfg.minSleep ==> wait == cfg.ShortestSleep())
  }

  /** How long to sleep: briefly after a promotion, else until the next score, within limits. */
  method ChooseSleep(cfg: Settings, waiting: set<TaskMessage>, moved: bool, now: Time) returns (wait: real)
    requires cfg.Valid() && forall m :: m in waiting ==> m.eta.Some? && now < m.eta.value
    ensures OnSchedule(cfg, waiting, now, now + wait) && cfg.ShortestSleep() <= wait
    ensures moved ==> wait == cfg.minSleep
    ensures !moved && waiting == {} ==> wait == cfg.maxSleep
    ensures forall m :: !moved && m in waiting && (forall n :: n in waiting ==> m.eta.value <= n.eta.value) ==>
              SleepsUntil(cfg, m.eta.value - now, wait)
  {
    var score := NextDelayedScore(waiting);
    if moved {
      wait := cfg.minSleep;
    } else if score.Some? {
      wait := score.value - now;
      wait := Max(cfg.minSleep, wait);
      wait := Min(cfg.maxSleep, wait);
    } else {
      wait := cfg.maxSleep;
    }
    SleepKeepsSchedule(cfg, waiting, now, moved, score, wait);
  }

  /** While the mover sleeps: publishers insert what they insert, and others append to the stream. */
  method Sleep(broker: Broker, ins: set<Insert>, last: Time, now: Time, appended: seq<Entry>)
    modifies broker`delayed, broker`stream
    ensures broker.delayed == old(broker.delayed) + set x | x in ins && last < x.at <= now :: x.m
    ensures broker.stream == old(broker.stream) + appended
  {
    broker.delayed := broker.delayed + set x | x in ins && last < x.at <= now :: x.m;
    broker.stream := broker.stream + appended;
  }

  lemma RipeIsBatch(ins: set<Insert>, last: Time, now: Time, delayed: set<TaskMessage>, ready: seq<TaskMessage>)
    requires Early(ins) && 0.0 <= last <= now && ReadyOrder(delayed, now, ready)
    requires delayed == Waiting(ins, last) + set x | x in ins && last < x.at <= now :: x.m
    ensures IsBatch(ins, last, now, ready)
    ensures (set m | m in delayed && !Ripe(m, now)) == Waiting(ins, now)
  {}

  /** What happens in a sleep, one iteration after it, and the choice of the next sleep. */
  method Iterate(broker: Broker, cfg: Settings, ins: set<Insert>, last: Time, now: Time, appended: seq<Entry>)
    returns (ghost ready: seq<TaskMessage>, wait: real)
    requires cfg.Valid() && Early(ins) && 0.0 <= last <= now && broker.delayed == Waiting(ins, last)
    modifies broker`delayed, broker`stream
    ensures IsBatch(ins, last, now, ready)
    ensures broker.delayed == Waiting(ins, now)
    ensures broker.stream == old(broker.stream) + appended + Entries(ready, now)
    ensures OnSchedule(cfg, Waiting(ins, now), now, now + wait) && cfg.ShortestSleep() <= wait
  {
    Sleep(broker, ins, last, now, appended);
    ghost var delayed := broker.delayed;
    var moved;
    moved, ready := broker.MoveReadyDelayed(now, now);
    RipeIsBatch(ins, last, now, delayed, ready);
    wait := ChooseSleep(cfg, broker.delayed, moved != 0, now);
  }

  /** One round of the loop continues the run. */
  method Round(broker: Broker, cfg: Settings, ins: set<Insert>, last: Time, now: Time, others: nat -> seq<Entry>,
               i: nat, ghost before: seq<Entry>, ghost start: Time, ghost times: seq<Time>,
               ghost batches: seq<seq<TaskMessage>>)
    returns (wait: real, ghost ready: seq<TaskMessage>)
    requires cfg.Valid() && Early(ins) && 0.0 <= last <= now && broker.delayed == Waiting(ins, last)
    requires |times| == |batches| == i && last == Before(start, times, i)
    requires MoverRun(cfg, ins, start, times, now, batches)
    requires broker.stream == before + Woven(batches, times, others)
    modifies broker`delayed, broker`stream
    ensures MoverRun(cfg, ins, start, times + [now], now + wait, batches + [ready]) && wait >= 0.0
    ensures broker.delayed == Waiting(ins, now)
    ensures broker.stream == before + Woven(batches + [ready], times + [now], others)
  {
    hide MoverRun, Waiting, IsBatch, Woven, Entries;
    ready, wait := Iterate(broker, cfg, ins, last, now, others(i));
    RunExtends(cfg, ins, start, times, now, batches, ready, wait);
    WovenExtends(before, batches, times, others, ready, now);
  }

  /** The mover's loop for any number of successful iterations that take no time themselves. `ins` is all
      that publishers insert, before or while the mover runs, and `others(i)` what others append to the
      stream in the sleep before iteration i.

      The sorted set is left with exactly what has been inserted and is not due; the stream has got,
      among the entries of others, exactly the batches; and every message that has become due was
      promoted in time. */
  method DelayedMoverLoop(broker: Broker, cfg: Settings, start: Time, iterations: nat, ins: set<Insert>,
                          others: nat -> seq<Entry>)
    returns (now: Time, ghost times: seq<Time>, ghost batches: seq<seq<TaskMessage>>)
    requires cfg.Valid() && start >= 0.0 && Early(ins) && broker.delayed == Waiting(ins, start)
    modifies broker`delayed, broker`stream
    ensures |times| == |batches| == iterations && MoverRun(cfg, ins, start, times, now, batches)
    ensures broker.delayed == Waiting(ins, Before(start, times, |times|))
    ensures broker.stream == old(broker.stream) + Woven(batches, times, others)
    ensures forall x :: x in ins && start < x.m.eta.value <= Before(start, times, |times|) ==>
              Punctual(cfg, x, times, batches)
    ensures start + iterations as real * cfg.ShortestSleep() <= now
  {
    now, times, batches := start, [], [];
    var last := start;
    assert MoverRun(cfg, ins, start, times, now, batches) && Woven(batches, times, others) == [];
    hide MoverRun, Waiting, IsBatch, Woven, Punctual, Entries;
    for i := 0 to iterations
      invariant |times| == |batches| == i && last == Before(start, times, |times|) && 0.0 <= last <= now
      invariant MoverRun(cfg, ins, start, times, now, batches)
      invariant broker.delayed == Waiting(ins, last)
      invariant broker.stream == old(broker.stream) + Woven(batches, times, others)
    {
      assert Before(start, times + [now], |times| + 1) == now;
      var wait;
      ghost var ready;
      wait, ready := Round(broker, cfg, ins, last, now, others, i, old(broker.stream), start, times, batches);
      times, batches := times + [now], batches + [ready];
      last, now := now, now + wait;
    }
    forall x | x in ins && start < x.m.eta.value <= Before(start, times, |times|)
      ensures Punctual(cfg, x, times, batches)
    {
      DueIsPunctual(cfg, ins, start, times, now, batches, x);
    }
    ClockAdvances(cfg, ins, start, times, now, batches);
    RepeatedIsProduct(iterations, cfg.ShortestSleep());
  }
}
