/** Two result stores behind one interface: Redis keeps two keys per task, the database one row. */
module Backends {
  import opened Types

  datatype TaskState = Pending | Started | Success | Failure | Retry

  datatype TaskResult = TaskResult(state: TaskState, result: Option<string>, error: Option<string>)

  predicate Terminal(st: TaskState) {
    st == Success || st == Failure
  }

  /** What a worker or a client asks of a store. */
  datatype Op =
    | SetState(id: TaskId, st: TaskState)
    | StoreResult(id: TaskId, r: TaskResult)
    | DeleteResult(id: TaskId)

  datatype Keys = Keys(states: map<TaskId, TaskState>, results: map<TaskId, TaskResult>)

  datatype Row = Row(state: TaskState, json: TaskResult)

  type Table = map<TaskId, Row>

  function RedisStep(k: Keys, op: Op): Keys {
    match op
    case SetState(id, st) => k.(states := k.states[id := st])
    case StoreResult(id, r) => Keys(k.states[id := r.state], k.results[id := r])
    case DeleteResult(id) => Keys(k.states - {id}, k.results - {id})
  }

  function SqlStep(t: Table, op: Op): Table {
    match op
    case SetState(id, st) => t[id := Row(st, if id in t then t[id].json else TaskResult(st, None, None))]
    case StoreResult(id, r) => t[id := Row(r.state, r)]
    case DeleteResult(id) => t - {id}
  }

  /** The answer of get_result. */
  function RedisGet(k: Keys, id: TaskId): Option<TaskResult> {
    if id in k.results then Some(k.results[id]) else None
  }

  function SqlGet(t: Table, id: TaskId): Option<TaskResult> {
    if id in t then Some(t[id].json) else None
  }

  /** What AsyncResult makes of an answer: get returns or raises only on a terminal state. */
  datatype View = Value(result: Option<string>) | TaskFailed(error: string) | NotReady

  function ViewOf(r: Option<TaskResult>): View {
    match r
    case None => NotReady
    case Some(TaskResult(Success, result, _)) => Value(result)
    case Some(TaskResult(Failure, _, error)) =>
      TaskFailed(if error.Some? && error.value != "" then error.value else "Task failed")
    case Some(_) => NotReady
  }

  function Ready(r: Option<TaskResult>): bool {
    (if r.Some? then r.value.state else Pending) in {Success, Failure}
  }

  function RunRedis(ops: seq<Op>): Keys {
    if ops == [] then Keys(map[], map[]) else RedisStep(RunRedis(ops[..|ops| - 1]), ops[|ops| - 1])
  }

  function RunSql(ops: seq<Op>): Table {
    if ops == [] then map[] else SqlStep(RunSql(ops[..|ops| - 1]), ops[|ops| - 1])
  }

  predicate Agree(ops: seq<Op>, id: TaskId) {
    ViewOf(RedisGet(RunRedis(ops), id)) == ViewOf(SqlGet(RunSql(ops), id))
  }

  /** A terminal state is set without a result, on a task the database has no row for. */
  predicate Bare(ops: seq<Op>, i: nat) {
    i < |ops| && ops[i].SetState? && Terminal(ops[i].st) && ops[i].id !in RunSql(ops[..i])
  }

  ghost predicate NeverBare(ops: seq<Op>) {
    forall i :: 0 <= i < |ops| ==> !Bare(ops, i)
  }

  /** Row by row: a row without a Redis result holds no outcome, and a Redis result is the row's. */
  ghost predicate Matched(k: Keys, t: Table) {
    && (forall id :: id in k.results ==> id in t && t[id].json == k.results[id])
    && (forall id :: id in t && id !in k.results ==> !Terminal(t[id].json.state))
  }

  lemma {:induction false} RunsMatched(ops: seq<Op>)
    requires NeverBare(ops)
    ensures Matched(RunRedis(ops), RunSql(ops))
  {
    if ops != [] {
      var front := ops[..|ops| - 1];
      forall i | 0 <= i < |front|
        ensures !Bare(front, i)
      {
        assert front[..i] == ops[..i];
        assert !Bare(ops, i);
      }
      RunsMatched(front);
      assert !Bare(ops, |ops| - 1);
    }
  }

  /** The stores give AsyncResult the same answers about every task after every prefix of a history
      exactly when the history never sets a terminal state on a task without a row. */
  lemma StoresAgreeExactly(ops: seq<Op>)
    ensures (forall n, id :: 0 <= n <= |ops| ==> Agree(ops[..n], id)) <==> NeverBare(ops)
  {
    if NeverBare(ops) {
      forall n, id | 0 <= n <= |ops|
        ensures Agree(ops[..n], id)
      {
        forall i | 0 <= i < n
          ensures !Bare(ops[..n], i)
        {
          assert ops[..n][..i] == ops[..i];
          assert !Bare(ops, i);
        }
        RunsMatched(ops[..n]);
      }
    } else {
      var first := FirstBare(ops, |ops|);
      var before := ops[..first];
      forall i | 0 <= i < first
        ensures !Bare(before, i)
      {
        assert before[..i] == ops[..i];
        assert !Bare(ops, i);
      }
      RunsMatched(before);
      assert ops[..first + 1][..first] == before;
      assert !Agree(ops[..first + 1], ops[first].id);
    }
  }

  lemma {:induction false} FirstBare(ops: seq<Op>, n: nat) returns (first: nat)
    requires n <= |ops| && exists i :: 0 <= i < n && Bare(ops, i)
    ensures Bare(ops, first) && forall i :: 0 <= i < first ==> !Bare(ops, i)
  {
    if i :| 0 <= i < n - 1 && Bare(ops, i) {
      first := FirstBare(ops, n - 1);
    } else {
      first := n - 1;
    }
  }

  /** Both stores: an outcome that can be read stays readable through state updates. */
  lemma OutcomeSurvivesStates(k: Keys, t: Table, id: TaskId, op: Op)
    requires op.SetState?
    ensures Ready(RedisGet(k, id)) ==> RedisGet(RedisStep(k, op), id) == RedisGet(k, id)
    ensures Ready(SqlGet(t, id)) ==> SqlGet(SqlStep(t, op), id) == SqlGet(t, id)
  {}

  /** A task is ready exactly if get would return a value or raise the task's failure. */
  lemma ReadyMeansDecided(r: Option<TaskResult>)
    ensures Ready(r) <==> exists v :: ViewOf(r) == v && r.Some? && Gives(r.value, v)
    ensures Ready(r) <==> ViewOf(r) != NotReady
  {
    assert Ready(r) ==> Gives(r.value, ViewOf(r));
  }

  predicate Deletes(op: Op, id: TaskId) {
    op == DeleteResult(id)
  }

  /** Only final outcomes are stored as results. */
  predicate StoresOutcomes(ops: seq<Op>) {
    forall i :: 0 <= i < |ops| && ops[i].StoreResult? ==> Terminal(ops[i].r.state)
  }

  /** Once ready, a task stays ready in both stores until it is deleted, whatever happens between. */
  lemma {:induction false} ReadyUntilDeleted(ops: seq<Op>, more: seq<Op>, id: TaskId)
    requires forall i :: 0 <= i < |more| ==> !Deletes(more[i], id)
    requires StoresOutcomes(more)
    ensures Ready(RedisGet(RunRedis(ops), id)) ==> Ready(RedisGet(RunRedis(ops + more), id))
    ensures Ready(SqlGet(RunSql(ops), id)) ==> Ready(SqlGet(RunSql(ops + more), id))
  {
    if more == [] {
      assert ops + more == ops;
    } else {
      var front, last := more[..|more| - 1], more[|more| - 1];
      ReadyUntilDeleted(ops, front, id);
      assert (ops + more)[..|ops + more| - 1] == ops + front;
      assert !Deletes(last, id);
    }
  }

  // ---- What is written can be read ----

  predicate Writes(op: Op, id: TaskId) {
    (op.StoreResult? || op.DeleteResult?) && op.id == id
  }

  /** An operation that neither stores nor deletes a result leaves a stored one as it is. */
  lemma {:induction false} StaysStored(ops: seq<Op>, more: seq<Op>, id: TaskId, r: TaskResult)
    requires forall i :: 0 <= i < |more| ==> !Writes(more[i], id)
    requires RedisGet(RunRedis(ops), id) == Some(r) && SqlGet(RunSql(ops), id) == Some(r)
    ensures RedisGet(RunRedis(ops + more), id) == Some(r) && SqlGet(RunSql(ops + more), id) == Some(r)
  {
    if more == [] {
      assert ops + more == ops;
    } else {
      StaysStored(ops, more[..|more| - 1], id, r);
      assert (ops + more)[..|ops + more| - 1] == ops + more[..|more| - 1];
      assert !Writes(more[|more| - 1], id);
    }
  }

  /** A stored result is what both stores answer until it is replaced or deleted, whatever else happens, with
      the states of this task or with other tasks. */
  lemma ReadYourWrites(ops: seq<Op>, id: TaskId, r: TaskResult, more: seq<Op>)
    requires forall i :: 0 <= i < |more| ==> !Writes(more[i], id)
    ensures RedisGet(RunRedis(ops + [StoreResult(id, r)] + more), id) == Some(r)
    ensures SqlGet(RunSql(ops + [StoreResult(id, r)] + more), id) == Some(r)
  {
    var stored := ops + [StoreResult(id, r)];
    assert stored[..|ops|] == ops;
    StaysStored(stored, more, id, r);
  }

  predicate Stores(op: Op, id: TaskId) {
    op.StoreResult? && op.id == id
  }

  /** Without a result stored since, Redis has none, and a row of the database carries no value or error. */
  lemma {:induction false} NothingStored(ops: seq<Op>, more: seq<Op>, id: TaskId)
    requires forall i :: 0 <= i < |more| ==> !Stores(more[i], id)
    requires ops == [] || ops[|ops| - 1] == DeleteResult(id)
    ensures RedisGet(RunRedis(ops + more), id) == None
    ensures var r := SqlGet(RunSql(ops + more), id);
            r.Some? ==> r.value.result == None && r.value.error == None
  {
    if more == [] {
      assert ops + more == ops;
    } else {
      NothingStored(ops, more[..|more| - 1], id);
      assert (ops + more)[..|ops + more| - 1] == ops + more[..|more| - 1];
      assert !Stores(more[|more| - 1], id);
    }
  }

  /** The state that the last operation on the task has left, if it has one. */
  function LastState(ops: seq<Op>, id: TaskId): Option<TaskState> {
    if ops == [] then None
    else
      match ops[|ops| - 1]
      case SetState(i, st) => if i == id then Some(st) else LastState(ops[..|ops| - 1], id)
      case StoreResult(i, r) => if i == id then Some(r.state) else LastState(ops[..|ops| - 1], id)
      case DeleteResult(i) => if i == id then None else LastState(ops[..|ops| - 1], id)
  }

  /** The state key and the state column always hold it: in this the stores agree about every history. */
  lemma {:induction false} StatesAlwaysAgree(ops: seq<Op>, id: TaskId)
    ensures var k, t := RunRedis(ops), RunSql(ops);
            && LastState(ops, id) == (if id in k.states then Some(k.states[id]) else None)
            && LastState(ops, id) == if id in t then Some(t[id].state) else None
  {
    if ops != [] {
      StatesAlwaysAgree(ops[..|ops| - 1], id);
    }
  }

  // ---- The stores' own code ----

  class RedisBackend {
    var states: map<TaskId, TaskState>
    var results: map<TaskId, TaskResult>
    ghost var history: seq<Op>

    ghost predicate Valid()
      reads this
    {
      Keys(states, results) == RunRedis(history)
    }

    constructor ()
      ensures Valid() && history == []
    {
      states, results, history := map[], map[], [];
    }

    method SetState(id: TaskId, st: TaskState)
      requires Valid()
      modifies this
      ensures Valid() && history == old(history) + [Op.SetState(id, st)]
    {
      states := states[id := st];
      history := history + [Op.SetState(id, st)];
    }

    method StoreResult(id: TaskId, r: TaskResult)
      requires Valid()
      modifies this
      ensures Valid() && history == old(history) + [Op.StoreResult(id, r)]
    {
      states := states[id := r.state];
      results := results[id := r];
      history := history + [Op.StoreResult(id, r)];
    }

    method GetResult(id: TaskId) returns (r: Option<TaskResult>)
      requires Valid()
      ensures r == RedisGet(RunRedis(history), id)
    {
      if id in results {
        return Some(results[id]);
      }
      return None;
    }

    method DeleteResult(id: TaskId)
      requires Valid()
      modifies this
      ensures Valid() && history == old(history) + [Op.DeleteResult(id)]
    {
      states := states - {id};
      results := results - {id};
      history := history + [Op.DeleteResult(id)];
    }
  }

  class DatabaseBackend {
    var rows: Table
    ghost var history: seq<Op>

    ghost predicate Valid()
      reads this
    {
      rows == RunSql(history)
    }

    constructor ()
      ensures Valid() && history == []
    {
      rows, history := map[], [];
    }

    method SetState(id: TaskId, st: TaskState)
      requires Valid()
      modifies this
      ensures Valid() && history == old(history) + [Op.SetState(id, st)]
    {
      if id in rows {
        var existing := rows[id];
        rows := rows[id := existing.(state := st)];
      } else {
        rows := rows[id := Row(st, TaskResult(st, None, None))];
      }
      history := history + [Op.SetState(id, st)];
    }

    method StoreResult(id: TaskId, r: TaskResult)
      requires Valid()
      modifies this
      ensures Valid() && history == old(history) + [Op.StoreResult(id, r)]
    {
      if id in rows {
        var existing := rows[id];
        rows := rows[id := existing.(state := r.state, json := r)];
      } else {
        rows := rows[id := Row(r.state, r)];
      }
      history := history + [Op.StoreResult(id, r)];
    }

    method GetResult(id: TaskId) returns (r: Option<TaskResult>)
      requires Valid()
      ensures r == SqlGet(RunSql(history), id)
    {
      if id in rows {
        return Some(rows[id].json);
      }
      return None;
    }

    method DeleteResult(id: TaskId)
      requires Valid()
      modifies this
      ensures Valid() && history == old(history) + [Op.DeleteResult(id)]
    {
      rows := rows - {id};
      history := history + [Op.DeleteResult(id)];
    }
  }

  // ---- Polling ----

  /** One poll: the store's answer, and the time at which it has been looked at. */
  datatype PollAnswer = PollAnswer(r: Option<TaskResult>, at: Time)

  datatype Got = Got(v: View) | TimedOut | Polling

  predicate Decisive(p: PollAnswer, deadline: Option<Time>) {
    (p.r.Some? && Terminal(p.r.value.state)) || (deadline.Some? && p.at >= deadline.value)
  }

  /** What a final result gives the caller: its value, or its error with a text in any case. */
  predicate Gives(r: TaskResult, v: View) {
    match r.state
    case Success => v == Value(r.result)
    case Failure =>
      && v.TaskFailed? && (r.error.Some? && r.error.value != "" ==> v.error == r.error.value)
      && (r.error.None? || r.error.value == "" ==> v.error == "Task failed")
    case _ => false
  }

  /** The polling loop over the answers it sees. It ends at the first answer that is final or late;
      a final answer wins even if it is late, and there is always at least one poll. */
  method Get(polls: seq<PollAnswer>, deadline: Option<Time>) returns (g: Got, used: nat)
    ensures used <= |polls| && forall i :: 0 <= i < used ==> !Decisive(polls[i], deadline)
    ensures g == Polling <==> used == |polls|
    ensures used < |polls| ==>
              Decisive(polls[used], deadline)
              && g == if ViewOf(polls[used].r) != NotReady then Got(ViewOf(polls[used].r)) else TimedOut
    ensures g.Got? ==> used < |polls| && polls[used].r.Some? && Gives(polls[used].r.value, g.v)
    ensures g == TimedOut ==>
              used < |polls| && !(polls[used].r.Some? && Terminal(polls[used].r.value.state))
              && deadline.Some? && polls[used].at >= deadline.value
  {
    used := 0;
    for i := 0 to |polls|
      invariant used == i && forall j :: 0 <= j < i ==> !Decisive(polls[j], deadline)
    {
      var result := polls[i].r;
      if result.Some? {
        match result.value.state
        case Success => return Got(Value(result.value.result)), i;
        case Failure =>
          var error := result.value.error;
          return Got(TaskFailed(if error.Some? && error.value != "" then error.value else "Task failed")), i;
        case _ =>
      }
      if deadline.Some? && polls[i].at >= deadline.value {
        return TimedOut, i;
      }
      used := i + 1;
    }
    return Polling, |polls|;
  }
}
