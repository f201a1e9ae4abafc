/** The values that travel between clients, brokers, workers and result stores. */
module Types {

  datatype Option<+T> = None | Some(value: T)

  type TaskId = string
  type WorkerId = nat

  /** Seconds on one clock shared by every process; never negative (the Unix epoch is 0). */
  type Time = real

  datatype DeliveryMode = AtMostOnce | AtLeastOnce

  /** An exception as the retry policy sees it: class name, qualified class name and message. */
  datatype Exc = Exc(name: string, fullName: string, text: string)

  datatype TaskMessage = TaskMessage(
    id: TaskId,
    name: string,
    args: seq<string>,
    kwargs: map<string, string>,
    retries: nat,
    eta: Option<Time>,
    priority: Option<nat>,
    firstFailureAt: Option<Time>,
    lastError: Option<string>)

  /** Same task, same arguments: what a retry or a replay must not change. */
  predicate SamePayload(m: TaskMessage, n: TaskMessage) {
    m.id == n.id && m.name == n.name && m.args == n.args && m.kwargs == n.kwargs
  }

  function Min(x: real, y: real): real {
    if x <= y then x else y
  }

  function Max(x: real, y: real): real {
    if x >= y then x else y
  }
}
