/** One queue as the Redis server keeps it, and the commands the broker sends to it.
    Each function is one atomic command, script or transaction. */
module RedisServer {
  import opened Types

  /** A stream entry: its message and when it was appended. Entry ids are positions. */
  datatype Entry = Entry(msg: TaskMessage, at: Time)

  /** A pending entry: who was last given it, and when. */
  datatype Pending = Pending(consumer: WorkerId, since: Time)

  datatype DlqEntry = DlqEntry(data: TaskMessage, failedAt: Time, tag: nat)

  /** `delayed` is the sorted set: a member's score is always its own eta, so the members alone
      determine it. The dead-letter stream keeps deleted positions, as XDEL leaves a gap. */
  datatype Server = Server(
    stream: seq<Entry>,
    cursor: nat,
    pel: map<nat, Pending>,
    delayed: set<TaskMessage>,
    dlq: seq<DlqEntry>,
    dlqDeleted: set<nat>)

  const EMPTY := Server([], 0, map[], {}, [], {})

  function Xadd(sv: Server, m: TaskMessage, at: Time): Server {
    sv.(stream := sv.stream + [Entry(m, at)])
  }

  predicate Ripe(m: TaskMessage, now: Time) {
    m.eta.Some? && 0.0 <= m.eta.value <= now
  }

  predicate Later(m: TaskMessage, now: Time) {
    m.eta.Some? && m.eta.value > now
  }

  /** `now` is when the publisher looked at its clock, `at` when the command is executed. */
  function Publish(sv: Server, m: TaskMessage, now: Time, at: Time): Server {
    if Later(m, now) then sv.(delayed := sv.delayed + {m}) else Xadd(sv, m, at)
  }

  /** One round of the promotion script's loop. */
  function Promote(sv: Server, m: TaskMessage, at: Time): Server {
    Xadd(sv, m, at).(delayed := sv.delayed - {m})
  }

  /** XREADGROUP with COUNT 1 and id ">". */
  function Read(sv: Server, w: WorkerId, at: Time): Server
    requires sv.cursor < |sv.stream|
  {
    sv.(cursor := sv.cursor + 1, pel := sv.pel[sv.cursor := Pending(w, at)])
  }

  predicate Stale(sv: Server, tag: nat, minIdle: real, at: Time) {
    tag in sv.pel && at - sv.pel[tag].since >= minIdle
  }

  /** XAUTOCLAIM of one entry. */
  function Claim(sv: Server, tag: nat, w: WorkerId, at: Time): Server {
    sv.(pel := sv.pel[tag := Pending(w, at)])
  }

  function Xack(sv: Server, tag: nat): Server {
    sv.(pel := sv.pel - {tag})
  }

  /** The broker's ack, and its nack without requeue: nothing at all in at-most-once mode. */
  function Ack(sv: Server, mode: DeliveryMode, tag: nat): Server {
    if mode == AtLeastOnce then Xack(sv, tag) else sv
  }

  /** The dead-letter transaction: XADD to the dead-letter stream and, at least once, XACK. */
  function DeadLetter(sv: Server, mode: DeliveryMode, tag: nat, m: TaskMessage, at: Time): Server {
    Ack(sv.(dlq := sv.dlq + [DlqEntry(m, at, tag)]), mode, tag)
  }

  function ResetMessage(m: TaskMessage): TaskMessage {
    TaskMessage(m.id, m.name, m.args, m.kwargs, 0, None, None, None, None)
  }

  function Replayed(m: TaskMessage, reset: bool): TaskMessage {
    if reset then ResetMessage(m) else m
  }

  /** The replay transaction: XADD to the stream and XDEL from the dead-letter stream. */
  function Replay(sv: Server, k: nat, reset: bool, at: Time): Server
    requires k < |sv.dlq|
  {
    Xadd(sv, Replayed(sv.dlq[k].data, reset), at).(dlqDeleted := sv.dlqDeleted + {k})
  }

  predicate LiveDlq(sv: Server, k: nat) {
    k < |sv.dlq| && k !in sv.dlqDeleted
  }

  function PendingOf(sv: Server, w: WorkerId): (tags: set<nat>)
  {
    set tag | tag in sv.pel && sv.pel[tag].consumer == w
  }

  /** XGROUP DELCONSUMER: the consumer goes, and its pending entries with it. */
  function DelConsumer(sv: Server, w: WorkerId): Server {
    sv.(pel := sv.pel - PendingOf(sv, w))
  }

  /** Deleting a consumer loses its own pending entries and no others, so it changes nothing exactly when
      the consumer has none. */
  lemma DelConsumerSafe(sv: Server, w: WorkerId)
    ensures DelConsumer(sv, w) == sv <==> PendingOf(sv, w) == {}
    ensures var pel := DelConsumer(sv, w).pel;
            && DelConsumer(sv, w) == sv.(pel := pel)
            && (forall tag :: tag in pel <==> tag in sv.pel && sv.pel[tag].consumer != w)
            && (forall tag :: tag in pel ==> pel[tag] == sv.pel[tag])
  {
    if tag :| tag in PendingOf(sv, w) {
      assert tag in sv.pel && tag !in DelConsumer(sv, w).pel;
    } else {
      assert sv.pel - {} == sv.pel;
    }
  }
}
