/** What becomes of an envelope, told by the answers alone: at which points its way comes by, and how it
    is counted in the end. The conditions are conditions on the task, its policy and the answers. */
module Fates {
  import opened Types
  import opened Policy
  import opened Context
  import opened Protocol
  import opened Paths

  /** The task has a policy that allows one more retry of this message. */
  predicate HasRetryLeft(c: Config, m: TaskMessage) {
    m.name in c.tasks && c.tasks[m.name].policy.Some? && m.retries < c.tasks[m.name].policy.value.maxRetries
  }

  /** A body that ends like this asks for a retry, or raises an exception that is to be retried. */
  predicate WantsRetry(c: Config, m: TaskMessage, body: Body) {
    && HasRetryLeft(c, m)
    && var p := c.tasks[m.name].policy.value;
       match body
       case AskedRetry(_, cause) => cause.Some? ==> Retryable(p, cause.value)
       case Raised(e) => Retryable(p, e)
       case _ => false
  }

  predicate Late(c: Config, m: TaskMessage) {
    m.name in c.tasks && c.tasks[m.name].mode == AtLeastOnce
  }

  // ---- The answers, as conditions ----

  predicate Executes(c: Config, a: Answers, m: TaskMessage) {
    && !a.givesUp && m.name in c.tasks && ReplyAt(c, a, SetStarted).Ok?
    && (Late(c, m) || ReplyAt(c, a, EarlyAck).Ok?)
  }

  predicate Ends(c: Config, a: Answers, m: TaskMessage) {
    Executes(c, a, m) && a.body.Ended?
  }

  predicate Returns(c: Config, a: Answers, m: TaskMessage) {
    Ends(c, a, m) && a.body.body.Returned?
  }

  /** The result is stored and, if the task is late, acknowledged. */
  predicate Succeeds(c: Config, a: Answers, m: TaskMessage) {
    Returns(c, a, m) && ReplyAt(c, a, StoreSuccess).Ok? && (Late(c, m) ==> ReplyAt(c, a, AckSuccess).Ok?)
  }

  /** The exception of the store or of the acknowledgement after the body has returned. */
  function RaisedLate(c: Config, a: Answers, m: TaskMessage): Option<Exc> {
    if ReplyAt(c, a, StoreSuccess).Raised? then Some(ReplyAt(c, a, StoreSuccess).exc)
    else if ReplyAt(c, a, StoreSuccess).Ok? && Late(c, m) && ReplyAt(c, a, AckSuccess).Raised? then
      Some(ReplyAt(c, a, AckSuccess).exc)
    else None
  }

  predicate Fails(c: Config, a: Answers, m: TaskMessage) {
    Ends(c, a, m) && (a.body.body.Returned? ==> RaisedLate(c, a, m).Some?)
  }

  predicate Retries(c: Config, a: Answers, m: TaskMessage) {
    && Fails(c, a, m)
    && if a.body.body.Returned? then
         HasRetryLeft(c, m) && Retryable(c.tasks[m.name].policy.value, RaisedLate(c, a, m).value)
       else WantsRetry(c, m, a.body.body)
  }

  /** The failure is final. */
  predicate Buries(c: Config, a: Answers, m: TaskMessage) {
    !a.givesUp && (m.name !in c.tasks || (Fails(c, a, m) && !Retries(c, a, m)))
  }

  /** The points of the worker's code, in the order in which an envelope can come to them. */
  datatype Stop = AtWait | AtStart | AtEarlyAck | AtBody | AtStore | AtAck | AtPolicy | AtRetryState | AtPublish
                | AtRetryAck | AtFailure | AtDlq | AtFinalizer | AtEnd
  {
    function Rank(): nat {
      match this
      case AtWait => 0 case AtStart => 1 case AtEarlyAck => 2 case AtBody => 3 case AtStore => 4 case AtAck => 5
      case AtPolicy => 6 case AtRetryState => 7 case AtPublish => 8 case AtRetryAck => 9 case AtFailure => 10
      case AtDlq => 11 case AtFinalizer => 12 case AtEnd => 13
    }
  }

  function StopOf(pc: Pc): Stop {
    match pc
    case Waiting => AtWait
    case SetStarted => AtStart
    case EarlyAck => AtEarlyAck
    case Execute => AtBody
    case StoreSuccess => AtStore
    case AckSuccess => AtAck
    case Handling(_) => AtPolicy
    case Retrying(_) => AtPolicy
    case SetRetry(_) => AtRetryState
    case Republish(_) => AtPublish
    case AckRetry => AtRetryAck
    case StoreFailure => AtFailure
    case MoveDlq => AtDlq
    case Finalize => AtFinalizer
    case Done => AtEnd
  }

  /** When an envelope comes to a point. */
  predicate Due(c: Config, a: Answers, m: TaskMessage, stop: Stop) {
    match stop
    case AtWait => true
    case AtStart => !a.givesUp && m.name in c.tasks
    case AtEarlyAck => !a.givesUp && m.name in c.tasks && ReplyAt(c, a, SetStarted).Ok? && !Late(c, m)
    case AtBody => Executes(c, a, m)
    case AtStore => Returns(c, a, m)
    case AtAck => Returns(c, a, m) && ReplyAt(c, a, StoreSuccess).Ok? && Late(c, m)
    case AtPolicy => Consults(c, a, m)
    case AtRetryState => Retries(c, a, m)
    case AtPublish => Retries(c, a, m) && ReplyAt(c, a, SetRetry(m)).Ok?
    case AtRetryAck =>
      Retries(c, a, m) && ReplyAt(c, a, SetRetry(m)).Ok? && ReplyAt(c, a, Republish(m)).Ok? && Late(c, m)
    case AtFailure => Buries(c, a, m)
    case AtDlq => Buries(c, a, m) && ReplyAt(c, a, StoreFailure).Ok?
    case AtFinalizer => Buries(c, a, m) && ReplyAt(c, a, StoreFailure).Ok? && ReplyAt(c, a, MoveDlq).Raised?
    case AtEnd => true
  }

  /** A retry is granted, or an exception is handed to the policy: one of the task's, the cause that a refused
      request has named, or one of the calls after a success. */
  predicate Consults(c: Config, a: Answers, m: TaskMessage) {
    Retries(c, a, m) || (Fails(c, a, m) && HandedOn(c, a, m).Some?)
  }

  function HandedOn(c: Config, a: Answers, m: TaskMessage): Option<Exc>
    requires Fails(c, a, m)
  {
    match a.body.body
    case Returned => RaisedLate(c, a, m)
    case Raised(e) => Some(e)
    case AskedRetry(_, cause) =>
      if HasRetryLeft(c, m) && cause.Some? && !Retryable(c.tasks[m.name].policy.value, cause.value) then cause
      else None
    case _ => None
  }

  // ---- The way follows the conditions ----

  lemma BudgetDecides(c: Config, m: TaskMessage)
    ensures m.retries < c.MaxRetriesOf(m.name) <==> HasRetryLeft(c, m)
    ensures HasRetryLeft(c, m) ==> c.PolicyOf(m.name) == c.tasks[m.name].policy.value
    ensures m.name in c.tasks ==> (c.ModeOf(m.name) == AtLeastOnce <==> Late(c, m))
  {}

  /** What the answers say of a flight at its counter. */
  ghost predicate Follows(c: Config, a: Answers, fl: Flight) {
    && Due(c, a, fl.msg, StopOf(fl.pc))
    && (match fl.pc
        case Handling(e) => Fails(c, a, fl.msg) && HandedOn(c, a, fl.msg) == Some(e)
        case Retrying(_) => Retries(c, a, fl.msg) && a.body.body.AskedRetry?
        case _ => true)
    && fl.tally == TallyAt(c, a, fl.msg, StopOf(fl.pc))
  }

  /** How the envelope is counted: nothing before the body, and once after it. */
  function TallyAt(c: Config, a: Answers, m: TaskMessage, stop: Stop): Tally {
    match stop
    case AtWait | AtStart | AtEarlyAck => Outside
    case AtBody | AtStore | AtAck => InTry
    case _ => FinalTally(c, a, m)
  }

  function FinalTally(c: Config, a: Answers, m: TaskMessage): Tally {
    if !Executes(c, a, m) then Outside
    else if Succeeds(c, a, m) then Processed
    else if Fails(c, a, m) then Tally.Failed
    else Cancelled
  }

  /** One step: on to a later point, one that is due, past none that is due. */
  ghost predicate GoesOn(c: Config, a: Answers, fl: Flight, fl': Flight) {
    && Follows(c, a, fl') && fl'.msg == fl.msg && StopOf(fl.pc).Rank() < StopOf(fl'.pc).Rank()
    && forall stop: Stop :: StopOf(fl.pc).Rank() < stop.Rank() < StopOf(fl'.pc).Rank() ==> !Due(c, a, fl.msg, stop)
  }

  lemma AskedGoesOn(c: Config, a: Answers, fid: nat, fl: Flight, l: Label)
    requires Follows(c, a, fl) && fl.pc == Execute && a.body.Ended? && a.body.body.AskedRetry?
    requires Prescribed(c, a, fid, fl, l)
    ensures GoesOn(c, a, fl, MoveBy(c, fl, l))
  {
    BudgetDecides(c, fl.msg);
    if a.body.body.cause.Some? {
      ListsDecide(c.PolicyOf(fl.msg.name), a.body.body.cause.value);
    }
    hide RaisedLate, Executes;
  }

  lemma BodyGoesOn(c: Config, a: Answers, fid: nat, fl: Flight, l: Label)
    requires Follows(c, a, fl) && fl.pc == Execute && !(a.body.Ended? && a.body.body.AskedRetry?)
    requires Prescribed(c, a, fid, fl, l)
    ensures GoesOn(c, a, fl, MoveBy(c, fl, l))
  {
    BudgetDecides(c, fl.msg);
    assert fl.msg.name in c.tasks;
    hide Executes;
  }

  lemma PolicyGoesOn(c: Config, a: Answers, fid: nat, fl: Flight, l: Label)
    requires Follows(c, a, fl) && (fl.pc.Handling? || fl.pc.Retrying?) && Prescribed(c, a, fid, fl, l)
    ensures GoesOn(c, a, fl, MoveBy(c, fl, l))
  {
    BudgetDecides(c, fl.msg);
    if fl.pc.Handling? {
      ListsDecide(c.PolicyOf(fl.msg.name), fl.pc.exc);
    }
  }

  lemma StartGoesOn(c: Config, a: Answers, fid: nat, fl: Flight, l: Label)
    requires Follows(c, a, fl) && (fl.pc == Waiting || fl.pc == SetStarted || fl.pc == EarlyAck)
    requires Prescribed(c, a, fid, fl, l)
    ensures GoesOn(c, a, fl, MoveBy(c, fl, l))
  {
    BudgetDecides(c, fl.msg);
  }

  lemma StoredGoesOn(c: Config, a: Answers, fid: nat, fl: Flight, l: Label)
    requires Follows(c, a, fl) && fl.pc == StoreSuccess && Prescribed(c, a, fid, fl, l)
    ensures GoesOn(c, a, fl, MoveBy(c, fl, l))
  {
    BudgetDecides(c, fl.msg);
    assert fl.msg.name in c.tasks;
    hide Executes, WantsRetry, Retryable, HasRetryLeft;
  }

  lemma AckedGoesOn(c: Config, a: Answers, fid: nat, fl: Flight, l: Label)
    requires Follows(c, a, fl) && fl.pc == AckSuccess && Prescribed(c, a, fid, fl, l)
    ensures GoesOn(c, a, fl, MoveBy(c, fl, l))
  {
    BudgetDecides(c, fl.msg);
    assert fl.msg.name in c.tasks;
    hide Executes, WantsRetry, Retryable, HasRetryLeft;
  }

  lemma RetryGoesOn(c: Config, a: Answers, fid: nat, fl: Flight, l: Label)
    requires Follows(c, a, fl) && fl.pc.SetRetry? && Prescribed(c, a, fid, fl, l)
    ensures GoesOn(c, a, fl, MoveBy(c, fl, l))
  {
    BudgetDecides(c, fl.msg);
    assert fl.msg.name in c.tasks;
    hide Retries, Fails, Succeeds, Executes, Consults;
  }

  lemma PublishGoesOn(c: Config, a: Answers, fid: nat, fl: Flight, l: Label)
    requires Follows(c, a, fl) && fl.pc.Republish? && Prescribed(c, a, fid, fl, l)
    ensures GoesOn(c, a, fl, MoveBy(c, fl, l))
  {
    BudgetDecides(c, fl.msg);
    assert fl.msg.name in c.tasks;
    hide Retries, Fails, Succeeds, Executes, Consults;
  }

  lemma RetryAckGoesOn(c: Config, a: Answers, fid: nat, fl: Flight, l: Label)
    requires Follows(c, a, fl) && fl.pc == AckRetry && Prescribed(c, a, fid, fl, l)
    ensures GoesOn(c, a, fl, MoveBy(c, fl, l))
  {
    BudgetDecides(c, fl.msg);
    assert fl.msg.name in c.tasks;
    hide Retries, Fails, Succeeds, Executes, Consults;
  }

  lemma FailureGoesOn(c: Config, a: Answers, fid: nat, fl: Flight, l: Label)
    requires Follows(c, a, fl) && fl.pc == StoreFailure && Prescribed(c, a, fid, fl, l)
    ensures GoesOn(c, a, fl, MoveBy(c, fl, l))
  {
    hide Retries, Buries, Fails, Succeeds, Executes, Consults, Decide;
  }

  lemma FinalizerGoesOn(c: Config, a: Answers, fid: nat, fl: Flight, l: Label)
    requires Follows(c, a, fl) && fl.pc == Finalize && Prescribed(c, a, fid, fl, l)
    ensures GoesOn(c, a, fl, MoveBy(c, fl, l))
  {
    hide Retries, Buries, Fails, Succeeds, Executes, Consults, Decide;
  }

  lemma DlqGoesOn(c: Config, a: Answers, fid: nat, fl: Flight, l: Label)
    requires Follows(c, a, fl) && fl.pc == MoveDlq && Prescribed(c, a, fid, fl, l)
    ensures GoesOn(c, a, fl, MoveBy(c, fl, l))
  {
    hide Retries, Buries, Fails, Succeeds, Executes, Consults, Decide;
  }

  lemma StepGoesOn(c: Config, a: Answers, fid: nat, fl: Flight, l: Label)
    requires Follows(c, a, fl) && Prescribed(c, a, fid, fl, l)
    ensures GoesOn(c, a, fl, MoveBy(c, fl, l))
  {
    hide Follows, GoesOn, MoveBy;
    match fl.pc
    case Waiting | SetStarted | EarlyAck => StartGoesOn(c, a, fid, fl, l);
    case Execute =>
      if a.body.Ended? && a.body.body.AskedRetry? {
        AskedGoesOn(c, a, fid, fl, l);
      } else {
        BodyGoesOn(c, a, fid, fl, l);
      }
    case StoreSuccess => StoredGoesOn(c, a, fid, fl, l);
    case AckSuccess => AckedGoesOn(c, a, fid, fl, l);
    case Handling(_) => PolicyGoesOn(c, a, fid, fl, l);
    case Retrying(_) => PolicyGoesOn(c, a, fid, fl, l);
    case SetRetry(_) => RetryGoesOn(c, a, fid, fl, l);
    case Republish(_) => PublishGoesOn(c, a, fid, fl, l);
    case AckRetry => RetryAckGoesOn(c, a, fid, fl, l);
    case StoreFailure => FailureGoesOn(c, a, fid, fl, l);
    case Finalize => FinalizerGoesOn(c, a, fid, fl, l);
    case MoveDlq => DlqGoesOn(c, a, fid, fl, l);
    case Done =>
  }

  /** Somewhere on the path the flight stands at this point. */
  predicate ComesBy(c: Config, fl: Flight, path: seq<Label>, stop: Stop) {
    StopOf(After(c, fl, path).pc) == stop || (path != [] && ComesBy(c, fl, path[..|path| - 1], stop))
  }

  lemma WaitsAtFirst(c: Config, a: Answers, fl: Flight, stop: Stop)
    requires fl.pc == Waiting && fl.tally == Outside
    ensures Follows(c, a, fl) && (stop == AtWait <==> Due(c, a, fl.msg, stop) && stop.Rank() == 0)
  {}

  /** Until now, the flight has come to exactly the points that are due up to where it stands. */
  lemma {:induction false} SoFar(c: Config, a: Answers, fid: nat, fl: Flight, path: seq<Label>, stop: Stop)
    requires fl.pc == Waiting && fl.tally == Outside && Obedient(c, a, fid, fl, path)
    ensures Follows(c, a, After(c, fl, path)) && After(c, fl, path).msg == fl.msg
    ensures ComesBy(c, fl, path, stop) <==>
              Due(c, a, fl.msg, stop) && stop.Rank() <= StopOf(After(c, fl, path).pc).Rank()
  {
    hide Due, MoveBy, Prescribed;
    if path == [] {
      WaitsAtFirst(c, a, fl, stop);
    } else {
      var front := path[..|path| - 1];
      SoFar(c, a, fid, fl, front, stop);
      StepGoesOn(c, a, fid, After(c, fl, front), path[|path| - 1]);
    }
  }

  /** Whatever the surroundings answer, an envelope comes by a point exactly if the conditions for that
      point hold, and is counted in the end exactly as they say. */
  lemma ComesByExactly(c: Config, a: Answers, fid: nat, fl: Flight, path: seq<Label>, stop: Stop)
    requires fl.pc == Waiting && fl.tally == Outside && Way(c, a, fid, fl, path)
    ensures ComesBy(c, fl, path, stop) <==> Due(c, a, fl.msg, stop)
  {
    SoFar(c, a, fid, fl, path, stop);
  }

  lemma CountedExactly(c: Config, a: Answers, fid: nat, fl: Flight, path: seq<Label>)
    requires fl.pc == Waiting && fl.tally == Outside && Way(c, a, fid, fl, path)
    ensures var tally := After(c, fl, path).tally;
            && tally == FinalTally(c, a, fl.msg)
            && (tally == Processed <==> Succeeds(c, a, fl.msg))
            && (tally == Tally.Failed <==> Fails(c, a, fl.msg))
            && (tally == Outside <==> !Executes(c, a, fl.msg))
  {
    SoFar(c, a, fid, fl, path, AtEnd);
  }

  /** Every call answers, and nobody cancels. */
  ghost predicate NoTrouble(c: Config, a: Answers) {
    !a.givesUp && a.body.Ended? && forall pc :: ReplyAt(c, a, pc).Ok?
  }

  /** So without trouble a known task is retried exactly if its body asks for it or raises what the lists
      allow, with a retry left; it is buried exactly if it has failed otherwise; and if it has returned
      it is counted as processed. */
  lemma RetriedExactly(c: Config, a: Answers, fid: nat, fl: Flight, path: seq<Label>)
    requires fl.pc == Waiting && fl.tally == Outside && Way(c, a, fid, fl, path)
    requires NoTrouble(c, a) && fl.msg.name in c.tasks
    ensures var returned, wanted := a.body.body.Returned?, WantsRetry(c, fl.msg, a.body.body);
            && (ComesBy(c, fl, path, AtPublish) <==> wanted)
            && (ComesBy(c, fl, path, AtDlq) <==> !returned && !wanted)
            && (After(c, fl, path).tally == Processed <==> returned)
  {
    ComesByExactly(c, a, fid, fl, path, AtPublish);
    ComesByExactly(c, a, fid, fl, path, AtDlq);
    CountedExactly(c, a, fid, fl, path);
  }
}
