/** The durable ledger of dispatch attempts: rows, their shape, and the three transactions on them. */
module Ledger {
  import opened Wrappers

  type DispatchId = nat
  type RunId = nat
  type MessageId = nat

  datatype AttemptState = Requested | Enqueued | PublishFailed

  datatype Attempt = Attempt(
    dispatchId: DispatchId, runId: RunId, taskId: string, attemptNumber: nat, state: AttemptState,
    brokerMessageId: Option<MessageId>, queueName: Option<string>,
    errorCode: Option<string>, errorMessage: Option<string>,
    requestedAt: nat, resolvedAt: Option<nat>, updatedAt: nat)
  {
    /** `validate_state_shape`, and the check constraint of the table. */
    predicate Valid() {
      && attemptNumber >= 1 && requestedAt <= updatedAt
      && (resolvedAt.Some? ==> requestedAt <= resolvedAt.value)
      && match state
         case Requested =>
           brokerMessageId.None? && queueName.None? && errorCode.None? && errorMessage.None? && resolvedAt.None?
         case Enqueued =>
           brokerMessageId.Some? && queueName.Some? && errorCode.None? && errorMessage.None? && resolvedAt.Some?
         case PublishFailed =>
           brokerMessageId.None? && queueName.None? && errorCode.Some? && errorMessage.Some? && resolvedAt.Some?
    }
  }

  datatype RunInfo = RunInfo(running: bool, tasks: set<string>)

  type Runs = map<RunId, RunInfo>
  type Rows = map<DispatchId, Attempt>

  datatype LedgerError =
    | UnknownRun | RunNotRunning | UnknownTask
    | BoundToAnotherTask | RefersToRecovery | AlreadyAttempted
    | NeverRequested | IdentityMismatch | DifferentFacts | AlreadyResolved

  /** The table: keyed by dispatch id, valid rows, `(run, task, attempt number)` unique. */
  ghost predicate ValidRows(rows: Rows) {
    && (forall id :: id in rows ==> rows[id].dispatchId == id && rows[id].Valid())
    && (forall a, b | a in rows && b in rows && SameTask(rows[a], rows[b].runId, rows[b].taskId) ::
          rows[a].attemptNumber == rows[b].attemptNumber ==> a == b)
  }

  predicate SameTask(a: Attempt, runId: RunId, taskId: string) {
    a.runId == runId && a.taskId == taskId
  }

  predicate HasAttempt(rows: Rows, runId: RunId, taskId: string) {
    exists id :: id in rows && SameTask(rows[id], runId, taskId)
  }

  function FirstAttempt(id: DispatchId, runId: RunId, taskId: string, now: nat): Attempt {
    Attempt(id, runId, taskId, 1, Requested, None, None, None, None, now, None, now)
  }

  function Acknowledged(a: Attempt, messageId: MessageId, queue: string, now: nat): Attempt {
    a.(state := Enqueued, brokerMessageId := Some(messageId), queueName := Some(queue),
       errorCode := None, errorMessage := None, resolvedAt := Some(now), updatedAt := now)
  }

  function Refused(a: Attempt, code: string, message: string, now: nat): Attempt {
    a.(state := PublishFailed, brokerMessageId := None, queueName := None,
       errorCode := Some(code), errorMessage := Some(message), resolvedAt := Some(now), updatedAt := now)
  }

  /** `begin_initial_attempt`: the answer, and whether a row was created for it. */
  function Begin(runs: Runs, rows: Rows, id: DispatchId, runId: RunId, taskId: string, now: nat)
    : Result<(Attempt, bool), LedgerError>
  {
    if runId !in runs then Err(UnknownRun)
    else if !runs[runId].running then Err(RunNotRunning)
    else if taskId !in runs[runId].tasks then Err(UnknownTask)
    else if id in rows then
      if !SameTask(rows[id], runId, taskId) then Err(BoundToAnotherTask)
      else if rows[id].attemptNumber != 1 then Err(RefersToRecovery)
      else Ok((rows[id], false))
    else if HasAttempt(rows, runId, taskId) then Err(AlreadyAttempted)
    else Ok((FirstAttempt(id, runId, taskId, now), true))
  }

  function MarkEnqueued(rows: Rows, id: DispatchId, runId: RunId, taskId: string, messageId: MessageId, queue: string, now: nat)
    : Result<Attempt, LedgerError>
  {
    if id !in rows then Err(NeverRequested)
    else if !SameTask(rows[id], runId, taskId) then Err(IdentityMismatch)
    else match rows[id].state
      case Enqueued =>
        if rows[id].brokerMessageId != Some(messageId) || rows[id].queueName != Some(queue) then Err(DifferentFacts)
        else Ok(rows[id])
      case PublishFailed => Err(AlreadyResolved)
      case Requested => Ok(Acknowledged(rows[id], messageId, queue, now))
  }

  function MarkPublishFailed(rows: Rows, id: DispatchId, runId: RunId, taskId: string, code: string, message: string, now: nat)
    : Result<Attempt, LedgerError>
  {
    if id !in rows then Err(NeverRequested)
    else if !SameTask(rows[id], runId, taskId) then Err(IdentityMismatch)
    else match rows[id].state
      case PublishFailed =>
        if rows[id].errorCode != Some(code) || rows[id].errorMessage != Some(message) then Err(DifferentFacts)
        else Ok(rows[id])
      case Enqueued => Err(AlreadyResolved)
      case Requested => Ok(Refused(rows[id], code, message, now))
  }

  /** Nothing that was resolved ever changes again. */
  ghost predicate ResolvedIsFinal(rows: Rows, rows': Rows) {
    forall id :: id in rows ==>
      && id in rows'
      && (rows[id].state != Requested ==> rows'[id] == rows[id])
      && rows'[id].runId == rows[id].runId && rows'[id].taskId == rows[id].taskId
      && rows'[id].attemptNumber == rows[id].attemptNumber && rows'[id].requestedAt == rows[id].requestedAt
  }

  /** Whoever asks for the task of `row` from now on is refused or handed `row` itself, never "created". */
  ghost predicate TakenBy(runs: Runs, rows: Rows, row: Attempt) {
    forall id, now | Begin(runs, rows, id, row.runId, row.taskId, now).Ok? ::
      Begin(runs, rows, id, row.runId, row.taskId, now).value == (row, false)
  }

  /** A created row is the first of its task, and "created" is answered at most once per task. */
  lemma BeginCreatesOnce(runs: Runs, rows: Rows, id: DispatchId, runId: RunId, taskId: string, now: nat)
    requires ValidRows(rows)
    ensures var r := Begin(runs, rows, id, runId, taskId, now);
            && (r.Ok? && r.value.1 ==>
                  && id !in rows && !HasAttempt(rows, runId, taskId)
                  && ValidRows(rows[id := r.value.0]) && ResolvedIsFinal(rows, rows[id := r.value.0])
                  && TakenBy(runs, rows[id := r.value.0], r.value.0))
            && (r.Ok? && !r.value.1 ==> id in rows && r.value.0 == rows[id] && rows[id].attemptNumber == 1)
  {
    var r := Begin(runs, rows, id, runId, taskId, now);
    if r.Ok? && r.value.1 {
      var rows' := rows[id := r.value.0];
      assert SameTask(rows'[id], runId, taskId);
      assert HasAttempt(rows', runId, taskId);
      assert forall id' :: id' in rows ==> !SameTask(rows[id'], runId, taskId);
    }
  }

  lemma MarksKeepTheTable(rows: Rows, id: DispatchId, row: Attempt)
    requires ValidRows(rows) && id in rows && rows[id].state == Requested && row.Valid() && row.dispatchId == id
    requires row.runId == rows[id].runId && row.taskId == rows[id].taskId
    requires row.attemptNumber == rows[id].attemptNumber && row.requestedAt == rows[id].requestedAt
    ensures ValidRows(rows[id := row]) && ResolvedIsFinal(rows, rows[id := row])
  {
  }

  /**
    * Acknowledging is accepted for an open attempt of this task, or again with the same facts. From then on only the same
    * acknowledgement is accepted, and changes nothing.
    */
  lemma {:induction false} AcknowledgingSettles(
    rows: Rows, id: DispatchId, runId: RunId, taskId: string, messageId: MessageId, queue: string, now: nat,
    other: MessageId, otherQueue: string, code: string, message: string, later: nat)
    ensures var r := MarkEnqueued(rows, id, runId, taskId, messageId, queue, now);
            && (r.Ok? <==>
                  && id in rows && rows[id].runId == runId && rows[id].taskId == taskId
                  && (rows[id].state == Requested
                      || (rows[id].state == Enqueued && rows[id].brokerMessageId == Some(messageId) && rows[id].queueName == Some(queue))))
            && (r.Ok? ==>
                  var rows' := rows[id := r.value];
                  && r.value.state == Enqueued && r.value.brokerMessageId == Some(messageId) && r.value.queueName == Some(queue)
                  && MarkEnqueued(rows', id, runId, taskId, other, otherQueue, later) ==
                     (if other == messageId && otherQueue == queue then r else Err(DifferentFacts))
                  && MarkPublishFailed(rows', id, runId, taskId, code, message, later) == Err(AlreadyResolved))
  {
  }

  /** Refusing likewise. */
  lemma {:induction false} RefusingSettles(
    rows: Rows, id: DispatchId, runId: RunId, taskId: string, code: string, message: string, now: nat,
    other: string, otherMessage: string, messageId: MessageId, queue: string, later: nat)
    ensures var r := MarkPublishFailed(rows, id, runId, taskId, code, message, now);
            && (r.Ok? <==>
                  && id in rows && rows[id].runId == runId && rows[id].taskId == taskId
                  && (rows[id].state == Requested
                      || (rows[id].state == PublishFailed && rows[id].errorCode == Some(code) && rows[id].errorMessage == Some(message))))
            && (r.Ok? ==>
                  var rows' := rows[id := r.value];
                  && r.value.state == PublishFailed && r.value.errorCode == Some(code) && r.value.errorMessage == Some(message)
                  && MarkPublishFailed(rows', id, runId, taskId, other, otherMessage, later) ==
                     (if other == code && otherMessage == message then r else Err(DifferentFacts))
                  && MarkEnqueued(rows', id, runId, taskId, messageId, queue, later) == Err(AlreadyResolved))
  {
  }
}
