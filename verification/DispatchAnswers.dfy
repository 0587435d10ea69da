/** What a caller of `backend/app/dispatch/durable.py` gets back: every answer of one call, and the answer to a repeated one. */
module DispatchAnswers {
  import opened Wrappers
  import opened Ledger
  import opened Dispatch
  import opened DispatchSafety

  /** What a caller passes. */
  datatype Query = Query(dispatchId: DispatchId, runId: RunId, taskId: string)

  predicate RunIsRunning(w: World, q: Query) {
    q.runId in w.runs && w.runs[q.runId].running
  }

  predicate TaskIsRunning(w: World, q: Query) {
    RunIsRunning(w, q) && q.taskId in w.runs[q.runId].tasks
  }

  /** The first attempt of this very task under this very id. */
  predicate IsKnown(w: World, q: Query) {
    && q.dispatchId in w.rows && w.rows[q.dispatchId].attemptNumber == 1
    && w.rows[q.dispatchId].runId == q.runId && w.rows[q.dispatchId].taskId == q.taskId
  }

  /** Neither the id nor the task has been seen before. */
  ghost predicate IsNew(w: World, q: Query) {
    q.dispatchId !in w.rows && forall id | id in w.rows :: !(w.rows[id].runId == q.runId && w.rows[id].taskId == q.taskId)
  }

  predicate SameRecords(w: World, w': World) {
    w'.rows == w.rows && w'.sends == w.sends
  }

  /** A known attempt is answered from its row: the stored receipt if it was enqueued, a refusal if not. */
  predicate AnsweredFromRow(w: World, q: Query, stage: Stage)
    requires IsKnown(w, q)
  {
    var row := w.rows[q.dispatchId];
    if row.state == Enqueued then
      && row.brokerMessageId.Some? && row.queueName.Some?
      && stage == Returned(Receipt(q.dispatchId, q.runId, q.taskId, row.brokerMessageId.value, row.queueName.value))
    else stage == Raised(Unresolved)
  }

  /** A new attempt is one message and one row, which say what the broker did. */
  ghost predicate AnsweredBySending(w: World, q: Query, m: MessageId, outcome: Outcome, w': World, stage: Stage) {
    && w'.sends == w.sends + [Send(m, q.dispatchId, q.runId, q.taskId, outcome)]
    && w'.rows.Keys == w.rows.Keys + {q.dispatchId} && (forall id | id in w.rows && id != q.dispatchId :: w'.rows[id] == w.rows[id])
    && IsKnown(w', q) && w'.rows[q.dispatchId].requestedAt == w.clock
    && var row := w'.rows[q.dispatchId];
       match outcome
       case Accepted =>
         && row.state == Enqueued && row.brokerMessageId == Some(m) && row.queueName == Some("devflow_tasks")
         && stage == Returned(Receipt(q.dispatchId, q.runId, q.taskId, m, "devflow_tasks"))
       case ConnectionError(_) =>
         && row.state == PublishFailed && row.errorCode == Some("BROKER_CONNECTION_ERROR")
         && row.errorMessage == Some("Dramatiq broker could not accept task dispatch") && stage == Raised(BrokerFailed)
       case OtherError(_) => row.state == Requested && stage == Raised(Uncaught)
  }

  /** Everything one call can be answered, told by what its caller could look up beforehand and what the broker does. */
  ghost predicate Answers(w: World, q: Query, m: MessageId, outcome: Outcome, w': World, stage: Stage) {
    if !RunIsRunning(w, q) then SameRecords(w, w') && stage == Raised(NotRunning)
    else if !TaskIsRunning(w, q) then SameRecords(w, w') && stage == Raised(NotInRun)
    else if IsKnown(w, q) then SameRecords(w, w') && AnsweredFromRow(w, q, stage)
    else if IsNew(w, q) then AnsweredBySending(w, q, m, outcome, w', stage)
    else
      && SameRecords(w, w')
      && stage == Raised(LedgerRefused(
           if q.dispatchId !in w.rows then AlreadyAttempted
           else if w.rows[q.dispatchId].attemptNumber != 1 && w.rows[q.dispatchId].runId == q.runId && w.rows[q.dispatchId].taskId == q.taskId
           then RefersToRecovery else BoundToAnotherTask))
  }

  function CallOf(c: CallId, q: Query, m: MessageId, outcome: Outcome): seq<Action> {
    Script(c, q.dispatchId, q.runId, q.taskId, m, outcome)
  }

  /** The ledger has made the row, and the call is about to send. */
  ghost predicate Reserves(w: World, q: Query, w': World, c: CallId) {
    && c in w'.calls && w'.calls[c] == Call(q.dispatchId, q.runId, q.taskId, Sending)
    && w'.rows.Keys == w.rows.Keys + {q.dispatchId} && (forall id | id in w.rows && id != q.dispatchId :: w'.rows[id] == w.rows[id])
    && IsKnown(w', q) && w'.rows[q.dispatchId].state == Requested && w'.rows[q.dispatchId].dispatchId == q.dispatchId
    && w'.rows[q.dispatchId].requestedAt == w.clock
    && w'.sends == w.sends
  }

  lemma {:induction false} NewTaskBegins(w: World, c: CallId, q: Query)
    requires IsNew(w, q) && TaskIsRunning(w, q)
    requires c in w.calls && w.calls[c] == Call(q.dispatchId, q.runId, q.taskId, Beginning)
    ensures Reserves(w, q, Apply(w, BeginAttempt(c)), c)
  {
    assert !HasAttempt(w.rows, q.runId, q.taskId);
  }

  lemma {:induction false} NewTaskSends(w: World, c: CallId, q: Query, m: MessageId, outcome: Outcome, before: World)
    requires Reserves(before, q, w, c) && Fresh(w, m)
    ensures var w' := Apply(Apply(Apply(w, SendMessage(c, m, outcome)), RecordEnqueued(c)), RecordFailed(c));
            c in w'.calls && AnsweredBySending(before, q, m, outcome, w', w'.calls[c].stage)
  {
    var w2 := Apply(w, SendMessage(c, m, outcome));
    assert w2.sends == before.sends + [Send(m, q.dispatchId, q.runId, q.taskId, outcome)] && w2.rows == w.rows;
    match outcome
    case Accepted => assert w2.calls[c].stage == Acking(m);
    case ConnectionError(_) => assert w2.calls[c].stage == Failing;
    case OtherError(_) => assert w2.calls[c].stage == Raised(Uncaught);
  }

  lemma {:induction false} KnownTaskIsAnswered(w: World, c: CallId, q: Query)
    requires ValidRows(w.rows) && TaskIsRunning(w, q) && !IsNew(w, q)
    requires c in w.calls && w.calls[c] == Call(q.dispatchId, q.runId, q.taskId, Beginning)
    ensures var w' := Apply(w, BeginAttempt(c));
            c in w'.calls && (w'.calls[c].stage.Returned? || w'.calls[c].stage.Raised?) && Answers(w, q, 0, Accepted, w', w'.calls[c].stage)
  {
    if q.dispatchId !in w.rows {
      var id :| id in w.rows && w.rows[id].runId == q.runId && w.rows[id].taskId == q.taskId;
      assert SameTask(w.rows[id], q.runId, q.taskId);
      assert HasAttempt(w.rows, q.runId, q.taskId);
    }
  }

  lemma {:induction false} FinishedStays(w: World, c: CallId, m: MessageId, outcome: Outcome)
    requires c in w.calls && (w.calls[c].stage.Returned? || w.calls[c].stage.Raised?)
    ensures Apply(Apply(Apply(w, SendMessage(c, m, outcome)), RecordEnqueued(c)), RecordFailed(c)) == w
    ensures Apply(w, BeginAttempt(c)) == w
  {
  }

  /** One call without interruption, in any world: which answer it gets and what it leaves behind. */
  lemma {:induction false} CallIsAnswered(w: World, c: CallId, q: Query, m: MessageId, outcome: Outcome)
    requires Inv(w) && c !in w.calls && Fresh(w, m)
    ensures var w' := Run(w, CallOf(c, q, m, outcome)); c in w'.calls && Answers(w, q, m, outcome, w', w'.calls[c].stage)
  {
    ScriptUnfolds(w, CallOf(c, q, m, outcome));
    var w1 := Apply(w, Invoke(c, q.dispatchId, q.runId, q.taskId));
    var w2 := Apply(w1, LoadRun(c));
    assert SameRecords(w, w2) && w2.runs == w.runs;
    if !TaskIsRunning(w, q) {
      FinishedStays(w2, c, m, outcome);
    } else {
      assert w2.calls[c] == Call(q.dispatchId, q.runId, q.taskId, Beginning);
      if IsNew(w, q) {
        NewTaskBegins(w2, c, q);
        NewTaskSends(Apply(w2, BeginAttempt(c)), c, q, m, outcome, w2);
      } else {
        KnownTaskIsAnswered(w2, c, q);
        FinishedStays(Apply(w2, BeginAttempt(c)), c, m, outcome);
      }
    }
  }

  /** A receipt once returned is what its row says, for good. */
  lemma {:induction false} ReturnedIsKnown(w: World, c: CallId)
    requires Inv(w) && c in w.calls && w.calls[c].stage.Returned?
    ensures var q := Query(w.calls[c].dispatchId, w.calls[c].runId, w.calls[c].taskId);
            IsKnown(w, q) && w.rows[q.dispatchId].state == Enqueued && AnsweredFromRow(w, q, w.calls[c].stage)
  {
    assert CallInv(w, w.calls[c]);
  }

  /** Whoever asks again with the ids of a call that got receipt `r`, in any reachable world, gets `r`; nothing is sent or written. */
  lemma {:induction false} RepeatGetsTheReceipt(
    w: World, actions: seq<Action>, c: CallId, d: CallId, m: MessageId, outcome: Outcome)
    requires Start(w)
    requires var w' := Run(w, actions);
             && c in w'.calls && w'.calls[c].stage.Returned? && d !in w'.calls && Fresh(w', m)
             && TaskIsRunning(w', Query(w'.calls[c].dispatchId, w'.calls[c].runId, w'.calls[c].taskId))
    ensures var w' := Run(w, actions);
            var w'' := Run(w', CallOf(d, Query(w'.calls[c].dispatchId, w'.calls[c].runId, w'.calls[c].taskId), m, outcome));
            && d in w''.calls && w''.calls[d].stage == w'.calls[c].stage
            && w''.sends == w'.sends && w''.rows == w'.rows
  {
    EveryReachableWorldIsSound(w, actions);
    var w' := Run(w, actions);
    ReturnedIsKnown(w', c);
    CallIsAnswered(w', d, Query(w'.calls[c].dispatchId, w'.calls[c].runId, w'.calls[c].taskId), m, outcome);
  }

  /** The same under any interleaving: a concurrent call that reaches the ledger behind it is handed the same receipt. */
  lemma {:induction false} OverlappingCallGetsTheReceipt(w: World, actions: seq<Action>, c: CallId, d: CallId)
    requires Start(w)
    requires var w' := Run(w, actions);
             && c in w'.calls && w'.calls[c].stage.Returned? && d in w'.calls
             && w'.calls[d] == w'.calls[c].(stage := Beginning)
             && TaskIsRunning(w', Query(w'.calls[c].dispatchId, w'.calls[c].runId, w'.calls[c].taskId))
    ensures var w' := Run(w, actions);
            var w'' := Run(w, actions + [BeginAttempt(d)]);
            && d in w''.calls && w''.calls[d].stage == w'.calls[c].stage && SameRecords(w', w'')
  {
    EveryReachableWorldIsSound(w, actions);
    var w' := Run(w, actions);
    var q := Query(w'.calls[c].dispatchId, w'.calls[c].runId, w'.calls[c].taskId);
    ReturnedIsKnown(w', c);
    KnownTaskIsAnswered(w', d, q);
    RunSnoc(w, actions, BeginAttempt(d));
  }
}
