/** `backend/app/dispatch/durable.py`: concurrent dispatch calls over the ledger and the broker, with crashes. */
module Dispatch {
  import opened Wrappers
  import opened Ledger

  const BROKER_ERROR_CODE := "BROKER_CONNECTION_ERROR"
  const BROKER_ERROR_MESSAGE := "Dramatiq broker could not accept task dispatch"
  const QUEUE_NAME := "devflow_tasks"

  type CallId = nat

  datatype Receipt = Receipt(dispatchId: DispatchId, runId: RunId, taskId: string, brokerMessageId: MessageId, queueName: string)

  datatype Rejection = NotRunning | NotInRun | LedgerRefused(error: LedgerError) | Unresolved | BrokerFailed | Uncaught

  /** Where a call is between two awaits. */
  datatype Stage =
    | Loading
    | Beginning
    | Sending
    | Acking(messageId: MessageId)
    | Failing
    | Returned(receipt: Receipt)
    | Raised(reason: Rejection)
    | Crashed

  datatype Call = Call(dispatchId: DispatchId, runId: RunId, taskId: string, stage: Stage)

  /** What `actor.send` did: an error may reach the caller although the broker kept the message. */
  datatype Outcome = Accepted | ConnectionError(kept: bool) | OtherError(kept: bool)

  datatype Send = Send(messageId: MessageId, dispatchId: DispatchId, runId: RunId, taskId: string, outcome: Outcome) {
    predicate Kept() { outcome.Accepted? || outcome.kept }
  }

  datatype World = World(runs: Runs, rows: Rows, sends: seq<Send>, calls: map<CallId, Call>, ours: set<DispatchId>, clock: nat)

  datatype Action =
    | Invoke(c: CallId, dispatchId: DispatchId, runId: RunId, taskId: string)
    | LoadRun(c: CallId)
    | BeginAttempt(c: CallId)
    | SendMessage(c: CallId, messageId: MessageId, outcome: Outcome)
    | RecordEnqueued(c: CallId)
    | RecordFailed(c: CallId)
    | Crash(c: CallId)
    | SetRun(runId: RunId, info: RunInfo)
    | Tick
    | RecoveryPrepares(dispatchId: DispatchId, runId: RunId, taskId: string, attemptNumber: nat)
    | RecoveryResolves(dispatchId: DispatchId, row: Attempt)

  /** `_receipt_from_attempt`. */
  function ReceiptOf(a: Attempt): Receipt
    requires a.brokerMessageId.Some? && a.queueName.Some?
  {
    Receipt(a.dispatchId, a.runId, a.taskId, a.brokerMessageId.value, a.queueName.value)
  }

  function At(w: World, c: CallId, stage: Stage): World
    requires c in w.calls
  {
    w.(calls := w.calls[c := w.calls[c].(stage := stage)])
  }

  function FromAttempt(w: World, c: CallId, a: Attempt): World
    requires c in w.calls
  {
    if a.state == Enqueued && a.brokerMessageId.Some? && a.queueName.Some? then At(w, c, Returned(ReceiptOf(a)))
    else At(w, c, Raised(Unresolved))
  }

  function StageOf(w: World, c: CallId): Option<Stage> {
    if c in w.calls then Some(w.calls[c].stage) else None
  }

  function StepLoad(w: World, c: CallId): World
    requires c in w.calls
  {
    var call := w.calls[c];
    if call.runId !in w.runs || !w.runs[call.runId].running then At(w, c, Raised(NotRunning))
    else if call.taskId !in w.runs[call.runId].tasks then At(w, c, Raised(NotInRun))
    else At(w, c, Beginning)
  }

  function StepBegin(w: World, c: CallId): World
    requires c in w.calls
  {
    var call := w.calls[c];
    match Begin(w.runs, w.rows, call.dispatchId, call.runId, call.taskId, w.clock)
    case Err(e) => At(w, c, Raised(LedgerRefused(e)))
    case Ok((a, created)) =>
      if created then
        At(w, c, Sending).(rows := w.rows[call.dispatchId := a], ours := w.ours + {call.dispatchId})
      else FromAttempt(w, c, a)
  }

  function StepSend(w: World, c: CallId, messageId: MessageId, outcome: Outcome): World
    requires c in w.calls
  {
    var call := w.calls[c];
    var w' := w.(sends := w.sends + [Send(messageId, call.dispatchId, call.runId, call.taskId, outcome)]);
    match outcome
    case Accepted => At(w', c, Acking(messageId))
    case ConnectionError(_) => At(w', c, Failing)
    case OtherError(_) => At(w', c, Raised(Uncaught))
  }

  function StepEnqueued(w: World, c: CallId, messageId: MessageId): World
    requires c in w.calls
  {
    var call := w.calls[c];
    match MarkEnqueued(w.rows, call.dispatchId, call.runId, call.taskId, messageId, QUEUE_NAME, w.clock)
    case Err(e) => At(w, c, Raised(LedgerRefused(e)))
    case Ok(a) => FromAttempt(w.(rows := w.rows[call.dispatchId := a]), c, a)
  }

  function StepFailed(w: World, c: CallId): World
    requires c in w.calls
  {
    var call := w.calls[c];
    match MarkPublishFailed(w.rows, call.dispatchId, call.runId, call.taskId, BROKER_ERROR_CODE, BROKER_ERROR_MESSAGE, w.clock)
    case Err(e) => At(w, c, Raised(LedgerRefused(e)))
    case Ok(a) => At(w.(rows := w.rows[call.dispatchId := a]), c, Raised(BrokerFailed))
  }

  predicate Fresh(w: World, messageId: MessageId) {
    forall i :: 0 <= i < |w.sends| ==> w.sends[i].messageId != messageId
  }

  /** One step of one call, or of its surroundings; a step that is not enabled changes nothing. */
  function Apply(w: World, a: Action): World {
    match a
    case Invoke(c, dispatchId, runId, taskId) =>
      if c in w.calls then w else w.(calls := w.calls[c := Call(dispatchId, runId, taskId, Loading)])
    case LoadRun(c) => if StageOf(w, c) == Some(Loading) then StepLoad(w, c) else w
    case BeginAttempt(c) => if StageOf(w, c) == Some(Beginning) then StepBegin(w, c) else w
    case SendMessage(c, messageId, outcome) =>
      if StageOf(w, c) == Some(Sending) && Fresh(w, messageId) then StepSend(w, c, messageId, outcome) else w
    case RecordEnqueued(c) =>
      if c in w.calls && w.calls[c].stage.Acking? then StepEnqueued(w, c, w.calls[c].stage.messageId) else w
    case RecordFailed(c) => if StageOf(w, c) == Some(Failing) then StepFailed(w, c) else w
    case Crash(c) =>
      if c in w.calls && !(w.calls[c].stage.Returned? || w.calls[c].stage.Raised?) then At(w, c, Crashed) else w
    case SetRun(runId, info) => w.(runs := w.runs[runId := info])
    case Tick => w.(clock := w.clock + 1)
    case RecoveryPrepares(id, runId, taskId, n) =>
      var row := FirstAttempt(id, runId, taskId, w.clock).(attemptNumber := n);
      if id in w.rows || n == 0
         || (exists b :: b in w.rows && SameTask(w.rows[b], runId, taskId) && w.rows[b].attemptNumber == n) then w
      else w.(rows := w.rows[id := row])
    case RecoveryResolves(id, row) =>
      if id in w.rows && id !in w.ours && w.rows[id].state == Requested && row.state != Requested && row.Valid()
         && row.dispatchId == id && SameTask(row, w.rows[id].runId, w.rows[id].taskId)
         && row.attemptNumber == w.rows[id].attemptNumber && row.requestedAt == w.rows[id].requestedAt
      then w.(rows := w.rows[id := row]) else w
  }

  function Run(w: World, actions: seq<Action>): World {
    if actions == [] then w else Apply(Run(w, actions[..|actions| - 1]), actions[|actions| - 1])
  }

  predicate Start(w: World) {
    w.rows == map[] && w.sends == [] && w.calls == map[] && w.ours == {}
  }

  // ----- the invariant

  predicate Holds(stage: Stage) {
    stage.Sending? || stage.Acking? || stage.Failing?
  }

  /** Every row of ours is valid and a first attempt; rows were requested in the past. */
  ghost predicate RowsInv(w: World) {
    && ValidRows(w.rows)
    && (forall id :: id in w.rows ==> w.rows[id].requestedAt <= w.clock)
    && (forall id :: id in w.ours ==> id in w.rows && w.rows[id].attemptNumber == 1)
  }

  /** Sends carry our ids, name the task of their row, and no id or message id is used twice. */
  ghost predicate SendsInv(w: World) {
    && (forall i :: 0 <= i < |w.sends| ==>
          && w.sends[i].dispatchId in w.ours && w.sends[i].dispatchId in w.rows
          && SameTask(w.rows[w.sends[i].dispatchId], w.sends[i].runId, w.sends[i].taskId))
    && (forall i, j :: 0 <= i < j < |w.sends| ==>
          w.sends[i].dispatchId != w.sends[j].dispatchId && w.sends[i].messageId != w.sends[j].messageId)
  }

  predicate Sent(sends: seq<Send>, id: DispatchId) {
    exists i :: 0 <= i < |sends| && sends[i].dispatchId == id
  }

  predicate SentWith(sends: seq<Send>, id: DispatchId, messageId: MessageId, outcome: Outcome) {
    exists i :: 0 <= i < |sends| && sends[i].dispatchId == id && sends[i].messageId == messageId && sends[i].outcome == outcome
  }

  predicate FailedToSend(sends: seq<Send>, id: DispatchId) {
    exists i :: 0 <= i < |sends| && sends[i].dispatchId == id && sends[i].outcome.ConnectionError?
  }

  /** A call that may still send or record holds its row alone; a receipt is that of a first, enqueued row. */
  ghost predicate CallInv(w: World, call: Call) {
    match call.stage
    case Sending => Reserved(w, call) && !Sent(w.sends, call.dispatchId)
    case Acking(m) => Reserved(w, call) && SentWith(w.sends, call.dispatchId, m, Accepted)
    case Failing => Reserved(w, call) && FailedToSend(w.sends, call.dispatchId)
    case Returned(r) =>
      && call.dispatchId in w.rows && w.rows[call.dispatchId].state == Enqueued
      && SameTask(w.rows[call.dispatchId], call.runId, call.taskId) && w.rows[call.dispatchId].attemptNumber == 1
      && w.rows[call.dispatchId].brokerMessageId.Some? && w.rows[call.dispatchId].queueName.Some?
      && r == ReceiptOf(w.rows[call.dispatchId])
    case _ => true
  }

  ghost predicate Reserved(w: World, call: Call) {
    && call.dispatchId in w.ours && call.dispatchId in w.rows && w.rows[call.dispatchId].state == Requested
    && SameTask(w.rows[call.dispatchId], call.runId, call.taskId)
  }

  ghost predicate CallsInv(w: World) {
    && (forall c :: c in w.calls ==> CallInv(w, w.calls[c]))
    && (forall c, d :: c in w.calls && d in w.calls && c != d && Holds(w.calls[c].stage) && Holds(w.calls[d].stage) ==>
          w.calls[c].dispatchId != w.calls[d].dispatchId)
  }

  /** What a resolved row says is backed by what the sends under its id did. */
  ghost predicate Truthful(sends: seq<Send>, id: DispatchId, row: Attempt) {
    match row.state
    case Enqueued => row.brokerMessageId.Some? && SentWith(sends, id, row.brokerMessageId.value, Accepted)
    case PublishFailed => FailedToSend(sends, id)
    case Requested => true
  }

  ghost predicate TruthInv(w: World) {
    forall id :: id in w.ours && id in w.rows ==> Truthful(w.sends, id, w.rows[id])
  }

  ghost predicate Inv(w: World) {
    RowsInv(w) && SendsInv(w) && CallsInv(w) && TruthInv(w)
  }

  lemma StageChangeKeepsInv(w: World, c: CallId, stage: Stage)
    requires Inv(w) && c in w.calls
    requires CallInv(w, w.calls[c].(stage := stage)) && (Holds(stage) ==> Holds(w.calls[c].stage))
    ensures Inv(At(w, c, stage))
  {
    var w' := At(w, c, stage);
    forall d | d in w'.calls ensures CallInv(w', w'.calls[d]) {
      assert CallInv(w, w'.calls[d]);
    }
  }

  /** A new row, which no call was waiting for, disturbs nothing. */
  lemma NewRowKeepsInv(w: World, id: DispatchId, row: Attempt)
    requires Inv(w) && id !in w.rows && row.state == Requested && row.requestedAt <= w.clock
    requires ValidRows(w.rows[id := row])
    ensures Inv(w.(rows := w.rows[id := row]))
  {
    var w' := w.(rows := w.rows[id := row]);
    forall c | c in w.calls ensures CallInv(w', w.calls[c]) { assert CallInv(w, w.calls[c]); }
  }

  lemma BeginKeepsInv(w: World, c: CallId)
    requires Inv(w) && StageOf(w, c) == Some(Beginning)
    ensures Inv(StepBegin(w, c))
  {
    var call := w.calls[c];
    BeginCreatesOnce(w.runs, w.rows, call.dispatchId, call.runId, call.taskId, w.clock);
    match Begin(w.runs, w.rows, call.dispatchId, call.runId, call.taskId, w.clock)
    case Err(e) => StageChangeKeepsInv(w, c, Raised(LedgerRefused(e)));
    case Ok((a, created)) =>
      if created {
        var id := call.dispatchId;
        NewRowKeepsInv(w, id, a);
        var w1 := w.(rows := w.rows[id := a]);
        assert !Sent(w1.sends, id);
        ReserveKeepsInv(w1, c, id);
      } else if a.state == Enqueued {
        StageChangeKeepsInv(w, c, Returned(ReceiptOf(a)));
      } else {
        StageChangeKeepsInv(w, c, Raised(Unresolved));
      }
  }

  lemma ReserveKeepsInv(w: World, c: CallId, id: DispatchId)
    requires Inv(w) && StageOf(w, c) == Some(Beginning) && w.calls[c].dispatchId == id
    requires id !in w.ours && id in w.rows && w.rows[id].state == Requested && w.rows[id].attemptNumber == 1
    requires SameTask(w.rows[id], w.calls[c].runId, w.calls[c].taskId) && !Sent(w.sends, id)
    ensures Inv(At(w, c, Sending).(ours := w.ours + {id}))
  {
    var w' := At(w, c, Sending).(ours := w.ours + {id});
    forall d | d in w'.calls ensures CallInv(w', w'.calls[d]) { assert CallInv(w, w.calls[d]); }
    forall d | d in w.calls && Holds(w.calls[d].stage) ensures w.calls[d].dispatchId != id {
      assert CallInv(w, w.calls[d]);
    }
  }

  lemma SendsGrow(sends: seq<Send>, s: Send)
    ensures forall id :: Sent(sends + [s], id) <==> Sent(sends, id) || s.dispatchId == id
    ensures forall id, m, o :: SentWith(sends, id, m, o) ==> SentWith(sends + [s], id, m, o)
    ensures forall id :: FailedToSend(sends, id) ==> FailedToSend(sends + [s], id)
    ensures s.outcome == Accepted ==> SentWith(sends + [s], s.dispatchId, s.messageId, Accepted)
    ensures s.outcome.ConnectionError? ==> FailedToSend(sends + [s], s.dispatchId)
  {
    var sends' := sends + [s];
    assert sends'[|sends|] == s;
    forall id ensures Sent(sends', id) <==> Sent(sends, id) || s.dispatchId == id {
      if i :| 0 <= i < |sends| && sends[i].dispatchId == id { assert sends'[i].dispatchId == id; }
    }
    forall id, m, o | SentWith(sends, id, m, o) ensures SentWith(sends', id, m, o) {
      var i :| 0 <= i < |sends| && sends[i].dispatchId == id && sends[i].messageId == m && sends[i].outcome == o;
      assert sends'[i] == sends[i];
    }
    forall id | FailedToSend(sends, id) ensures FailedToSend(sends', id) {
      var i :| 0 <= i < |sends| && sends[i].dispatchId == id && sends[i].outcome.ConnectionError?;
      assert sends'[i] == sends[i];
    }
  }

  lemma SendKeepsInv(w: World, c: CallId, messageId: MessageId, outcome: Outcome)
    requires Inv(w) && StageOf(w, c) == Some(Sending) && Fresh(w, messageId)
    ensures Inv(StepSend(w, c, messageId, outcome))
  {
    var call, w' := w.calls[c], StepSend(w, c, messageId, outcome);
    var s := Send(messageId, call.dispatchId, call.runId, call.taskId, outcome);
    assert CallInv(w, call);
    SendsGrow(w.sends, s);
    assert w'.sends[|w.sends|] == s;
    forall i | 0 <= i < |w.sends| ensures w.sends[i].dispatchId != call.dispatchId { assert !Sent(w.sends, call.dispatchId); }
    forall d | d in w'.calls ensures CallInv(w', w'.calls[d]) {
      assert CallInv(w, w.calls[d]);
      if d != c && w.calls[d].stage.Sending? { assert w.calls[d].dispatchId != call.dispatchId; }
    }
  }

  lemma ResolveKeepsInv(w: World, c: CallId, row: Attempt, stage: Stage)
    requires Inv(w) && c in w.calls && Holds(w.calls[c].stage) && !Holds(stage)
    requires Reserved(w, w.calls[c])
    requires var id := w.calls[c].dispatchId;
             && row.Valid() && row.dispatchId == id && row.runId == w.rows[id].runId && row.taskId == w.rows[id].taskId
             && row.attemptNumber == w.rows[id].attemptNumber && row.requestedAt == w.rows[id].requestedAt
             && row.state != Requested
             && (row.state == Enqueued ==> SentWith(w.sends, id, row.brokerMessageId.value, Accepted))
             && (row.state == PublishFailed ==> FailedToSend(w.sends, id))
    requires stage.Returned? ==> row.state == Enqueued && stage.receipt == ReceiptOf(row)
    ensures Inv(At(w.(rows := w.rows[w.calls[c].dispatchId := row]), c, stage))
  {
    var id := w.calls[c].dispatchId;
    var w' := At(w.(rows := w.rows[id := row]), c, stage);
    MarksKeepTheTable(w.rows, id, row);
    forall d | d in w'.calls ensures CallInv(w', w'.calls[d]) {
      assert CallInv(w, w.calls[d]);
      if d != c && Holds(w.calls[d].stage) { assert w.calls[d].dispatchId != id; }
    }
  }

  lemma EnqueuedKeepsInv(w: World, c: CallId)
    requires Inv(w) && c in w.calls && w.calls[c].stage.Acking?
    ensures Inv(StepEnqueued(w, c, w.calls[c].stage.messageId))
    ensures StageOf(StepEnqueued(w, c, w.calls[c].stage.messageId), c).value.Returned?
  {
    var call := w.calls[c];
    assert CallInv(w, call);
    var row := Acknowledged(w.rows[call.dispatchId], call.stage.messageId, QUEUE_NAME, w.clock);
    ResolveKeepsInv(w, c, row, Returned(ReceiptOf(row)));
  }

  lemma FailedKeepsInv(w: World, c: CallId)
    requires Inv(w) && StageOf(w, c) == Some(Failing)
    ensures Inv(StepFailed(w, c))
    ensures StageOf(StepFailed(w, c), c) == Some(Raised(BrokerFailed))
  {
    var call := w.calls[c];
    assert CallInv(w, call);
    var row := Refused(w.rows[call.dispatchId], BROKER_ERROR_CODE, BROKER_ERROR_MESSAGE, w.clock);
    ResolveKeepsInv(w, c, row, Raised(BrokerFailed));
  }

  lemma RecoveryResolvesKeepsInv(w: World, id: DispatchId, row: Attempt)
    requires Inv(w)
    ensures Inv(Apply(w, RecoveryResolves(id, row)))
  {
    var w' := Apply(w, RecoveryResolves(id, row));
    if w' != w {
      MarksKeepTheTable(w.rows, id, row);
      forall d | d in w'.calls ensures CallInv(w', w'.calls[d]) { assert CallInv(w, w.calls[d]); }
    }
  }

  lemma RecoveryPreparesKeepsInv(w: World, id: DispatchId, runId: RunId, taskId: string, n: nat)
    requires Inv(w)
    ensures Inv(Apply(w, RecoveryPrepares(id, runId, taskId, n)))
  {
    if Apply(w, RecoveryPrepares(id, runId, taskId, n)) != w {
      NewRowKeepsInv(w, id, FirstAttempt(id, runId, taskId, w.clock).(attemptNumber := n));
    }
  }

  lemma SurroundingsKeepInv(w: World, a: Action)
    requires Inv(w) && (a.SetRun? || a.Tick? || a.Invoke?)
    ensures Inv(Apply(w, a))
  {
    var w' := Apply(w, a);
    forall d | d in w'.calls ensures CallInv(w', w'.calls[d]) {
      if d in w.calls { assert CallInv(w, w.calls[d]); }
    }
  }

  lemma StepKeepsInv(w: World, a: Action)
    requires Inv(w)
    ensures Inv(Apply(w, a))
  {
    match a
    case LoadRun(c) =>
      if StageOf(w, c) == Some(Loading) { StageChangeKeepsInv(w, c, StepLoad(w, c).calls[c].stage); }
    case BeginAttempt(c) => if StageOf(w, c) == Some(Beginning) { BeginKeepsInv(w, c); }
    case SendMessage(c, m, o) => if StageOf(w, c) == Some(Sending) && Fresh(w, m) { SendKeepsInv(w, c, m, o); }
    case RecordEnqueued(c) => if c in w.calls && w.calls[c].stage.Acking? { EnqueuedKeepsInv(w, c); }
    case RecordFailed(c) => if StageOf(w, c) == Some(Failing) { FailedKeepsInv(w, c); }
    case Crash(c) => if c in w.calls { StageChangeKeepsInv(w, c, Crashed); }
    case RecoveryPrepares(id, runId, taskId, n) => RecoveryPreparesKeepsInv(w, id, runId, taskId, n);
    case RecoveryResolves(id, row) => RecoveryResolvesKeepsInv(w, id, row);
    case _ => SurroundingsKeepInv(w, a);
  }

  lemma {:induction false} EveryReachableWorldIsSound(w: World, actions: seq<Action>)
    requires Start(w)
    ensures Inv(Run(w, actions))
  {
    if actions != [] {
      EveryReachableWorldIsSound(w, actions[..|actions| - 1]);
      StepKeepsInv(Run(w, actions[..|actions| - 1]), actions[|actions| - 1]);
    }
  }
}
