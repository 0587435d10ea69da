/** `DurableTaskDispatcher` of `backend/app/dispatch/durable.py`, over the ledger of `backend/app/persistence/dispatch.py`: one call in sequence. */
module DurableDispatchers {
  import opened Wrappers
  import opened Ledger
  import opened Dispatch
  import opened DispatchSafety
  import opened DispatchAnswers

  class DurableDispatcher {
    var rows: Rows
    var sends: seq<Send>
    var clock: nat
    ghost var ours: set<DispatchId>

    constructor ()
      ensures rows == map[] && sends == [] && ours == {}
    {
      rows, sends, clock, ours := map[], [], 0, {};
    }

    ghost function Snapshot(runs: Runs, calls: map<CallId, Call>): World
      reads this
    {
      World(runs, rows, sends, calls, ours, clock)
    }

    method BeginInitialAttempt(runs: Runs, id: DispatchId, runId: RunId, taskId: string)
      returns (r: Result<(Attempt, bool), LedgerError>)
      modifies this
      ensures r == Begin(runs, old(rows), id, runId, taskId, clock)
      ensures rows == if r.Ok? && r.value.1 then old(rows)[id := r.value.0] else old(rows)
      ensures ours == if r.Ok? && r.value.1 then old(ours) + {id} else old(ours)
      ensures sends == old(sends) && clock == old(clock)
    {
      if runId !in runs { return Err(UnknownRun); }
      if !runs[runId].running { return Err(RunNotRunning); }
      if taskId !in runs[runId].tasks { return Err(UnknownTask); }
      if id in rows {
        var current := rows[id];
        if current.runId != runId || current.taskId != taskId { return Err(BoundToAnotherTask); }
        if current.attemptNumber != 1 { return Err(RefersToRecovery); }
        return Ok((current, false));
      }
      if exists other :: other in rows && rows[other].runId == runId && rows[other].taskId == taskId {
        assert HasAttempt(rows, runId, taskId) by {
          var other :| other in rows && rows[other].runId == runId && rows[other].taskId == taskId;
          assert SameTask(rows[other], runId, taskId);
        }
        return Err(AlreadyAttempted);
      }
      var row := FirstAttempt(id, runId, taskId, clock);
      rows, ours := rows[id := row], ours + {id};
      return Ok((row, true));
    }

    method Record(id: DispatchId, r: Result<Attempt, LedgerError>)
      modifies this`rows
      ensures rows == if r.Ok? then old(rows)[id := r.value] else old(rows)
    {
      if r.Ok? { rows := rows[id := r.value]; }
    }

    /** The send and what is recorded of it, once the row is there. */
    method Publish(runs: Runs, runId: RunId, taskId: string, dispatchId: DispatchId, messageId: MessageId, outcome: Outcome,
                   ghost c: CallId, ghost calls: map<CallId, Call>)
      returns (r: Result<Receipt, Rejection>)
      requires c in calls && calls[c] == Call(dispatchId, runId, taskId, Sending) && Fresh(Snapshot(runs, calls), messageId)
      modifies this
      ensures var w := Apply(Apply(Apply(old(Snapshot(runs, calls)), SendMessage(c, messageId, outcome)), RecordEnqueued(c)), RecordFailed(c));
              && Snapshot(runs, w.calls) == w && c in w.calls
              && w.calls[c].stage == match r case Ok(receipt) => Returned(receipt) case Err(reason) => Raised(reason)
    {
      ghost var w3 := Snapshot(runs, calls);
      sends := sends + [Send(messageId, dispatchId, runId, taskId, outcome)];
      ghost var w4 := Apply(w3, SendMessage(c, messageId, outcome));
      assert w4 == Snapshot(runs, w4.calls);
      match outcome
      case OtherError(_) => return Err(Uncaught);
      case ConnectionError(_) =>
        assert w4.calls[c].stage == Failing;
        var failed := MarkPublishFailed(rows, dispatchId, runId, taskId, BROKER_ERROR_CODE, BROKER_ERROR_MESSAGE, clock);
        Record(dispatchId, failed);
        return Err(if failed.Ok? then BrokerFailed else LedgerRefused(failed.error));
      case Accepted =>
        assert w4.calls[c].stage == Acking(messageId);
        var enqueued := MarkEnqueued(rows, dispatchId, runId, taskId, messageId, QUEUE_NAME, clock);
        Record(dispatchId, enqueued);
        if enqueued.Err? { return Err(LedgerRefused(enqueued.error)); }
        r := ReceiptFromAttempt(enqueued.value);
    }

    /** `dispatch` without interruption is the protocol's steps in a row, and its answer is the call's last stage. */
    method Dispatch(runs: Runs, runId: RunId, taskId: string, dispatchId: DispatchId, messageId: MessageId, outcome: Outcome,
                    ghost c: CallId, ghost calls: map<CallId, Call>)
      returns (r: Result<Receipt, Rejection>)
      requires c !in calls && forall i :: 0 <= i < |sends| ==> sends[i].messageId != messageId
      modifies this
      ensures var w := Run(old(Snapshot(runs, calls)), Script(c, dispatchId, runId, taskId, messageId, outcome));
              && Snapshot(runs, w.calls) == w && c in w.calls
              && w.calls[c].stage == match r case Ok(receipt) => Returned(receipt) case Err(reason) => Raised(reason)
      ensures old(Inv(Snapshot(runs, calls))) ==>
                var w := Run(old(Snapshot(runs, calls)), Script(c, dispatchId, runId, taskId, messageId, outcome));
                Answers(old(Snapshot(runs, calls)), Query(dispatchId, runId, taskId), messageId, outcome, Snapshot(runs, w.calls),
                        match r case Ok(receipt) => Returned(receipt) case Err(reason) => Raised(reason))
    {
      ghost var w0 := Snapshot(runs, calls);
      if Inv(w0) { CallIsAnswered(w0, c, Query(dispatchId, runId, taskId), messageId, outcome); }
      ghost var s := Script(c, dispatchId, runId, taskId, messageId, outcome);
      ScriptUnfolds(w0, s);
      ghost var w2 := Apply(Apply(w0, s[0]), s[1]);
      if runId !in runs || !runs[runId].running { return Err(Rejection.NotRunning); }
      if taskId !in runs[runId].tasks { return Err(NotInRun); }
      assert w2.calls[c].stage == Beginning;
      var begun := BeginInitialAttempt(runs, dispatchId, runId, taskId);
      ghost var w3 := Apply(w2, s[2]);
      if begun.Err? { return Err(LedgerRefused(begun.error)); }
      var (attempt, created) := begun.value;
      if !created {
        r := ReceiptFromAttempt(attempt);
        return;
      }
      assert w3.calls[c].stage == Sending && w3 == Snapshot(runs, w3.calls);
      r := Publish(runs, runId, taskId, dispatchId, messageId, outcome, c, w3.calls);
    }

    method ReceiptFromAttempt(a: Attempt) returns (r: Result<Receipt, Rejection>)
      ensures r == if a.state == Enqueued && a.brokerMessageId.Some? && a.queueName.Some? then Ok(ReceiptOf(a)) else Err(Unresolved)
    {
      if a.state != Enqueued || a.brokerMessageId.None? || a.queueName.None? { return Err(Unresolved); }
      return Ok(Receipt(a.dispatchId, a.runId, a.taskId, a.brokerMessageId.value, a.queueName.value));
    }
  }
}
