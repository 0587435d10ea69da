/** What the dispatch protocol guarantees in every reachable world. */
module DispatchSafety {
  import opened Wrappers
  import opened Ledger
  import opened Dispatch

  lemma {:induction false} RunSnoc(w: World, actions: seq<Action>, a: Action)
    ensures Run(w, actions + [a]) == Apply(Run(w, actions), a)
  {
    assert (actions + [a])[..|actions|] == actions;
  }

  predicate ForTask(s: Send, runId: RunId, taskId: string) {
    s.runId == runId && s.taskId == taskId
  }

  /** However calls interleave and crash, a task is sent to the broker at most once. */
  lemma {:induction false} AtMostOneSendPerTask(w: World, actions: seq<Action>, i: nat, j: nat)
    requires Start(w) && i < j < |Run(w, actions).sends|
    ensures var sends := Run(w, actions).sends; !ForTask(sends[j], sends[i].runId, sends[i].taskId)
  {
    EveryReachableWorldIsSound(w, actions);
    var w' := Run(w, actions);
    var a, b := w'.sends[i].dispatchId, w'.sends[j].dispatchId;
    assert SendsInv(w');
    assert a in w'.ours && b in w'.ours && a != b;
    assert w'.rows[a].attemptNumber == 1 && w'.rows[b].attemptNumber == 1;
  }

  /** The task has an attempt, and no call is about to send it: unresolved, failed or delivered alike. */
  ghost predicate Dormant(w: World, runId: RunId, taskId: string) {
    HasAttempt(w.rows, runId, taskId) && NobodySending(w, runId, taskId)
  }

  /** Sends only grow, and the new ones are not for this task. */
  ghost predicate NoNewSend(w: World, w': World, runId: RunId, taskId: string) {
    w.sends <= w'.sends && forall i :: |w.sends| <= i < |w'.sends| ==> !ForTask(w'.sends[i], runId, taskId)
  }

  lemma AttemptsStay(w: World, a: Action, runId: RunId, taskId: string)
    requires Inv(w) && HasAttempt(w.rows, runId, taskId)
    ensures HasAttempt(Apply(w, a).rows, runId, taskId)
  {
    var id :| id in w.rows && SameTask(w.rows[id], runId, taskId);
    RowsAreFinal(w, a);
    assert SameTask(Apply(w, a).rows[id], runId, taskId);
  }

  ghost predicate NobodySending(w: World, runId: RunId, taskId: string) {
    forall c :: c in w.calls && w.calls[c].stage.Sending? ==> !(w.calls[c].runId == runId && w.calls[c].taskId == taskId)
  }

  lemma OnlySendersSend(w: World, a: Action, runId: RunId, taskId: string)
    requires NobodySending(w, runId, taskId)
    ensures NoNewSend(w, Apply(w, a), runId, taskId)
  {
    match a
    case SendMessage(c, m, o) =>
    case BeginAttempt(c) =>
    case RecordEnqueued(c) =>
    case RecordFailed(c) =>
    case _ =>
  }

  lemma BeginFindsTheAttempt(w: World, c: CallId, runId: RunId, taskId: string)
    requires HasAttempt(w.rows, runId, taskId) && c in w.calls && w.calls[c].runId == runId && w.calls[c].taskId == taskId
    requires !w.calls[c].stage.Sending?
    ensures !StepBegin(w, c).calls[c].stage.Sending?
  {
  }

  lemma NobodyStartsSending(w: World, a: Action, runId: RunId, taskId: string)
    requires HasAttempt(w.rows, runId, taskId) && NobodySending(w, runId, taskId)
    ensures NobodySending(Apply(w, a), runId, taskId)
  {
    match a
    case BeginAttempt(c) =>
      if StageOf(w, c) == Some(Beginning) && w.calls[c].runId == runId && w.calls[c].taskId == taskId {
        BeginFindsTheAttempt(w, c, runId, taskId);
      }
    case SendMessage(c, m, o) =>
    case RecordEnqueued(c) =>
    case RecordFailed(c) =>
    case _ =>
  }

  lemma DormantStep(w: World, a: Action, runId: RunId, taskId: string)
    requires Inv(w) && Dormant(w, runId, taskId)
    ensures Dormant(Apply(w, a), runId, taskId) && NoNewSend(w, Apply(w, a), runId, taskId)
  {
    AttemptsStay(w, a, runId, taskId);
    OnlySendersSend(w, a, runId, taskId);
    NobodyStartsSending(w, a, runId, taskId);
  }

  /** An attempt that is unresolved, failed or delivered is never sent again. */
  lemma {:induction false} DormantForever(w: World, actions: seq<Action>, runId: RunId, taskId: string)
    requires Inv(w) && Dormant(w, runId, taskId)
    ensures Inv(Run(w, actions)) && Dormant(Run(w, actions), runId, taskId)
    ensures NoNewSend(w, Run(w, actions), runId, taskId)
  {
    if actions != [] {
      var n := |actions| - 1;
      DormantForever(w, actions[..n], runId, taskId);
      StepKeepsInv(Run(w, actions[..n]), actions[n]);
      DormantStep(Run(w, actions[..n]), actions[n], runId, taskId);
    }
  }

  lemma RecordIsFinal(w: World, c: CallId)
    requires Inv(w) && c in w.calls
    ensures w.calls[c].stage.Acking? ==> ResolvedIsFinal(w.rows, StepEnqueued(w, c, w.calls[c].stage.messageId).rows)
    ensures w.calls[c].stage.Failing? ==> ResolvedIsFinal(w.rows, StepFailed(w, c).rows)
  {
    assert CallInv(w, w.calls[c]);
  }

  lemma BeginIsFinal(w: World, c: CallId)
    requires Inv(w) && c in w.calls
    ensures ResolvedIsFinal(w.rows, StepBegin(w, c).rows)
  {
    var call := w.calls[c];
    BeginCreatesOnce(w.runs, w.rows, call.dispatchId, call.runId, call.taskId, w.clock);
  }

  lemma RecoveryIsFinal(w: World, a: Action)
    requires Inv(w) && (a.RecoveryPrepares? || a.RecoveryResolves?)
    ensures ResolvedIsFinal(w.rows, Apply(w, a).rows)
  {
  }

  /** No step changes a resolved row or takes a row away. */
  lemma RowsAreFinal(w: World, a: Action)
    requires Inv(w)
    ensures ResolvedIsFinal(w.rows, Apply(w, a).rows)
  {
    match a
    case BeginAttempt(c) => if StageOf(w, c) == Some(Beginning) { BeginIsFinal(w, c); }
    case RecordEnqueued(c) => if c in w.calls && w.calls[c].stage.Acking? { RecordIsFinal(w, c); }
    case RecordFailed(c) => if StageOf(w, c) == Some(Failing) { RecordIsFinal(w, c); }
    case RecoveryPrepares(_, _, _, _) => RecoveryIsFinal(w, a);
    case RecoveryResolves(_, _) => RecoveryIsFinal(w, a);
    case _ => assert Apply(w, a).rows == w.rows;
  }

  // ----- the ledger tells the truth

  /** The messages the broker kept for a dispatch id. */
  ghost function KeptFor(w: World, id: DispatchId): set<MessageId> {
    set i | 0 <= i < |w.sends| && w.sends[i].dispatchId == id && w.sends[i].Kept() :: w.sends[i].messageId
  }

  lemma OneSendDecides(w: World, id: DispatchId, i: nat)
    requires Inv(w) && i < |w.sends| && w.sends[i].dispatchId == id
    ensures KeptFor(w, id) == if w.sends[i].Kept() then {w.sends[i].messageId} else {}
  {
    assert forall j :: 0 <= j < |w.sends| && w.sends[j].dispatchId == id ==> j == i;
  }

  /** ENQUEUED means exactly one message, the one the row names. */
  lemma {:induction false} EnqueuedMeansDelivered(w: World, actions: seq<Action>, id: DispatchId)
    requires Start(w)
    requires var w' := Run(w, actions); id in w'.ours && id in w'.rows && w'.rows[id].state == Enqueued
    ensures var w' := Run(w, actions);
            w'.rows[id].brokerMessageId.Some? && KeptFor(w', id) == {w'.rows[id].brokerMessageId.value}
  {
    EveryReachableWorldIsSound(w, actions);
    var w' := Run(w, actions);
    var m := w'.rows[id].brokerMessageId.value;
    assert SentWith(w'.sends, id, m, Accepted);
    var i :| 0 <= i < |w'.sends| && w'.sends[i].dispatchId == id && w'.sends[i].messageId == m && w'.sends[i].outcome == Accepted;
    OneSendDecides(w', id, i);
  }

  /** PUBLISH_FAILED means one send that raised; nothing was delivered iff the broker really dropped it. */
  lemma FailedMeansRaised(w: World, actions: seq<Action>, id: DispatchId) returns (i: nat)
    requires Start(w)
    requires var w' := Run(w, actions); id in w'.ours && id in w'.rows && w'.rows[id].state == PublishFailed
    ensures var w' := Run(w, actions);
            && i < |w'.sends| && w'.sends[i].dispatchId == id && w'.sends[i].outcome.ConnectionError?
            && (forall j :: 0 <= j < |w'.sends| && w'.sends[j].dispatchId == id ==> j == i)
            && (KeptFor(w', id) == {} <==> !w'.sends[i].outcome.kept)
            && |KeptFor(w', id)| <= 1
  {
    EveryReachableWorldIsSound(w, actions);
    var w' := Run(w, actions);
    assert FailedToSend(w'.sends, id);
    i :| 0 <= i < |w'.sends| && w'.sends[i].dispatchId == id && w'.sends[i].outcome.ConnectionError?;
    OneSendDecides(w', id, i);
    assert w'.sends[i].messageId in {w'.sends[i].messageId};
  }

  function ExampleStart(): World {
    World(map[0 := RunInfo(true, {"T"})], map[], [], map[], {}, 0)
  }

  function Script(c: CallId, id: DispatchId, runId: RunId, taskId: string, m: MessageId, outcome: Outcome): seq<Action> {
    [Invoke(c, id, runId, taskId), LoadRun(c), BeginAttempt(c), SendMessage(c, m, outcome), RecordEnqueued(c), RecordFailed(c)]
  }

  lemma {:induction false} RunThree(w: World, a: Action, b: Action, c: Action)
    ensures Run(w, [a, b, c]) == Apply(Apply(Apply(w, a), b), c)
  {
    assert [] + [a] == [a] && [a] + [b] == [a, b] && [a, b] + [c] == [a, b, c];
    RunSnoc(w, [], a);
    RunSnoc(w, [a], b);
    RunSnoc(w, [a, b], c);
  }

  lemma {:induction false} RunConcat(w: World, s: seq<Action>, t: seq<Action>)
    ensures Run(w, s + t) == Run(Run(w, s), t)
  {
    if t == [] {
      assert s + t == s;
    } else {
      var n := |t| - 1;
      RunConcat(w, s, t[..n]);
      assert s + t == (s + t[..n]) + [t[n]];
      RunSnoc(w, s + t[..n], t[n]);
    }
  }

  lemma {:induction false} ScriptUnfolds(w: World, s: seq<Action>)
    requires |s| == 6
    ensures Run(w, s) == Apply(Apply(Apply(Apply(Apply(Apply(w, s[0]), s[1]), s[2]), s[3]), s[4]), s[5])
  {
    assert s == [s[0], s[1], s[2]] + [s[3], s[4], s[5]];
    RunConcat(w, [s[0], s[1], s[2]], [s[3], s[4], s[5]]);
    RunThree(w, s[0], s[1], s[2]);
    RunThree(Run(w, [s[0], s[1], s[2]]), s[3], s[4], s[5]);
  }

  /** The broker may keep a message and still report a connection error: a failed row can hide a delivery. */
  lemma FailedRowMayHideADelivery()
    ensures Start(ExampleStart())
    ensures var w := Run(ExampleStart(), Script(0, 7, 0, "T", 3, ConnectionError(true)));
            7 in w.ours && 7 in w.rows && w.rows[7].state == PublishFailed && KeptFor(w, 7) == {3}
  {
    var w0 := ExampleStart();
    var s := Script(0, 7, 0, "T", 3, ConnectionError(true));
    ScriptUnfolds(w0, s);
    var w3 := Apply(Apply(Apply(w0, s[0]), s[1]), s[2]);
    assert w3.calls[0].stage == Sending && w3.sends == [];
    var w4 := Apply(w3, s[3]);
    assert w4.sends == [Send(3, 7, 0, "T", ConnectionError(true))] && w4.calls[0].stage == Failing;
    var w6 := Apply(Apply(w4, s[4]), s[5]);
    assert w6.sends[0].dispatchId == 7 && w6.sends[0].Kept();
    assert w6.rows[7].state == PublishFailed;
    EveryReachableWorldIsSound(w0, s);
    OneSendDecides(w6, 7, 0);
  }

  /** All receipts for a task are the same, and a receipt of ours names a message the broker accepted. */
  lemma {:induction false} ReceiptsAgree(w: World, actions: seq<Action>, c: CallId, d: CallId)
    requires Start(w)
    requires var w' := Run(w, actions);
             && c in w'.calls && d in w'.calls && w'.calls[c].stage.Returned? && w'.calls[d].stage.Returned?
             && w'.calls[c].runId == w'.calls[d].runId && w'.calls[c].taskId == w'.calls[d].taskId
    ensures var w' := Run(w, actions);
            && w'.calls[c].stage.receipt == w'.calls[d].stage.receipt
            && w'.calls[c].stage.receipt.runId == w'.calls[c].runId && w'.calls[c].stage.receipt.taskId == w'.calls[c].taskId
            && (w'.calls[c].stage.receipt.dispatchId in w'.ours ==>
                  KeptFor(w', w'.calls[c].stage.receipt.dispatchId) == {w'.calls[c].stage.receipt.brokerMessageId})
  {
    EveryReachableWorldIsSound(w, actions);
    var w' := Run(w, actions);
    assert CallInv(w', w'.calls[c]) && CallInv(w', w'.calls[d]);
    var id := w'.calls[c].dispatchId;
    assert w'.rows[id].dispatchId == id;
    if id in w'.ours { EnqueuedMeansDelivered(w, actions, id); }
  }
}
