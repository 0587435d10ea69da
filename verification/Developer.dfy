/** The turn loop of `DeveloperAgent.run` (`backend/app/agents/developer.py`). */
module Developer {
  import opened Wrappers
  import opened AgentLoops

  datatype Credit = Normal | InitialStartup | ToolRecovery | VerifiedProgress | CheckpointResume

  datatype Instruction = RetryWriteFile | CorrectArguments

  datatype Config = Config(
    maxIterations: nat, maxDuration: real, maxToolCallsPerTurn: nat,
    maxOutputTokens: nat, retryMaxOutputTokens: nat, resumesCheckpoint: bool)
  {
    predicate Valid() { maxIterations >= 1 && maxToolCallsPerTurn >= 1 }
  }

  /**
    * What the surroundings do in one iteration: clock readings, whether the workspace has changed files,
    * and the model's answer (`None` for a provider timeout).
    */
  datatype Turn = Turn(clockBefore: real, changedBefore: bool, answer: Option<Response>, changedAfter: bool, clockAfter: real)

  datatype Request = Request(iteration: nat, credit: Credit, recovery: Option<Instruction>, maxOutputTokens: nat, progress: bool)

  datatype StopReason = ModelStop | TimeLimit | ToolCallLimit | IterationLimit | RepeatedToolFailure

  datatype Bound = TimeElapsed | ProviderTimedOut | TooManyCalls | ToolTimedOut | IterationsReached

  datatype Message = Blank | Content(text: string) | AfterChanges(bound: Bound) | StoppedRepeating

  datatype DeveloperResult = DeveloperResult(
    stopReason: StopReason, iterations: nat, toolCalls: nat, message: Message, usage: Usage, latencyMs: nat, evidence: seq<Signature>)

  function LivenessCreditForTurn(iteration: nat, resumesCheckpoint: bool, progress: bool, recoveryPending: bool): Credit {
    if recoveryPending then ToolRecovery
    else if iteration == 1 && resumesCheckpoint then CheckpointResume
    else if iteration == 1 then InitialStartup
    else if progress then VerifiedProgress
    else Normal
  }

  predicate Recoverable(r: ToolRun) {
    !r.result.ok && r.result.errorCode in {Some(InvalidArguments), Some(AmbiguousPatch), Some(IoError)}
  }

  function RecoveryInstruction(r: ToolRun): Instruction {
    if r.callName == "write_file" && r.result.errorCode == Some(InvalidArguments) then RetryWriteFile else CorrectArguments
  }

  // ----- what a history of responses entitles the next request to

  /** The runs a response's calls give: all of them, up to the first that times out. */
  function RunsOf(calls: seq<Call>): (runs: seq<ToolRun>)
    ensures |runs| <= |calls|
  {
    if calls == [] || calls[0].outcome.TimedOut? then []
    else [ToolRun(calls[0].name, calls[0].outcome.result)] + RunsOf(calls[1..])
  }

  ghost function AllRuns(responses: seq<Response>): seq<ToolRun> {
    if responses == [] then [] else AllRuns(responses[..|responses| - 1]) + RunsOf(responses[|responses| - 1].calls)
  }

  /** The correction for the last recoverable failure. */
  ghost function RecoveryOf(runs: seq<ToolRun>): Option<Instruction> {
    if runs == [] then None
    else
      var r := runs[|runs| - 1];
      if Recoverable(r) then Some(RecoveryInstruction(r)) else RecoveryOf(runs[..|runs| - 1])
  }

  ghost predicate Earned(responses: seq<Response>) {
    responses != [] && (Earned(responses[..|responses| - 1]) || RecoveryOf(RunsOf(responses[|responses| - 1].calls)).Some?)
  }

  /** The first turn with a recoverable failure earns the next request a correction; no other turn does. */
  ghost function RecoveryFor(responses: seq<Response>): Option<Instruction> {
    if responses == [] || Earned(responses[..|responses| - 1]) then None
    else RecoveryOf(RunsOf(responses[|responses| - 1].calls))
  }

  ghost function RequestFor(cfg: Config, dirty: bool, turn: Turn, history: seq<Response>): Request {
    var recovery := RecoveryFor(history);
    var progress := dirty || AnyOk(AllRuns(history)) || turn.changedBefore;
    Request(|history| + 1,
            LivenessCreditForTurn(|history| + 1, cfg.resumesCheckpoint, progress, recovery.Some?),
            recovery, if recovery.Some? then cfg.retryMaxOutputTokens else cfg.maxOutputTokens, progress)
  }

  lemma {:induction false} EarnedIsKept(responses: seq<Response>, i: nat)
    requires i <= |responses| && Earned(responses[..i])
    ensures Earned(responses)
    decreases |responses|
  {
    if i == |responses| {
      assert responses[..i] == responses;
    } else {
      var front := responses[..|responses| - 1];
      assert front[..i] == responses[..i];
      EarnedIsKept(front, i);
    }
  }

  /** Whatever the model and the tools do, one request at most carries a correction. */
  lemma AtMostOneRecovery(responses: seq<Response>, i: nat, j: nat)
    requires i < j <= |responses| && RecoveryFor(responses[..i]).Some?
    ensures RecoveryFor(responses[..j]).None?
  {
    var upToI, upToJ := responses[..i], responses[..j];
    assert Earned(upToI);
    assert upToJ[..j - 1][..i] == upToI;
    EarnedIsKept(upToJ[..j - 1], i);
  }

  lemma {:induction false} RunsOfAll(calls: seq<Call>, k: nat)
    requires k <= |calls| && forall i :: 0 <= i < k ==> calls[i].outcome.Ran?
    requires k == |calls| || calls[k].outcome.TimedOut?
    ensures |RunsOf(calls)| == k
    ensures forall i :: 0 <= i < k ==> RunsOf(calls)[i] == ToolRun(calls[i].name, calls[i].outcome.result)
    decreases calls
  {
    if k > 0 { RunsOfAll(calls[1..], k - 1); }
  }

  lemma {:induction false} RunsOfPrefix(calls: seq<Call>, k: nat)
    requires k < |calls| && forall i :: 0 <= i <= k ==> calls[i].outcome.Ran?
    ensures k < |RunsOf(calls)| && RunsOf(calls)[k] == ToolRun(calls[k].name, calls[k].outcome.result)
    decreases k
  {
    if k > 0 { RunsOfPrefix(calls[1..], k - 1); }
  }

  // ----- the tool calls of one turn

  datatype ToolStop = AllRan | ToolTimeout | Repeated

  /** The failure bookkeeping after one run. */
  method CountFailure(run: ToolRun, lastFailure: Option<Signature>, failures: nat) returns (lastFailure': Option<Signature>, failures': nat)
    ensures lastFailure' == SignatureOf(run)
    ensures failures' == if lastFailure'.None? then 0 else if lastFailure' == lastFailure then failures + 1 else 1
  {
    if run.result.ok { return None, 0; }
    if run.result.errorCode.None? { return None, 0; }
    var signature := (run.result.name, run.result.errorCode.value, run.result.shape);
    failures' := if Some(signature) == lastFailure then failures + 1 else 1;
    lastFailure' := Some(signature);
  }

  /** `before` are the runs of earlier turns, whose failure bookkeeping is carried over. */
  method RunToolCalls(calls: seq<Call>, ghost before: seq<ToolRun>, progress: bool, lastFailure: Option<Signature>, failures: nat, creditUsed: bool)
    returns (runs: seq<ToolRun>, progress': bool, lastFailure': Option<Signature>, failures': nat, recovery: Option<Instruction>, stop: ToolStop)
    requires NoRepeats(before) && lastFailure == LastSignature(before) && failures == if lastFailure.None? then 0 else 1
    ensures runs <= RunsOf(calls) && lastFailure' == LastSignature(before + runs)
    ensures stop != Repeated ==> runs == RunsOf(calls) && NoRepeats(before + runs)
    ensures stop == AllRan ==> |runs| == |calls| && failures' == if lastFailure'.None? then 0 else 1
    ensures stop == AllRan ==> recovery == if creditUsed then None else RecoveryOf(runs)
    ensures stop == AllRan ==> (progress' <==> progress || AnyOk(runs))
    ensures stop == ToolTimeout ==> |runs| < |calls|
    ensures stop == Repeated ==> runs != [] && EndsInRepeat(before + runs)
  {
    runs, progress', lastFailure', failures', recovery, stop := [], progress, lastFailure, failures, None, AllRan;
    ghost var all := RunsOf(calls);
    assert before + [] == before;
    for k := 0 to |calls|
      invariant forall i :: 0 <= i < k ==> calls[i].outcome.Ran?
      invariant k <= |all| && runs == all[..k]
      invariant NoRepeats(before + runs) && lastFailure' == LastSignature(before + runs)
      invariant failures' == if lastFailure'.None? then 0 else 1
      invariant recovery == if creditUsed then None else RecoveryOf(runs)
      invariant progress' <==> progress || AnyOk(runs)
      invariant stop == AllRan
    {
      var call := calls[k];
      if call.outcome.TimedOut? {
        RunsOfAll(calls, k);
        assert all[..k] == all;
        return runs, progress', lastFailure', failures', recovery, ToolTimeout;
      }
      var run := ToolRun(call.name, call.outcome.result);
      RunsOfPrefix(calls, k);
      assert all[..k + 1] == runs + [run];
      AppendStep(before, runs, run);
      RecoveryStep(runs, run);
      lastFailure', failures' := CountFailure(run, lastFailure', failures');
      runs := runs + [run];
      if run.result.ok { progress' := true; }
      if failures' >= 2 {
        return runs, progress', lastFailure', failures', recovery, Repeated;
      }
      if !creditUsed && Recoverable(run) { recovery := Some(RecoveryInstruction(run)); }
    }
    RunsOfAll(calls, |calls|);
    assert all[..|calls|] == all;
  }

  /** The last two runs, and no two before, fail alike. */
  ghost predicate EndsInRepeat(runs: seq<ToolRun>) {
    |runs| >= 2 && NoRepeats(runs[..|runs| - 1]) && RepeatsAt(runs, |runs| - 2)
  }

  lemma AppendStep(before: seq<ToolRun>, runs: seq<ToolRun>, r: ToolRun)
    requires NoRepeats(before + runs)
    ensures LastSignature(before + (runs + [r])) == SignatureOf(r)
    ensures NoRepeats(before + (runs + [r])) <==> !(SignatureOf(r).Some? && SignatureOf(r) == LastSignature(before + runs))
    ensures !NoRepeats(before + (runs + [r])) ==> EndsInRepeat(before + (runs + [r]))
  {
    var all := before + runs;
    assert before + (runs + [r]) == all + [r];
    AppendRun(all, r);
    assert (all + [r])[..|all|] == all;
  }

  lemma {:induction false} RecoveryStep(runs: seq<ToolRun>, r: ToolRun)
    ensures AnyOk(runs + [r]) <==> AnyOk(runs) || r.result.ok
    ensures RecoveryOf(runs + [r]) == if Recoverable(r) then Some(RecoveryInstruction(r)) else RecoveryOf(runs)
  {
    assert (runs + [r])[..|runs|] == runs;
    AnyOkAppends(runs, [r]);
    assert AnyOk([r]) <==> r.result.ok by { if r.result.ok { assert [r][0].result.ok; } }
  }

  // ----- the loop

  predicate Elapsed(cfg: Config, startedAt: real, clock: real) { clock - startedAt >= cfg.maxDuration }

  ghost predicate RequestIs(cfg: Config, dirty: bool, script: nat -> Turn, requests: seq<Request>, responses: seq<Response>, k: nat)
    requires k < |requests| && k <= |responses|
  {
    requests[k] == RequestFor(cfg, dirty, script(k), responses[..k])
  }

  ghost predicate ResponseIs(script: nat -> Turn, responses: seq<Response>, k: nat)
    requires k < |responses|
  {
    script(k).answer == Some(responses[k])
  }

  /** Requests and responses are those the surroundings and the history call for. */
  ghost predicate Follows(cfg: Config, dirty: bool, script: nat -> Turn, requests: seq<Request>, responses: seq<Response>) {
    && |responses| <= |requests| <= |responses| + 1
    && (forall k: nat :: k < |responses| ==> ResponseIs(script, responses, k))
    && (forall k: nat :: k < |requests| ==> RequestIs(cfg, dirty, script, requests, responses, k))
  }

  /** A turn after which the loop goes on. */
  ghost predicate Continues(cfg: Config, startedAt: real, turn: Turn) {
    && !Elapsed(cfg, startedAt, turn.clockBefore) && !Elapsed(cfg, startedAt, turn.clockAfter)
    && turn.answer.Some? && 1 <= |turn.answer.value.calls| <= cfg.maxToolCallsPerTurn
    && |RunsOf(turn.answer.value.calls)| == |turn.answer.value.calls|
  }

  ghost predicate AllContinue(cfg: Config, startedAt: real, script: nat -> Turn, n: nat) {
    forall k: nat :: k < n ==> Continues(cfg, startedAt, script(k))
  }

  ghost predicate Accounted(requests: seq<Request>, responses: seq<Response>, runs: seq<ToolRun>, result: DeveloperResult) {
    && result.iterations == |responses| && result.toolCalls == |runs|
    && result.usage == TotalUsage(responses) && result.latencyMs == TotalLatency(responses)
  }

  function Told(changed: bool, bound: Bound, otherwise: Message): Message { if changed then AfterChanges(bound) else otherwise }

  /** How a turn that got its response stops the loop; `before` are the runs of earlier turns. */
  ghost predicate AfterResponse(
    cfg: Config, startedAt: real, turn: Turn, before: seq<ToolRun>, runs: seq<ToolRun>, reason: StopReason, message: Message)
    requires turn.answer.Some?
  {
    var calls := turn.answer.value.calls;
    if calls == [] then
      reason == ModelStop && message == Content(turn.answer.value.content) && runs == before && NoRepeats(runs)
    else if |calls| > cfg.maxToolCallsPerTurn then
      && reason == ToolCallLimit && runs == before && NoRepeats(runs)
      && message == Told(turn.changedAfter, TooManyCalls, Content(turn.answer.value.content))
    else if reason == RepeatedToolFailure then
      && message == StoppedRepeating && EndsInRepeat(runs)
      && before < runs <= before + RunsOf(calls)
    else
      && runs == before + RunsOf(calls) && NoRepeats(runs)
      && if |RunsOf(calls)| < |calls| then
           reason == TimeLimit && message == Told(turn.changedAfter, ToolTimedOut, Blank)
         else if Elapsed(cfg, startedAt, turn.clockAfter) then
           reason == TimeLimit && message == Told(turn.changedAfter, TimeElapsed, Blank)
         else
           reason == IterationLimit && message == Told(turn.changedAfter, IterationsReached, Blank)
  }

  /** The last turn of a run that stopped. */
  ghost predicate StopsIn(
    cfg: Config, startedAt: real, turn: Turn, earlier: seq<Response>, requests: seq<Request>, responses: seq<Response>, runs: seq<ToolRun>,
    result: DeveloperResult)
  {
    var before := AllRuns(earlier);
    if Elapsed(cfg, startedAt, turn.clockBefore) then
      && result.stopReason == TimeLimit && result.message == Told(turn.changedBefore, TimeElapsed, Blank)
      && |requests| == |earlier| && responses == earlier && runs == before && NoRepeats(runs)
    else if turn.answer.None? then
      && result.stopReason == TimeLimit && result.message == Told(turn.changedBefore, ProviderTimedOut, Blank)
      && |requests| == |earlier| + 1 && responses == earlier && runs == before && NoRepeats(runs)
    else
      && |requests| == |earlier| + 1 && responses == earlier + [turn.answer.value]
      && AfterResponse(cfg, startedAt, turn, before, runs, result.stopReason, result.message)
      && (result.stopReason == IterationLimit ==> |responses| == cfg.maxIterations)
  }

  /** The failure named as evidence is the last one made. */
  ghost predicate Evident(runs: seq<ToolRun>, result: DeveloperResult) {
    if result.stopReason == RepeatedToolFailure then LastSignature(runs).Some? && result.evidence == [LastSignature(runs).value]
    else result.evidence == []
  }

  /** All that one run of the loop amounts to. */
  ghost predicate IsRun(
    cfg: Config, startedAt: real, dirty: bool, script: nat -> Turn, requests: seq<Request>, responses: seq<Response>, runs: seq<ToolRun>,
    result: DeveloperResult)
  {
    && Follows(cfg, dirty, script, requests, responses)
    && Accounted(requests, responses, runs, result)
    && Evident(runs, result)
    && exists n: nat ::
         && n <= |responses| && n < cfg.maxIterations && AllContinue(cfg, startedAt, script, n)
         && StopsIn(cfg, startedAt, script(n), responses[..n], requests, responses, runs, result)
  }

  /** The loop's mutable variables. */
  datatype Books = Books(
    usage: Usage, latencyMs: nat, toolCalls: nat, progress: bool, lastFailure: Option<Signature>, failures: nat,
    recovery: Option<Instruction>, recoveryPending: bool, creditUsed: bool)

  /** The sums and failure bookkeeping agree with what was received and run. */
  ghost predicate Tallied(dirty: bool, responses: seq<Response>, runs: seq<ToolRun>, b: Books) {
    && NoRepeats(runs) && b.toolCalls == |runs|
    && b.usage == TotalUsage(responses) && b.latencyMs == TotalLatency(responses)
    && (b.progress <==> dirty || AnyOk(runs))
    && b.lastFailure == LastSignature(runs) && b.failures == (if b.lastFailure.None? then 0 else 1)
  }

  ghost predicate UpToDate(dirty: bool, responses: seq<Response>, runs: seq<ToolRun>, b: Books) {
    && Tallied(dirty, responses, runs, b) && runs == AllRuns(responses)
    && b.recovery == RecoveryFor(responses) && (b.recoveryPending <==> b.recovery.Some?)
    && (b.creditUsed <==> responses != [] && Earned(responses[..|responses| - 1]))
  }

  /** Turn `n` stopping the loop is all `IsRun` needs. */
  lemma StopsHere(
    cfg: Config, startedAt: real, dirty: bool, script: nat -> Turn, requests: seq<Request>, responses: seq<Response>, runs: seq<ToolRun>,
    result: DeveloperResult, earlier: seq<Response>)
    requires Follows(cfg, dirty, script, requests, responses) && Accounted(requests, responses, runs, result)
    requires Evident(runs, result)
    requires earlier <= responses && |earlier| < cfg.maxIterations
    requires AllContinue(cfg, startedAt, script, |earlier|)
    requires StopsIn(cfg, startedAt, script(|earlier|), earlier, requests, responses, runs, result)
    ensures IsRun(cfg, startedAt, dirty, script, requests, responses, runs, result)
  {
    assert responses[..|earlier|] == earlier;
  }

  method NextRequest(cfg: Config, ghost dirty: bool, ghost responses: seq<Response>, ghost runs: seq<ToolRun>, iteration: nat, turn: Turn, b: Books)
    returns (request: Request, b': Books)
    requires UpToDate(dirty, responses, runs, b) && iteration == |responses| + 1
    ensures request == RequestFor(cfg, dirty, turn, responses)
    ensures b' == b.(recovery := None, recoveryPending := false, creditUsed := b'.creditUsed)
    ensures b'.creditUsed <==> Earned(responses)
  {
    var progress := b.progress || turn.changedBefore;
    var cap, carried := cfg.maxOutputTokens, b.recovery;
    var credit := LivenessCreditForTurn(iteration, cfg.resumesCheckpoint, progress, b.recoveryPending);
    b' := b;
    if b.recovery.Some? {
      cap := cfg.retryMaxOutputTokens;
      b' := b.(recovery := None, recoveryPending := false, creditUsed := true);
    }
    request := Request(iteration, credit, carried, cap, progress);
  }

  function Stop(reason: StopReason, iterations: nat, message: Message, b: Books): DeveloperResult {
    DeveloperResult(reason, iterations, b.toolCalls, message, b.usage, b.latencyMs,
                    if reason == RepeatedToolFailure && b.lastFailure.Some? then [b.lastFailure.value] else [])
  }

  /** What follows a response: a reason to stop, or the books for the next turn. */
  method ActOn(cfg: Config, startedAt: real, ghost dirty: bool, turn: Turn, ghost responses: seq<Response>, ghost before: seq<ToolRun>, b: Books)
    returns (stopped: Option<(StopReason, Message)>, made: seq<ToolRun>, b': Books)
    requires turn.answer.Some? && !Elapsed(cfg, startedAt, turn.clockBefore)
    requires Tallied(dirty, responses, before, b) && b.recovery.None? && !b.recoveryPending
    ensures b'.usage == b.usage && b'.latencyMs == b.latencyMs && b'.toolCalls == |before + made| && b'.creditUsed == b.creditUsed
    ensures stopped.Some? ==> AfterResponse(cfg, startedAt, turn, before, before + made, stopped.value.0, stopped.value.1)
    ensures stopped.Some? ==> stopped.value.0 != IterationLimit
    ensures stopped.Some? && stopped.value.0 == RepeatedToolFailure ==> b'.lastFailure.Some? && b'.lastFailure == LastSignature(before + made)
    ensures stopped.None? ==> Continues(cfg, startedAt, turn) && made == RunsOf(turn.answer.value.calls)
    ensures stopped.None? ==> Tallied(dirty, responses, before + made, b')
    ensures stopped.None? ==> b'.recovery == (if b.creditUsed then None else RecoveryOf(made)) && (b'.recoveryPending <==> b'.recovery.Some?)
  {
    var response := turn.answer.value;
    made, b' := [], b;
    assert before + [] == before;
    if response.calls == [] {
      return Some((ModelStop, Content(response.content))), made, b';
    }
    if |response.calls| > cfg.maxToolCallsPerTurn {
      return Some((ToolCallLimit, Told(turn.changedAfter, TooManyCalls, Content(response.content)))), made, b';
    }
    var progress, lastFailure, failures, recovery, stop;
    made, progress, lastFailure, failures, recovery, stop :=
      RunToolCalls(response.calls, before, b.progress, b.lastFailure, b.failures, b.creditUsed);
    AnyOkAppends(before, made);
    b' := b.(toolCalls := b.toolCalls + |made|, progress := progress, lastFailure := lastFailure, failures := failures,
             recovery := recovery, recoveryPending := recovery.Some?);
    match stop
    case ToolTimeout => stopped := Some((TimeLimit, Told(turn.changedAfter, ToolTimedOut, Blank)));
    case Repeated => stopped := Some((RepeatedToolFailure, StoppedRepeating));
    case AllRan =>
      stopped := if Elapsed(cfg, startedAt, turn.clockAfter) then Some((TimeLimit, Told(turn.changedAfter, TimeElapsed, Blank))) else None;
  }

  lemma StopsAtHead(
    cfg: Config, startedAt: real, dirty: bool, script: nat -> Turn, requests: seq<Request>, responses: seq<Response>, runs: seq<ToolRun>,
    b: Books)
    requires Follows(cfg, dirty, script, requests, responses) && UpToDate(dirty, responses, runs, b)
    requires |requests| == |responses| < cfg.maxIterations && AllContinue(cfg, startedAt, script, |responses|)
    requires Elapsed(cfg, startedAt, script(|responses|).clockBefore)
    ensures IsRun(cfg, startedAt, dirty, script, requests, responses, runs,
                  Stop(TimeLimit, |responses|, Told(script(|responses|).changedBefore, TimeElapsed, Blank), b))
  {
    StopsHere(cfg, startedAt, dirty, script, requests, responses, runs,
              Stop(TimeLimit, |responses|, Told(script(|responses|).changedBefore, TimeElapsed, Blank), b), responses);
  }

  lemma {:induction false} StopsOnTimeout(
    cfg: Config, startedAt: real, dirty: bool, script: nat -> Turn, requests: seq<Request>, responses: seq<Response>, runs: seq<ToolRun>,
    b: Books)
    requires Follows(cfg, dirty, script, requests, responses) && Tallied(dirty, responses, runs, b) && runs == AllRuns(responses)
    requires |requests| == |responses| + 1 <= cfg.maxIterations && AllContinue(cfg, startedAt, script, |responses|)
    requires !Elapsed(cfg, startedAt, script(|responses|).clockBefore) && script(|responses|).answer.None?
    ensures IsRun(cfg, startedAt, dirty, script, requests, responses, runs,
                  Stop(TimeLimit, |responses|, Told(script(|responses|).changedBefore, ProviderTimedOut, Blank), b))
  {
    StopsHere(cfg, startedAt, dirty, script, requests, responses, runs,
              Stop(TimeLimit, |responses|, Told(script(|responses|).changedBefore, ProviderTimedOut, Blank), b), responses);
  }

  lemma {:induction false} StopsAfterResponse(
    cfg: Config, startedAt: real, dirty: bool, script: nat -> Turn, requests: seq<Request>, earlier: seq<Response>, response: Response,
    runs: seq<ToolRun>, reason: StopReason, message: Message, b: Books)
    requires Follows(cfg, dirty, script, requests, earlier + [response]) && |requests| == |earlier| + 1 <= cfg.maxIterations
    requires b.usage == TotalUsage(earlier + [response]) && b.latencyMs == TotalLatency(earlier + [response]) && b.toolCalls == |runs|
    requires var turn := script(|earlier|);
             turn.answer == Some(response) && !Elapsed(cfg, startedAt, turn.clockBefore)
             && AfterResponse(cfg, startedAt, turn, AllRuns(earlier), runs, reason, message)
    requires AllContinue(cfg, startedAt, script, |earlier|)
    requires reason == RepeatedToolFailure ==> b.lastFailure.Some? && b.lastFailure == LastSignature(runs)
    requires reason != IterationLimit
    ensures IsRun(cfg, startedAt, dirty, script, requests, earlier + [response], runs, Stop(reason, |earlier| + 1, message, b))
  {
    StopsHere(cfg, startedAt, dirty, script, requests, earlier + [response], runs, Stop(reason, |earlier| + 1, message, b), earlier);
  }

  method Run(cfg: Config, startedAt: real, dirty: bool, script: nat -> Turn)
    returns (result: DeveloperResult, requests: seq<Request>, responses: seq<Response>, runs: seq<ToolRun>)
    requires cfg.Valid()
    ensures IsRun(cfg, startedAt, dirty, script, requests, responses, runs, result)
  {
    requests, responses, runs := [], [], [];
    var b := Books(Usage(0, 0, 0), 0, 0, dirty, None, 0, None, false, false);
    for i := 0 to cfg.maxIterations
      invariant |requests| == |responses| == i && Follows(cfg, dirty, script, requests, responses)
      invariant AllContinue(cfg, startedAt, script, i)
      invariant UpToDate(dirty, responses, runs, b)
    {
      var turn := script(i);
      ghost var earlier := responses;
      if Elapsed(cfg, startedAt, turn.clockBefore) {
        result := Stop(TimeLimit, i, Told(turn.changedBefore, TimeElapsed, Blank), b);
        StopsAtHead(cfg, startedAt, dirty, script, requests, responses, runs, b);
        return;
      }
      var request;
      request, b := NextRequest(cfg, dirty, responses, runs, i + 1, turn, b);
      RequestIsSent(cfg, dirty, script, requests, responses, request);
      requests := requests + [request];
      if turn.answer.None? {
        result := Stop(TimeLimit, i, Told(turn.changedBefore, ProviderTimedOut, Blank), b);
        StopsOnTimeout(cfg, startedAt, dirty, script, requests, responses, runs, b);
        return;
      }
      var response := turn.answer.value;
      ResponseArrives(cfg, dirty, script, requests, responses, response);
      responses := responses + [response];
      b := b.(usage := Plus(b.usage, response.usage), latencyMs := b.latencyMs + response.latencyMs);
      ghost var before := runs;
      var stopped, made;
      stopped, made, b := ActOn(cfg, startedAt, dirty, turn, responses, runs, b);
      runs := runs + made;
      if stopped.Some? {
        result := Stop(stopped.value.0, i + 1, stopped.value.1, b);
        StopsAfterResponse(cfg, startedAt, dirty, script, requests, earlier, response, runs, stopped.value.0, stopped.value.1, b);
        return;
      }
      TurnContinues(cfg, startedAt, dirty, script, earlier, response, before, made, b);
    }
    var last := script(cfg.maxIterations - 1);
    result := Stop(IterationLimit, cfg.maxIterations, Told(last.changedAfter, IterationsReached, Blank), b);
    LastTurnContinued(cfg, startedAt, dirty, script, requests, responses, runs, result);
  }

  lemma {:induction false} TurnContinues(
    cfg: Config, startedAt: real, dirty: bool, script: nat -> Turn, earlier: seq<Response>, response: Response, before: seq<ToolRun>,
    made: seq<ToolRun>, b: Books)
    requires before == AllRuns(earlier) && made == RunsOf(response.calls)
    requires Tallied(dirty, earlier + [response], before + made, b) && (b.creditUsed <==> Earned(earlier))
    requires b.recovery == (if b.creditUsed then None else RecoveryOf(made)) && (b.recoveryPending <==> b.recovery.Some?)
    requires AllContinue(cfg, startedAt, script, |earlier|) && Continues(cfg, startedAt, script(|earlier|))
    ensures UpToDate(dirty, earlier + [response], before + made, b)
    ensures AllContinue(cfg, startedAt, script, |earlier| + 1)
  {
    var responses := earlier + [response];
    assert responses[..|responses| - 1] == earlier;
  }

  lemma {:induction false} LastTurnContinued(
    cfg: Config, startedAt: real, dirty: bool, script: nat -> Turn, requests: seq<Request>, responses: seq<Response>, runs: seq<ToolRun>,
    result: DeveloperResult)
    requires |requests| == |responses| == cfg.maxIterations >= 1 && Follows(cfg, dirty, script, requests, responses)
    requires AllContinue(cfg, startedAt, script, cfg.maxIterations)
    requires runs == AllRuns(responses) && NoRepeats(runs) && Accounted(requests, responses, runs, result)
    requires result.stopReason == IterationLimit && result.evidence == []
    requires result.message == Told(script(cfg.maxIterations - 1).changedAfter, IterationsReached, Blank)
    ensures IsRun(cfg, startedAt, dirty, script, requests, responses, runs, result)
  {
    var n := cfg.maxIterations - 1;
    var earlier := responses[..n];
    assert responses == earlier + [responses[n]];
    assert ResponseIs(script, responses, n);
    assert Continues(cfg, startedAt, script(n));
    StopsHere(cfg, startedAt, dirty, script, requests, responses, runs, result, earlier);
  }

  lemma RequestIsSent(cfg: Config, dirty: bool, script: nat -> Turn, requests: seq<Request>, responses: seq<Response>, request: Request)
    requires Follows(cfg, dirty, script, requests, responses) && |requests| == |responses|
    requires request == RequestFor(cfg, dirty, script(|requests|), responses)
    ensures Follows(cfg, dirty, script, requests + [request], responses)
  {
    assert responses[..|requests|] == responses;
    var longer := requests + [request];
    forall k: nat | k < |longer| ensures RequestIs(cfg, dirty, script, longer, responses, k) {
      if k < |requests| { assert RequestIs(cfg, dirty, script, requests, responses, k); }
    }
  }

  lemma ResponseArrives(cfg: Config, dirty: bool, script: nat -> Turn, requests: seq<Request>, responses: seq<Response>, response: Response)
    requires Follows(cfg, dirty, script, requests, responses) && |requests| == |responses| + 1
    requires script(|responses|).answer == Some(response)
    ensures Follows(cfg, dirty, script, requests, responses + [response])
  {
    var longer := responses + [response];
    forall k: nat | k < |requests| ensures RequestIs(cfg, dirty, script, requests, longer, k) {
      assert RequestIs(cfg, dirty, script, requests, responses, k);
      assert longer[..k] == responses[..k];
    }
    forall k: nat | k < |longer| ensures ResponseIs(script, longer, k) {
      if k < |responses| { assert ResponseIs(script, responses, k); }
    }
  }

  // ----- what every run keeps

  /** At most one request of a run carries a correction, and it alone has the recovery credit and the larger cap. */
  lemma RecoveryIsOneShot(
    cfg: Config, startedAt: real, dirty: bool, script: nat -> Turn, requests: seq<Request>, responses: seq<Response>, runs: seq<ToolRun>,
    result: DeveloperResult)
    requires IsRun(cfg, startedAt, dirty, script, requests, responses, runs, result)
    ensures forall k: nat :: k < |requests| ==> (requests[k].credit == ToolRecovery <==> requests[k].recovery.Some?)
    ensures forall k: nat :: k < |requests| && requests[k].recovery.None? ==> requests[k].maxOutputTokens == cfg.maxOutputTokens
    ensures forall i: nat, j: nat :: i < j < |requests| && requests[i].recovery.Some? ==> requests[j].recovery.None?
  {
    forall k: nat | k < |requests|
      ensures requests[k].credit == ToolRecovery <==> requests[k].recovery.Some?
      ensures requests[k].recovery.None? ==> requests[k].maxOutputTokens == cfg.maxOutputTokens
    {
      assert RequestIs(cfg, dirty, script, requests, responses, k);
    }
    forall i: nat, j: nat | i < j < |requests| && requests[i].recovery.Some? ensures requests[j].recovery.None? {
      assert RequestIs(cfg, dirty, script, requests, responses, i);
      assert RequestIs(cfg, dirty, script, requests, responses, j);
      AtMostOneRecovery(responses, i, j);
    }
  }

  /** Two adjacent runs fail alike only as the last pair, and then that is why the run stopped. */
  lemma OnlyTheLastPairRepeats(
    cfg: Config, startedAt: real, dirty: bool, script: nat -> Turn, requests: seq<Request>, responses: seq<Response>, runs: seq<ToolRun>,
    result: DeveloperResult)
    requires IsRun(cfg, startedAt, dirty, script, requests, responses, runs, result)
    ensures forall k: nat :: k + 1 < |runs| && RepeatsAt(runs, k) ==> k + 2 == |runs| && result.stopReason == RepeatedToolFailure
    ensures result.stopReason == RepeatedToolFailure ==>
              && |runs| >= 2 && RepeatsAt(runs, |runs| - 2)
              && var last := runs[|runs| - 1].result; result.evidence == [(last.name, last.errorCode.value, last.shape)]
    ensures result.stopReason != RepeatedToolFailure ==> result.evidence == []
  {
    if result.stopReason == RepeatedToolFailure {
      var front := runs[..|runs| - 1];
      forall k: nat | k + 2 < |runs| ensures !RepeatsAt(runs, k) { assert !RepeatsAt(front, k); }
    }
  }

  /** Every response but the last was followed by another turn. */
  lemma EarlierTurnsContinued(
    cfg: Config, startedAt: real, dirty: bool, script: nat -> Turn, requests: seq<Request>, responses: seq<Response>, runs: seq<ToolRun>,
    result: DeveloperResult)
    returns (n: nat)
    requires IsRun(cfg, startedAt, dirty, script, requests, responses, runs, result)
    ensures n <= |responses| <= n + 1 && n < cfg.maxIterations && AllContinue(cfg, startedAt, script, n)
    ensures StopsIn(cfg, startedAt, script(n), responses[..n], requests, responses, runs, result)
    ensures forall k: nat :: k < n ==> 1 <= |responses[k].calls| <= cfg.maxToolCallsPerTurn
  {
    n :|
      && n <= |responses| && n < cfg.maxIterations && AllContinue(cfg, startedAt, script, n)
      && StopsIn(cfg, startedAt, script(n), responses[..n], requests, responses, runs, result);
    forall k: nat | k < n ensures 1 <= |responses[k].calls| <= cfg.maxToolCallsPerTurn {
      assert Continues(cfg, startedAt, script(k));
      assert ResponseIs(script, responses, k);
    }
  }

  /** Which way a run ended can be read off its last response. */
  lemma StopReasonTellsTheLastTurn(
    cfg: Config, startedAt: real, dirty: bool, script: nat -> Turn, requests: seq<Request>, responses: seq<Response>, runs: seq<ToolRun>,
    result: DeveloperResult)
    requires IsRun(cfg, startedAt, dirty, script, requests, responses, runs, result)
    ensures |responses| <= |requests| <= cfg.maxIterations
    ensures |requests| > |responses| ==> result.stopReason == TimeLimit
    ensures result.stopReason == ModelStop <==> responses != [] && responses[|responses| - 1].calls == []
    ensures result.stopReason == ToolCallLimit <==> responses != [] && |responses[|responses| - 1].calls| > cfg.maxToolCallsPerTurn
    ensures forall k: nat :: k + 1 < |responses| ==> 1 <= |responses[k].calls| <= cfg.maxToolCallsPerTurn
    ensures result.message.AfterChanges? ==> result.stopReason in {TimeLimit, ToolCallLimit, IterationLimit}
  {
    var n := EarlierTurnsContinued(cfg, startedAt, dirty, script, requests, responses, runs, result);
    if |responses| == n + 1 {
      assert responses[n] == script(n).answer.value;
    }
  }

  lemma {:induction false} IterationLimitMeansAllRan(
    cfg: Config, startedAt: real, dirty: bool, script: nat -> Turn, requests: seq<Request>, responses: seq<Response>, runs: seq<ToolRun>,
    result: DeveloperResult)
    requires IsRun(cfg, startedAt, dirty, script, requests, responses, runs, result) && result.stopReason == IterationLimit
    ensures |responses| == cfg.maxIterations && runs == AllRuns(responses)
    ensures forall k: nat :: k < |responses| ==> 1 <= |responses[k].calls| <= cfg.maxToolCallsPerTurn
  {
    var n := EarlierTurnsContinued(cfg, startedAt, dirty, script, requests, responses, runs, result);
    assert responses[n] == script(n).answer.value;
  }

  /** Tool runs never exceed the per-turn allowance times the completed responses. */
  lemma {:induction false} ToolRunsAreBounded(responses: seq<Response>, limit: nat)
    requires forall k: nat :: k < |responses| ==> |responses[k].calls| <= limit
    ensures |AllRuns(responses)| <= limit * |responses|
  {
    if responses != [] {
      var front := responses[..|responses| - 1];
      ToolRunsAreBounded(front, limit);
      assert limit * |responses| == limit * |front| + limit;
    }
  }

  /** What a turn adds to the runs is within its allowance. */
  lemma {:induction false} LastTurnIsBounded(
    cfg: Config, startedAt: real, turn: Turn, earlier: seq<Response>, requests: seq<Request>, responses: seq<Response>,
    runs: seq<ToolRun>, result: DeveloperResult)
    requires StopsIn(cfg, startedAt, turn, earlier, requests, responses, runs, result)
    ensures |earlier| <= |responses| && |runs| <= |AllRuns(earlier)| + if responses == earlier then 0 else cfg.maxToolCallsPerTurn
    ensures responses != earlier ==> |responses| == |earlier| + 1
  {
  }

  /** On every run, tool calls stay within the per-turn limit times the reported iterations. */
  lemma {:induction false} ToolCallsAreBounded(
    cfg: Config, startedAt: real, dirty: bool, script: nat -> Turn, requests: seq<Request>, responses: seq<Response>, runs: seq<ToolRun>,
    result: DeveloperResult)
    requires IsRun(cfg, startedAt, dirty, script, requests, responses, runs, result)
    ensures result.toolCalls <= cfg.maxToolCallsPerTurn * result.iterations
  {
    var n := EarlierTurnsContinued(cfg, startedAt, dirty, script, requests, responses, runs, result);
    ToolRunsAreBounded(responses[..n], cfg.maxToolCallsPerTurn);
    LastTurnIsBounded(cfg, startedAt, script(n), responses[..n], requests, responses, runs, result);
    assert cfg.maxToolCallsPerTurn * (n + 1) == cfg.maxToolCallsPerTurn * n + cfg.maxToolCallsPerTurn;
  }

  // ----- what a request says of the turns before it

  /** Call `i` of the response was run: no call up to it timed out. */
  ghost predicate WasRun(response: Response, i: nat) {
    i < |response.calls| && forall j :: 0 <= j <= i ==> response.calls[j].outcome.Ran?
  }

  ghost predicate SucceedsAt(response: Response, i: nat) {
    WasRun(response, i) && response.calls[i].outcome.result.ok
  }

  /** Call `i` failed in a way the model can put right: bad arguments, an ambiguous patch, an I/O error. */
  ghost predicate CorrectableAt(response: Response, i: nat) {
    && WasRun(response, i) && !response.calls[i].outcome.result.ok
    && var code := response.calls[i].outcome.result.errorCode;
       code == Some(InvalidArguments) || code == Some(AmbiguousPatch) || code == Some(IoError)
  }

  ghost predicate Succeeds(response: Response) { exists i: nat :: SucceedsAt(response, i) }

  ghost predicate Correctable(response: Response) { exists i: nat :: CorrectableAt(response, i) }

  ghost predicate SomeSucceeds(responses: seq<Response>) { exists r :: r in responses && Succeeds(r) }

  /** The last turn had a correctable failure, and no turn before it had one. */
  ghost predicate CorrectionIsDue(responses: seq<Response>) {
    && responses != [] && Correctable(responses[|responses| - 1])
    && forall r | r in responses[..|responses| - 1] :: !Correctable(r)
  }

  lemma {:induction false} RunsAreThoseRun(calls: seq<Call>, i: nat)
    ensures i < |RunsOf(calls)| <==> i < |calls| && forall j :: 0 <= j <= i ==> calls[j].outcome.Ran?
    ensures i < |RunsOf(calls)| ==> RunsOf(calls)[i] == ToolRun(calls[i].name, calls[i].outcome.result)
    decreases i
  {
    if calls != [] && calls[0].outcome.Ran? && i > 0 {
      RunsAreThoseRun(calls[1..], i - 1);
      assert forall j :: 0 < j < |calls| ==> calls[j] == calls[1..][j - 1];
      if i < |calls| && forall j :: 0 <= j <= i - 1 ==> calls[1..][j].outcome.Ran? {
        forall j | 0 <= j <= i ensures calls[j].outcome.Ran? { if j > 0 { assert calls[1..][j - 1].outcome.Ran?; } }
      }
    }
  }

  lemma SuccessIsSeen(response: Response)
    ensures AnyOk(RunsOf(response.calls)) <==> Succeeds(response)
  {
    var runs := RunsOf(response.calls);
    if i: nat :| i < |runs| && runs[i].result.ok {
      RunsAreThoseRun(response.calls, i);
      assert SucceedsAt(response, i);
    }
    if i: nat :| SucceedsAt(response, i) { RunsAreThoseRun(response.calls, i); }
  }

  lemma {:induction false} ProgressIsSeen(responses: seq<Response>)
    ensures AnyOk(AllRuns(responses)) <==> SomeSucceeds(responses)
  {
    if responses != [] {
      var front, last := responses[..|responses| - 1], responses[|responses| - 1];
      ProgressIsSeen(front);
      SuccessIsSeen(last);
      AnyOkAppends(AllRuns(front), RunsOf(last.calls));
      assert responses == front + [last];
    }
  }

  /** A correction answers the last correctable run; it is the special one exactly for malformed `write_file` arguments. */
  ghost predicate Corrects(runs: seq<ToolRun>, i: nat, instruction: Instruction) {
    && i < |runs| && Recoverable(runs[i]) && (forall j :: i < j < |runs| ==> !Recoverable(runs[j]))
    && (instruction == RetryWriteFile <==> runs[i].callName == "write_file" && runs[i].result.errorCode == Some(InvalidArguments))
  }

  ghost predicate CorrectsSome(runs: seq<ToolRun>, instruction: Instruction) { exists i: nat :: Corrects(runs, i, instruction) }

  lemma {:induction false} RecoveryAnswersTheLast(runs: seq<ToolRun>)
    ensures RecoveryOf(runs).Some? <==> exists i: nat :: i < |runs| && Recoverable(runs[i])
    ensures RecoveryOf(runs).Some? ==> CorrectsSome(runs, RecoveryOf(runs).value)
  {
    if runs != [] {
      var n := |runs| - 1;
      RecoveryAnswersTheLast(runs[..n]);
      if Recoverable(runs[n]) {
        assert Corrects(runs, n, RecoveryOf(runs).value);
      } else if RecoveryOf(runs).Some? {
        var i: nat :| Corrects(runs[..n], i, RecoveryOf(runs).value);
        assert Corrects(runs, i, RecoveryOf(runs).value);
      }
      if i: nat :| i < n && Recoverable(runs[i]) { assert Recoverable(runs[..n][i]); }
    }
  }

  lemma CorrectableIsSeen(response: Response)
    ensures RecoveryOf(RunsOf(response.calls)).Some? <==> Correctable(response)
  {
    var runs := RunsOf(response.calls);
    RecoveryAnswersTheLast(runs);
    if i: nat :| i < |runs| && Recoverable(runs[i]) {
      RunsAreThoseRun(response.calls, i);
      assert CorrectableAt(response, i);
    }
    if i: nat :| CorrectableAt(response, i) { RunsAreThoseRun(response.calls, i); }
  }

  lemma {:induction false} EarnedIsSeen(responses: seq<Response>)
    ensures Earned(responses) <==> exists r :: r in responses && Correctable(r)
  {
    if responses != [] {
      var front, last := responses[..|responses| - 1], responses[|responses| - 1];
      EarnedIsSeen(front);
      CorrectableIsSeen(last);
      assert responses == front + [last];
    }
  }

  /** A correction is carried exactly behind the first turn with a correctable failure. */
  lemma CorrectionIsCarriedIff(responses: seq<Response>)
    ensures RecoveryFor(responses).Some? <==> CorrectionIsDue(responses)
    ensures RecoveryFor(responses).Some? ==> CorrectsSome(RunsOf(responses[|responses| - 1].calls), RecoveryFor(responses).value)
  {
    if responses != [] {
      EarnedIsSeen(responses[..|responses| - 1]);
      CorrectableIsSeen(responses[|responses| - 1]);
      RecoveryAnswersTheLast(RunsOf(responses[|responses| - 1].calls));
    }
  }

  /** Request `k` tells what the turns before it came to. */
  ghost predicate TellsHistory(cfg: Config, dirty: bool, turn: Turn, history: seq<Response>, request: Request) {
    var first := history == [];
    && request.iteration == |history| + 1
    && (request.progress <==> dirty || turn.changedBefore || SomeSucceeds(history))
    && (request.recovery.Some? <==> CorrectionIsDue(history))
    && (request.recovery.Some? ==>
          && CorrectsSome(RunsOf(history[|history| - 1].calls), request.recovery.value)
          && request.maxOutputTokens == cfg.retryMaxOutputTokens && request.credit == ToolRecovery)
    && (request.recovery.None? ==>
          && request.maxOutputTokens == cfg.maxOutputTokens
          && (request.credit == CheckpointResume <==> first && cfg.resumesCheckpoint)
          && (request.credit == InitialStartup <==> first && !cfg.resumesCheckpoint)
          && (request.credit == VerifiedProgress <==> !first && request.progress)
          && (request.credit == Normal <==> !first && !request.progress))
  }

  lemma RequestsTellTheHistory(
    cfg: Config, startedAt: real, dirty: bool, script: nat -> Turn, requests: seq<Request>, responses: seq<Response>, runs: seq<ToolRun>,
    result: DeveloperResult, k: nat)
    requires IsRun(cfg, startedAt, dirty, script, requests, responses, runs, result) && k < |requests|
    ensures k <= |responses| && TellsHistory(cfg, dirty, script(k), responses[..k], requests[k])
  {
    assert RequestIs(cfg, dirty, script, requests, responses, k);
    ProgressIsSeen(responses[..k]);
    CorrectionIsCarriedIff(responses[..k]);
  }

  // ----- the deadline

  /** The turn in which a run came to its end for want of time. */
  ghost predicate OutOfTime(deadline: real, turn: Turn) {
    || turn.clockBefore >= deadline || turn.answer.None? || turn.clockAfter >= deadline
    || exists c :: c in turn.answer.value.calls && c.outcome.TimedOut?
  }

  lemma {:induction false} CutShortMeansTimedOut(calls: seq<Call>)
    ensures |RunsOf(calls)| < |calls| <==> exists c :: c in calls && c.outcome.TimedOut?
  {
    if calls != [] {
      CutShortMeansTimedOut(calls[1..]);
      assert calls == [calls[0]] + calls[1..];
    }
  }

  lemma ContinuesInTime(cfg: Config, startedAt: real, script: nat -> Turn, n: nat)
    requires AllContinue(cfg, startedAt, script, n)
    ensures forall k: nat :: k < n ==> !OutOfTime(startedAt + cfg.maxDuration, script(k))
  {
    forall k: nat | k < n ensures !OutOfTime(startedAt + cfg.maxDuration, script(k)) {
      assert Continues(cfg, startedAt, script(k));
      CutShortMeansTimedOut(script(k).answer.value.calls);
    }
  }

  lemma StopsForTime(
    cfg: Config, startedAt: real, turn: Turn, earlier: seq<Response>, requests: seq<Request>, responses: seq<Response>,
    runs: seq<ToolRun>, result: DeveloperResult)
    requires StopsIn(cfg, startedAt, turn, earlier, requests, responses, runs, result)
    ensures result.stopReason == TimeLimit ==> OutOfTime(startedAt + cfg.maxDuration, turn)
    ensures |earlier| <= |requests| <= |earlier| + 1
    ensures |requests| == |earlier| + 1 ==> turn.clockBefore < startedAt + cfg.maxDuration
  {
    if turn.answer.Some? { CutShortMeansTimedOut(turn.answer.value.calls); }
  }

  /** What the result tells the caller, for each way a turn can stop the loop. */
  ghost predicate Tells(deadline: real, turn: Turn, responded: bool, reason: StopReason, message: Message) {
    match reason
    case ModelStop => turn.answer.Some? && message == Content(turn.answer.value.content)
    case RepeatedToolFailure => message == StoppedRepeating
    case ToolCallLimit =>
      turn.answer.Some? && message == if turn.changedAfter then AfterChanges(TooManyCalls) else Content(turn.answer.value.content)
    case IterationLimit => message == if turn.changedAfter then AfterChanges(IterationsReached) else Blank
    case TimeLimit =>
      if !(if responded then turn.changedAfter else turn.changedBefore) then message == Blank
      else if turn.clockBefore >= deadline then message == AfterChanges(TimeElapsed)
      else if !responded then message == AfterChanges(ProviderTimedOut)
      else if turn.answer.Some? && exists c :: c in turn.answer.value.calls && c.outcome.TimedOut? then message == AfterChanges(ToolTimedOut)
      else message == AfterChanges(TimeElapsed)
  }

  lemma StopIsTold(
    cfg: Config, startedAt: real, turn: Turn, earlier: seq<Response>, requests: seq<Request>, responses: seq<Response>,
    runs: seq<ToolRun>, result: DeveloperResult)
    requires StopsIn(cfg, startedAt, turn, earlier, requests, responses, runs, result)
    ensures Tells(startedAt + cfg.maxDuration, turn, responses != earlier, result.stopReason, result.message)
  {
    if turn.answer.Some? { CutShortMeansTimedOut(turn.answer.value.calls); }
  }

  /** On every run the message is the one its end calls for. */
  lemma EndIsTold(
    cfg: Config, startedAt: real, dirty: bool, script: nat -> Turn, requests: seq<Request>, responses: seq<Response>, runs: seq<ToolRun>,
    result: DeveloperResult)
    returns (last: nat)
    requires IsRun(cfg, startedAt, dirty, script, requests, responses, runs, result)
    ensures last <= |responses| <= last + 1
    ensures Tells(startedAt + cfg.maxDuration, script(last), |responses| == last + 1, result.stopReason, result.message)
  {
    last := EarlierTurnsContinued(cfg, startedAt, dirty, script, requests, responses, runs, result);
    StopIsTold(cfg, startedAt, script(last), responses[..last], requests, responses, runs, result);
  }

  /** Requests are only sent before the deadline, and a run that ends for want of time is really out of it. */
  lemma DeadlineIsKept(
    cfg: Config, startedAt: real, dirty: bool, script: nat -> Turn, requests: seq<Request>, responses: seq<Response>, runs: seq<ToolRun>,
    result: DeveloperResult)
    returns (last: nat)
    requires IsRun(cfg, startedAt, dirty, script, requests, responses, runs, result)
    ensures last <= |requests| <= last + 1 && last <= |responses|
    ensures forall k: nat :: k < |requests| ==> script(k).clockBefore < startedAt + cfg.maxDuration
    ensures forall k: nat :: k < last ==> !OutOfTime(startedAt + cfg.maxDuration, script(k))
    ensures result.stopReason == TimeLimit ==> OutOfTime(startedAt + cfg.maxDuration, script(last))
  {
    last := EarlierTurnsContinued(cfg, startedAt, dirty, script, requests, responses, runs, result);
    StopsForTime(cfg, startedAt, script(last), responses[..last], requests, responses, runs, result);
    ContinuesInTime(cfg, startedAt, script, last);
  }
}
