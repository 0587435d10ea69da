/** The turn loop of `RepairAgent.repair` (`backend/app/agents/repair.py`). */
module Repair {
  import opened Wrappers
  import opened AgentLoops
  import opened Decimals

  const REPAIR_TOOL_NAMES: set<string> := {"read_range", "read_symbol", "search_code", "search_code_many", "write_file", "apply_patch"}

  datatype Config = Config(maxIterations: nat, maxDuration: real, maxToolCallsPerTurn: nat)
  {
    predicate Valid() { maxIterations >= 1 && maxToolCallsPerTurn >= 1 }
  }

  /** One iteration's surroundings; `patchHash` is the workspace's when the answer has arrived. */
  datatype Turn = Turn(clockBefore: real, patchBefore: string, answer: Option<Response>, patchHash: string, clockAfter: real)

  /** `nudged`: the messages end with the prompt that asks for a patch. */
  datatype Request = Request(iteration: nat, progress: bool, nudged: bool)

  datatype StopReason = ModelStop | ExplicitBlocker | NoProgress | TimeLimit | ToolCallLimit | IterationLimit

  datatype RepairResult = RepairResult(
    stopReason: StopReason, iterations: nat, toolCalls: nat, message: string, usage: Usage, latencyMs: nat)

  function Upper(c: char): char { if 'a' <= c <= 'z' then (c as int - 32) as char else c }

  function LeftStrip(s: string): string {
    if s != "" && IsSpace(s[0]) then LeftStrip(s[1..]) else s
  }

  predicate IsExplicitBlocker(content: string) {
    var text := LeftStrip(content);
    |text| >= 8 && seq(8, i requires 0 <= i < 8 => Upper(text[i])) == "BLOCKED:"
  }

  lemma {:induction false} LeftStripIsExact(s: string)
    ensures exists space :: s == space + LeftStrip(s) && forall c | c in space :: IsSpace(c)
    ensures LeftStrip(s) != "" ==> !IsSpace(LeftStrip(s)[0])
  {
    if s != "" && IsSpace(s[0]) {
      LeftStripIsExact(s[1..]);
      var space :| s[1..] == space + LeftStrip(s) && forall c | c in space :: IsSpace(c);
      assert s == [s[0]] + s[1..] == ([s[0]] + space) + LeftStrip(s);
    } else {
      assert s == "" + LeftStrip(s);
    }
  }

  lemma {:induction false} SpaceIsStripped(space: string, text: string)
    requires (forall c | c in space :: IsSpace(c)) && text != "" && !IsSpace(text[0])
    ensures LeftStrip(space + text) == text
  {
    if space == "" {
      assert space + text == text;
    } else {
      SpaceIsStripped(space[1..], text);
      assert (space + text)[1..] == space[1..] + text;
    }
  }

  const BLOCKED_UPPER := "BLOCKED:"
  const BLOCKED_LOWER := "blocked:"

  /** White space, then the word with its colon in any mixture of capitals and small letters, then anything. */
  ghost predicate NamesABlocker(content: string, space: string, rest: string) {
    && (forall c | c in space :: IsSpace(c))
    && |rest| >= 8 && content == space + rest
    && forall i :: 0 <= i < 8 ==> rest[i] == BLOCKED_UPPER[i] || rest[i] == BLOCKED_LOWER[i]
  }

  lemma UpperIs(c: char, i: nat)
    requires i < 8
    ensures Upper(c) == BLOCKED_UPPER[i] <==> c == BLOCKED_UPPER[i] || c == BLOCKED_LOWER[i]
  {
  }

  /** Exactly which contents count as an explicit blocker. */
  lemma {:induction false} BlockerIsNamedIff(content: string)
    ensures IsExplicitBlocker(content) <==> exists space, rest :: NamesABlocker(content, space, rest)
  {
    forall c, i: nat | i < 8 ensures Upper(c) == BLOCKED_UPPER[i] <==> c == BLOCKED_UPPER[i] || c == BLOCKED_LOWER[i] { UpperIs(c, i); }
    if IsExplicitBlocker(content) {
      LeftStripIsExact(content);
      var text := LeftStrip(content);
      var space :| content == space + text && forall c | c in space :: IsSpace(c);
      var head := seq(8, i requires 0 <= i < 8 => Upper(text[i]));
      forall i: nat | i < 8 ensures text[i] == BLOCKED_UPPER[i] || text[i] == BLOCKED_LOWER[i] { assert head[i] == BLOCKED_UPPER[i]; }
      assert NamesABlocker(content, space, text);
    }
    if space, rest :| NamesABlocker(content, space, rest) {
      assert rest[0] == 'B' || rest[0] == 'b';
      SpaceIsStripped(space, rest);
      assert seq(8, i requires 0 <= i < 8 => Upper(rest[i])) == BLOCKED_UPPER;
    }
  }

  // ----- what the calls of a response give

  predicate Available(call: Call) { call.name in REPAIR_TOOL_NAMES }

  /** A call outside the repair tools is answered, not run, and so cannot time out. */
  predicate Hangs(call: Call) { Available(call) && call.outcome.TimedOut? }

  function Answer(call: Call): ToolRun
    requires !Hangs(call)
  {
    if Available(call) then ToolRun(call.name, call.outcome.result)
    else ToolRun(call.name, ToolResult(call.name, false, Some(UnknownTool), ""))
  }

  function RunsOf(calls: seq<Call>): (runs: seq<ToolRun>)
    ensures |runs| <= |calls|
  {
    if calls == [] || Hangs(calls[0]) then [] else [Answer(calls[0])] + RunsOf(calls[1..])
  }

  lemma {:induction false} RunsOfAll(calls: seq<Call>, k: nat)
    requires k <= |calls| && forall i :: 0 <= i < k ==> !Hangs(calls[i])
    requires k == |calls| || Hangs(calls[k])
    ensures |RunsOf(calls)| == k
    decreases calls
  {
    if k > 0 { RunsOfAll(calls[1..], k - 1); }
  }

  lemma {:induction false} RunsOfPrefix(calls: seq<Call>, k: nat)
    requires k < |calls| && forall i :: 0 <= i <= k ==> !Hangs(calls[i])
    ensures k < |RunsOf(calls)| && RunsOf(calls)[k] == Answer(calls[k])
    decreases k
  {
    if k > 0 { RunsOfPrefix(calls[1..], k - 1); }
  }

  ghost function AllRuns(responses: seq<Response>): seq<ToolRun> {
    if responses == [] then [] else AllRuns(responses[..|responses| - 1]) + RunsOf(responses[|responses| - 1].calls)
  }

  method RunToolCalls(calls: seq<Call>, progress: bool) returns (runs: seq<ToolRun>, progress': bool, timedOut: bool)
    ensures runs == RunsOf(calls)
    ensures timedOut <==> |runs| < |calls|
    ensures progress' <==> progress || AnyOk(runs)
  {
    runs, progress', timedOut := [], progress, false;
    for k := 0 to |calls|
      invariant forall i :: 0 <= i < k ==> !Hangs(calls[i])
      invariant k <= |RunsOf(calls)| && runs == RunsOf(calls)[..k]
      invariant progress' <==> progress || AnyOk(runs)
    {
      var call := calls[k];
      if Hangs(call) {
        RunsOfAll(calls, k);
        return runs, progress', true;
      }
      RunsOfPrefix(calls, k);
      OkStep(runs, Answer(call));
      runs := runs + [Answer(call)];
      if runs[k].result.ok { progress' := true; }
    }
    RunsOfAll(calls, |calls|);
  }

  lemma OkStep(runs: seq<ToolRun>, r: ToolRun)
    ensures AnyOk(runs + [r]) <==> AnyOk(runs) || r.result.ok
  {
    AnyOkAppends(runs, [r]);
    assert AnyOk([r]) <==> r.result.ok by { if r.result.ok { assert [r][0].result.ok; } }
  }

  // ----- the specification of a run

  predicate Elapsed(cfg: Config, startedAt: real, clock: real) { clock - startedAt >= cfg.maxDuration }

  /** How many responses at the end of a history made no calls. */
  ghost function Idle(history: seq<Response>): nat {
    if history == [] || history[|history| - 1].calls != [] then 0 else 1 + Idle(history[..|history| - 1])
  }

  ghost function RequestFor(startHash: string, turn: Turn, history: seq<Response>): Request {
    Request(|history| + 1, AnyOk(AllRuns(history)) || turn.patchBefore != startHash, Idle(history) > 0)
  }

  ghost predicate RequestIs(startHash: string, script: nat -> Turn, requests: seq<Request>, responses: seq<Response>, k: nat)
    requires k < |requests| && k <= |responses|
  {
    requests[k] == RequestFor(startHash, script(k), responses[..k])
  }

  ghost predicate ResponseIs(script: nat -> Turn, responses: seq<Response>, k: nat)
    requires k < |responses|
  {
    script(k).answer == Some(responses[k])
  }

  ghost predicate Follows(startHash: string, script: nat -> Turn, requests: seq<Request>, responses: seq<Response>) {
    && |responses| <= |requests| <= |responses| + 1
    && (forall k: nat :: k < |responses| ==> ResponseIs(script, responses, k))
    && (forall k: nat :: k < |requests| ==> RequestIs(startHash, script, requests, responses, k))
  }

  /** The model stopped without a patch and without naming a blocker. */
  ghost predicate StopsIdly(startHash: string, turn: Turn) {
    turn.answer.Some? && turn.answer.value.calls == [] && turn.patchHash == startHash && !IsExplicitBlocker(turn.answer.value.content)
  }

  /** Turn `k`, after which the loop goes on: one idle stop, or calls that all got an answer in time. */
  ghost predicate Continues(cfg: Config, startedAt: real, startHash: string, script: nat -> Turn, k: nat) {
    var turn := script(k);
    && !Elapsed(cfg, startedAt, turn.clockBefore) && turn.answer.Some?
    && if turn.answer.value.calls == [] then
         StopsIdly(startHash, turn) && k + 1 < cfg.maxIterations && (k == 0 || !StopsIdly(startHash, script(k - 1)))
       else
         && |turn.answer.value.calls| <= cfg.maxToolCallsPerTurn
         && |RunsOf(turn.answer.value.calls)| == |turn.answer.value.calls|
         && !Elapsed(cfg, startedAt, turn.clockAfter)
  }

  ghost predicate AllContinue(cfg: Config, startedAt: real, startHash: string, script: nat -> Turn, n: nat) {
    forall k: nat :: k < n ==> Continues(cfg, startedAt, startHash, script, k)
  }

  /** Turn `n` stops the loop once its response is there. */
  ghost predicate AfterResponse(
    cfg: Config, startedAt: real, startHash: string, script: nat -> Turn, n: nat, before: seq<ToolRun>, runs: seq<ToolRun>,
    reason: StopReason, message: string)
    requires script(n).answer.Some?
  {
    var turn, response := script(n), script(n).answer.value;
    if response.calls == [] then
      && runs == before && message == response.content
      && if turn.patchHash != startHash then reason == ModelStop
         else if IsExplicitBlocker(response.content) then reason == ExplicitBlocker
         else reason == NoProgress && (n + 1 == cfg.maxIterations || (n > 0 && StopsIdly(startHash, script(n - 1))))
    else if |response.calls| > cfg.maxToolCallsPerTurn then
      runs == before && message == response.content && reason == ToolCallLimit
    else
      && runs == before + RunsOf(response.calls) && message == ""
      && if |RunsOf(response.calls)| < |response.calls| || Elapsed(cfg, startedAt, turn.clockAfter) then reason == TimeLimit
         else reason == IterationLimit && n + 1 == cfg.maxIterations
  }

  ghost predicate StopsIn(
    cfg: Config, startedAt: real, startHash: string, script: nat -> Turn, n: nat, earlier: seq<Response>, requests: seq<Request>,
    responses: seq<Response>, runs: seq<ToolRun>, reason: StopReason, message: string)
  {
    var turn := script(n);
    if Elapsed(cfg, startedAt, turn.clockBefore) then
      reason == TimeLimit && message == "" && |requests| == n && responses == earlier && runs == AllRuns(earlier)
    else if turn.answer.None? then
      reason == TimeLimit && message == "" && |requests| == n + 1 && responses == earlier && runs == AllRuns(earlier)
    else
      && |requests| == n + 1 && responses == earlier + [turn.answer.value]
      && AfterResponse(cfg, startedAt, startHash, script, n, AllRuns(earlier), runs, reason, message)
  }

  ghost predicate Accounted(responses: seq<Response>, runs: seq<ToolRun>, result: RepairResult) {
    && result.iterations == |responses| && result.toolCalls == |runs|
    && result.usage == TotalUsage(responses) && result.latencyMs == TotalLatency(responses)
  }

  ghost predicate IsRun(
    cfg: Config, startedAt: real, startHash: string, script: nat -> Turn, requests: seq<Request>, responses: seq<Response>,
    runs: seq<ToolRun>, result: RepairResult)
  {
    && Follows(startHash, script, requests, responses) && Accounted(responses, runs, result)
    && exists n: nat ::
         && n <= |responses| && n < cfg.maxIterations && AllContinue(cfg, startedAt, startHash, script, n)
         && StopsIn(cfg, startedAt, startHash, script, n, responses[..n], requests, responses, runs, result.stopReason, result.message)
  }

  // ----- the loop

  datatype Books = Books(usage: Usage, latencyMs: nat, toolCalls: nat, progress: bool, noPatchStops: nat)

  ghost predicate Tallied(responses: seq<Response>, runs: seq<ToolRun>, b: Books) {
    && runs == AllRuns(responses) && b.toolCalls == |runs|
    && b.usage == TotalUsage(responses) && b.latencyMs == TotalLatency(responses)
    && (b.progress <==> AnyOk(runs))
  }

  function Stop(reason: StopReason, iterations: nat, message: string, b: Books): RepairResult {
    RepairResult(reason, iterations, b.toolCalls, message, b.usage, b.latencyMs)
  }

  lemma {:induction false} StopsHere(
    cfg: Config, startedAt: real, startHash: string, script: nat -> Turn, requests: seq<Request>, responses: seq<Response>,
    runs: seq<ToolRun>, earlier: seq<Response>, reason: StopReason, message: string, b: Books)
    requires Follows(startHash, script, requests, responses)
    requires b.toolCalls == |runs| && b.usage == TotalUsage(responses) && b.latencyMs == TotalLatency(responses)
    requires earlier <= responses && |earlier| < cfg.maxIterations
    requires AllContinue(cfg, startedAt, startHash, script, |earlier|)
    requires StopsIn(cfg, startedAt, startHash, script, |earlier|, earlier, requests, responses, runs, reason, message)
    ensures IsRun(cfg, startedAt, startHash, script, requests, responses, runs, Stop(reason, |responses|, message, b))
  {
    assert responses[..|earlier|] == earlier;
  }

  lemma RequestIsSent(startHash: string, script: nat -> Turn, requests: seq<Request>, responses: seq<Response>, request: Request)
    requires Follows(startHash, script, requests, responses) && |requests| == |responses|
    requires request == RequestFor(startHash, script(|requests|), responses)
    ensures Follows(startHash, script, requests + [request], responses)
  {
    assert responses[..|requests|] == responses;
    var longer := requests + [request];
    forall k: nat | k < |longer| ensures RequestIs(startHash, script, longer, responses, k) {
      if k < |requests| { assert RequestIs(startHash, script, requests, responses, k); }
    }
  }

  lemma ResponseArrives(startHash: string, script: nat -> Turn, requests: seq<Request>, responses: seq<Response>, response: Response)
    requires Follows(startHash, script, requests, responses) && |requests| == |responses| + 1
    requires script(|responses|).answer == Some(response)
    ensures Follows(startHash, script, requests, responses + [response])
  {
    var longer := responses + [response];
    forall k: nat | k < |requests| ensures RequestIs(startHash, script, requests, longer, k) {
      assert RequestIs(startHash, script, requests, responses, k);
      assert longer[..k] == responses[..k];
    }
    forall k: nat | k < |longer| ensures ResponseIs(script, longer, k) {
      if k < |responses| { assert ResponseIs(script, responses, k); }
    }
  }

  /** An idle end of the history is exactly one idle stop in the turn before. */
  ghost predicate CountsIdleStops(startHash: string, script: nat -> Turn, responses: seq<Response>, count: nat) {
    && count == Idle(responses) <= 1
    && (count == 1 <==> responses != [] && StopsIdly(startHash, script(|responses| - 1)))
  }

  /** What follows a response: a reason to stop, or the books for the next turn. */
  method ActOn(cfg: Config, startedAt: real, startHash: string, script: nat -> Turn, n: nat, ghost earlier: seq<Response>, ghost before: seq<ToolRun>, b: Books)
    returns (stopped: Option<(StopReason, string)>, made: seq<ToolRun>, b': Books)
    requires n < cfg.maxIterations && |earlier| == n
    requires script(n).answer.Some? && !Elapsed(cfg, startedAt, script(n).clockBefore)
    requires b.toolCalls == |before| && (b.progress <==> AnyOk(before)) && CountsIdleStops(startHash, script, earlier, b.noPatchStops)
    ensures b' == b.(toolCalls := |before + made|, progress := b'.progress, noPatchStops := b'.noPatchStops)
    ensures stopped.Some? ==> AfterResponse(cfg, startedAt, startHash, script, n, before, before + made, stopped.value.0, stopped.value.1)
    ensures stopped.None? ==> Continues(cfg, startedAt, startHash, script, n) && made == RunsOf(script(n).answer.value.calls)
    ensures stopped.None? ==> (b'.progress <==> AnyOk(before + made))
    ensures stopped.None? ==> CountsIdleStops(startHash, script, earlier + [script(n).answer.value], b'.noPatchStops)
  {
    var turn := script(n);
    var response := turn.answer.value;
    made, b' := [], b;
    assert before + [] == before;
    if response.calls == [] {
      if turn.patchHash != startHash { return Some((ModelStop, response.content)), made, b'; }
      if IsExplicitBlocker(response.content) { return Some((ExplicitBlocker, response.content)), made, b'; }
      b' := b.(noPatchStops := b.noPatchStops + 1);
      if b'.noPatchStops >= 2 || n + 1 >= cfg.maxIterations { return Some((NoProgress, response.content)), made, b'; }
      return None, made, b';
    }
    b' := b.(noPatchStops := 0);
    if |response.calls| > cfg.maxToolCallsPerTurn { return Some((ToolCallLimit, response.content)), made, b'; }
    var progress, timedOut;
    made, progress, timedOut := RunToolCalls(response.calls, b.progress);
    AnyOkAppends(before, made);
    b' := b'.(toolCalls := b.toolCalls + |made|, progress := progress);
    if timedOut || Elapsed(cfg, startedAt, turn.clockAfter) { return Some((TimeLimit, "")), made, b'; }
    stopped := None;
  }

  method Repair(cfg: Config, startedAt: real, startHash: string, script: nat -> Turn)
    returns (result: RepairResult, requests: seq<Request>, responses: seq<Response>, runs: seq<ToolRun>)
    requires cfg.Valid()
    ensures IsRun(cfg, startedAt, startHash, script, requests, responses, runs, result)
  {
    requests, responses, runs := [], [], [];
    var b := Books(Usage(0, 0, 0), 0, 0, false, 0);
    for i := 0 to cfg.maxIterations
      invariant |requests| == |responses| == i && Follows(startHash, script, requests, responses)
      invariant AllContinue(cfg, startedAt, startHash, script, i)
      invariant Tallied(responses, runs, b) && CountsIdleStops(startHash, script, responses, b.noPatchStops)
    {
      var turn := script(i);
      ghost var earlier, before := responses, runs;
      if Elapsed(cfg, startedAt, turn.clockBefore) {
        result := Stop(TimeLimit, i, "", b);
        StopsHere(cfg, startedAt, startHash, script, requests, responses, runs, earlier, TimeLimit, "", b);
        return;
      }
      var request := Request(i + 1, b.progress || turn.patchBefore != startHash, b.noPatchStops > 0);
      RequestIsSent(startHash, script, requests, responses, request);
      requests := requests + [request];
      if turn.answer.None? {
        result := Stop(TimeLimit, i, "", b);
        StopsHere(cfg, startedAt, startHash, script, requests, responses, runs, earlier, TimeLimit, "", b);
        return;
      }
      var response := turn.answer.value;
      ResponseArrives(startHash, script, requests, responses, response);
      responses := responses + [response];
      b := b.(usage := Plus(b.usage, response.usage), latencyMs := b.latencyMs + response.latencyMs);
      var stopped, made;
      stopped, made, b := ActOn(cfg, startedAt, startHash, script, i, earlier, before, b);
      runs := runs + made;
      if stopped.Some? {
        result := Stop(stopped.value.0, i + 1, stopped.value.1, b);
        StopsHere(cfg, startedAt, startHash, script, requests, responses, runs, earlier, stopped.value.0, stopped.value.1, b);
        return;
      }
    }
    result := Stop(IterationLimit, cfg.maxIterations, "", b);
    LastTurnContinued(cfg, startedAt, startHash, script, requests, responses, runs, b);
  }

  lemma LastTurnContinued(
    cfg: Config, startedAt: real, startHash: string, script: nat -> Turn, requests: seq<Request>, responses: seq<Response>,
    runs: seq<ToolRun>, b: Books)
    requires |requests| == |responses| == cfg.maxIterations >= 1 && Follows(startHash, script, requests, responses)
    requires AllContinue(cfg, startedAt, startHash, script, cfg.maxIterations) && Tallied(responses, runs, b)
    ensures IsRun(cfg, startedAt, startHash, script, requests, responses, runs, Stop(IterationLimit, cfg.maxIterations, "", b))
  {
    var n := cfg.maxIterations - 1;
    var earlier := responses[..n];
    assert responses == earlier + [responses[n]];
    assert ResponseIs(script, responses, n);
    assert Continues(cfg, startedAt, startHash, script, n);
    StopsHere(cfg, startedAt, startHash, script, requests, responses, runs, earlier, IterationLimit, "", b);
  }

  // ----- what every run keeps

  lemma EarlierTurnsContinued(
    cfg: Config, startedAt: real, startHash: string, script: nat -> Turn, requests: seq<Request>, responses: seq<Response>,
    runs: seq<ToolRun>, result: RepairResult)
    returns (n: nat)
    requires IsRun(cfg, startedAt, startHash, script, requests, responses, runs, result)
    ensures n <= |responses| <= n + 1 && n < cfg.maxIterations && AllContinue(cfg, startedAt, startHash, script, n)
    ensures StopsIn(cfg, startedAt, startHash, script, n, responses[..n], requests, responses, runs, result.stopReason, result.message)
    ensures forall k: nat :: k < |responses| ==> script(k).answer == Some(responses[k])
  {
    n :|
      && n <= |responses| && n < cfg.maxIterations && AllContinue(cfg, startedAt, startHash, script, n)
      && StopsIn(cfg, startedAt, startHash, script, n, responses[..n], requests, responses, runs, result.stopReason, result.message);
    forall k: nat | k < |responses| ensures script(k).answer == Some(responses[k]) {
      assert ResponseIs(script, responses, k);
    }
  }

  /** Why a run stopped, told by turn `k`, the last that got a response; `TimeLimit` may also strike before the next one. */
  ghost predicate Decides(cfg: Config, startHash: string, script: nat -> Turn, k: nat, reason: StopReason)
    requires script(k).answer.Some?
  {
    var turn, response := script(k), script(k).answer.value;
    var second := k > 0 && StopsIdly(startHash, script(k - 1));
    if response.calls == [] then
      if turn.patchHash != startHash then reason == ModelStop
      else if IsExplicitBlocker(response.content) then reason == ExplicitBlocker
      else if second || k + 1 == cfg.maxIterations then reason == NoProgress
      else reason == TimeLimit
    else if |response.calls| > cfg.maxToolCallsPerTurn then reason == ToolCallLimit
    else if |RunsOf(response.calls)| < |response.calls| then reason == TimeLimit
    else reason == TimeLimit || (reason == IterationLimit && k + 1 == cfg.maxIterations)
  }

  lemma ContinuedTurnDecides(cfg: Config, startedAt: real, startHash: string, script: nat -> Turn, k: nat)
    requires Continues(cfg, startedAt, startHash, script, k)
    ensures Decides(cfg, startHash, script, k, TimeLimit)
  {
  }

  lemma LastResponseDecides(
    cfg: Config, startedAt: real, startHash: string, script: nat -> Turn, requests: seq<Request>, responses: seq<Response>,
    runs: seq<ToolRun>, result: RepairResult)
    requires IsRun(cfg, startedAt, startHash, script, requests, responses, runs, result)
    ensures |responses| <= |requests| <= cfg.maxIterations
    ensures |requests| > |responses| ==> result.stopReason == TimeLimit
    ensures responses == [] ==> result.stopReason == TimeLimit
    ensures responses != [] ==> script(|responses| - 1).answer == Some(responses[|responses| - 1])
    ensures responses != [] ==> Decides(cfg, startHash, script, |responses| - 1, result.stopReason)
    ensures result.stopReason in {ModelStop, ExplicitBlocker, NoProgress, ToolCallLimit} ==>
              responses != [] && result.message == responses[|responses| - 1].content
    ensures result.stopReason in {TimeLimit, IterationLimit} ==> result.message == ""
  {
    var n := EarlierTurnsContinued(cfg, startedAt, startHash, script, requests, responses, runs, result);
    if |responses| == n {
      if n > 0 { ContinuedTurnDecides(cfg, startedAt, startHash, script, n - 1); }
    } else {
      assert responses[n] == script(n).answer.value;
    }
  }

  ghost predicate IdleTwice(startHash: string, script: nat -> Turn, k: nat) {
    StopsIdly(startHash, script(k)) && StopsIdly(startHash, script(k + 1))
  }

  lemma ContinuedTurnsAreNotIdleTwice(cfg: Config, startedAt: real, startHash: string, script: nat -> Turn, n: nat)
    requires AllContinue(cfg, startedAt, startHash, script, n)
    ensures forall k: nat :: k + 1 < n ==> !IdleTwice(startHash, script, k)
  {
    forall k: nat | k + 1 < n ensures !IdleTwice(startHash, script, k) {
      assert Continues(cfg, startedAt, startHash, script, k + 1);
    }
  }

  /** Two idle stops in a row happen only as the last two turns, and end the run for want of progress. */
  lemma SecondIdleStopEndsTheRun(
    cfg: Config, startedAt: real, startHash: string, script: nat -> Turn, requests: seq<Request>, responses: seq<Response>,
    runs: seq<ToolRun>, result: RepairResult, k: nat)
    requires IsRun(cfg, startedAt, startHash, script, requests, responses, runs, result)
    requires k + 1 < |responses| && IdleTwice(startHash, script, k)
    ensures k + 2 == |responses| && result.stopReason == NoProgress
  {
    var n := EarlierTurnsContinued(cfg, startedAt, startHash, script, requests, responses, runs, result);
    ContinuedTurnsAreNotIdleTwice(cfg, startedAt, startHash, script, n);
    LastResponseDecides(cfg, startedAt, startHash, script, requests, responses, runs, result);
  }

  /** Except in a turn with too many calls, every call answered in time is counted. */
  lemma EveryAnswerIsCounted(
    cfg: Config, startedAt: real, startHash: string, script: nat -> Turn, requests: seq<Request>, responses: seq<Response>,
    runs: seq<ToolRun>, result: RepairResult)
    requires IsRun(cfg, startedAt, startHash, script, requests, responses, runs, result)
    ensures result.toolCalls == |AllRuns(if result.stopReason == ToolCallLimit then responses[..|responses| - 1] else responses)|
  {
    var n := EarlierTurnsContinued(cfg, startedAt, startHash, script, requests, responses, runs, result);
    if |responses| == n + 1 {
      assert responses == responses[..n] + [responses[n]];
    }
  }

  // ----- what a request says of the turns before it

  /** Call `i` got an answer: it and those before it were run in time, or named no repair tool. */
  ghost predicate WasAnswered(response: Response, i: nat) {
    i < |response.calls| && forall j :: 0 <= j <= i ==> response.calls[j].outcome.Ran? || response.calls[j].name !in REPAIR_TOOL_NAMES
  }

  ghost predicate SucceedsAt(response: Response, i: nat) {
    && WasAnswered(response, i) && response.calls[i].name in REPAIR_TOOL_NAMES
    && response.calls[i].outcome.result.ok
  }

  ghost predicate Succeeds(response: Response) { exists i: nat :: SucceedsAt(response, i) }

  ghost predicate SomeSucceeds(responses: seq<Response>) { exists r :: r in responses && Succeeds(r) }

  /** Only the six repair tools are run; any other name is answered with `UNKNOWN_TOOL` and never succeeds. */
  lemma {:induction false} AnswersAreThoseGiven(calls: seq<Call>, i: nat)
    ensures i < |RunsOf(calls)| <==>
            i < |calls| && forall j :: 0 <= j <= i ==> calls[j].outcome.Ran? || calls[j].name !in REPAIR_TOOL_NAMES
    ensures i < |RunsOf(calls)| ==>
              && RunsOf(calls)[i].callName == calls[i].name
              && RunsOf(calls)[i].result ==
                 if calls[i].name in REPAIR_TOOL_NAMES then calls[i].outcome.result
                 else ToolResult(calls[i].name, false, Some(UnknownTool), "")
    decreases i
  {
    if calls != [] && !Hangs(calls[0]) && i > 0 {
      AnswersAreThoseGiven(calls[1..], i - 1);
      assert forall j :: 0 < j < |calls| ==> calls[j] == calls[1..][j - 1];
      if i < |calls| && forall j :: 0 <= j <= i - 1 ==> calls[1..][j].outcome.Ran? || calls[1..][j].name !in REPAIR_TOOL_NAMES {
        forall j | 0 <= j <= i ensures calls[j].outcome.Ran? || calls[j].name !in REPAIR_TOOL_NAMES {
          if j > 0 { assert calls[j] == calls[1..][j - 1]; }
        }
      }
    }
  }

  lemma {:induction false} ToolsAreSix(name: string)
    ensures name in REPAIR_TOOL_NAMES <==>
            || name == "read_range" || name == "read_symbol" || name == "search_code" || name == "search_code_many"
            || name == "write_file" || name == "apply_patch"
  {
  }

  lemma SuccessIsSeen(response: Response)
    ensures AnyOk(RunsOf(response.calls)) <==> Succeeds(response)
  {
    var runs := RunsOf(response.calls);
    if i: nat :| i < |runs| && runs[i].result.ok {
      AnswersAreThoseGiven(response.calls, i);
      assert SucceedsAt(response, i);
    }
    if i: nat :| SucceedsAt(response, i) { AnswersAreThoseGiven(response.calls, i); }
  }

  lemma {:induction false} ProgressIsSeen(responses: seq<Response>)
    ensures AnyOk(AllRuns(responses)) <==> SomeSucceeds(responses)
  {
    if responses != [] {
      var front, last := responses[..|responses| - 1], responses[|responses| - 1];
      ProgressIsSeen(front);
      SuccessIsSeen(last);
      AnyOkAppends(AllRuns(front), RunsOf(last.calls));
      assert responses == front + [last];
    }
  }

  /** Request `k` is told of progress made, and asks for a patch exactly when the turn before it made no calls. */
  lemma RequestsTellTheHistory(
    cfg: Config, startedAt: real, startHash: string, script: nat -> Turn, requests: seq<Request>, responses: seq<Response>,
    runs: seq<ToolRun>, result: RepairResult, k: nat)
    requires IsRun(cfg, startedAt, startHash, script, requests, responses, runs, result) && k < |requests|
    ensures k <= |responses| && requests[k].iteration == k + 1
    ensures requests[k].progress <==> SomeSucceeds(responses[..k]) || script(k).patchBefore != startHash
    ensures requests[k].nudged <==> k > 0 && responses[k - 1].calls == []
  {
    assert RequestIs(startHash, script, requests, responses, k);
    ProgressIsSeen(responses[..k]);
  }

  // ----- the deadline

  /** The turn in which a run came to its end for want of time; idle stops are not timed. */
  ghost predicate OutOfTime(deadline: real, turn: Turn) {
    || turn.clockBefore >= deadline || turn.answer.None?
    || (turn.answer.value.calls != [] && turn.clockAfter >= deadline)
    || exists c :: c in turn.answer.value.calls && c.name in REPAIR_TOOL_NAMES && c.outcome.TimedOut?
  }

  lemma {:induction false} CutShortMeansTimedOut(calls: seq<Call>)
    ensures |RunsOf(calls)| < |calls| <==> exists c :: c in calls && c.name in REPAIR_TOOL_NAMES && c.outcome.TimedOut?
  {
    if calls != [] {
      CutShortMeansTimedOut(calls[1..]);
      assert calls == [calls[0]] + calls[1..];
    }
  }

  lemma ContinuesInTime(cfg: Config, startedAt: real, startHash: string, script: nat -> Turn, n: nat)
    requires AllContinue(cfg, startedAt, startHash, script, n)
    ensures forall k: nat :: k < n ==> !OutOfTime(startedAt + cfg.maxDuration, script(k))
  {
    forall k: nat | k < n ensures !OutOfTime(startedAt + cfg.maxDuration, script(k)) {
      assert Continues(cfg, startedAt, startHash, script, k);
      CutShortMeansTimedOut(script(k).answer.value.calls);
    }
  }

  lemma StopsForTime(
    cfg: Config, startedAt: real, startHash: string, script: nat -> Turn, n: nat, earlier: seq<Response>, requests: seq<Request>,
    responses: seq<Response>, runs: seq<ToolRun>, reason: StopReason, message: string)
    requires StopsIn(cfg, startedAt, startHash, script, n, earlier, requests, responses, runs, reason, message)
    ensures reason == TimeLimit ==> OutOfTime(startedAt + cfg.maxDuration, script(n))
    ensures n <= |requests| <= n + 1
    ensures |requests| == n + 1 ==> script(n).clockBefore < startedAt + cfg.maxDuration
  {
    if script(n).answer.Some? { CutShortMeansTimedOut(script(n).answer.value.calls); }
  }

  /** Requests are only sent before the deadline, and a run that ends for want of time is really out of it. */
  lemma DeadlineIsKept(
    cfg: Config, startedAt: real, startHash: string, script: nat -> Turn, requests: seq<Request>, responses: seq<Response>,
    runs: seq<ToolRun>, result: RepairResult)
    returns (last: nat)
    requires IsRun(cfg, startedAt, startHash, script, requests, responses, runs, result)
    ensures last <= |requests| <= last + 1 && last <= |responses|
    ensures forall k: nat :: k < |requests| ==> script(k).clockBefore < startedAt + cfg.maxDuration
    ensures forall k: nat :: k < last ==> !OutOfTime(startedAt + cfg.maxDuration, script(k))
    ensures result.stopReason == TimeLimit ==> OutOfTime(startedAt + cfg.maxDuration, script(last))
  {
    last := EarlierTurnsContinued(cfg, startedAt, startHash, script, requests, responses, runs, result);
    StopsForTime(cfg, startedAt, startHash, script, last, responses[..last], requests, responses, runs, result.stopReason, result.message);
    ContinuesInTime(cfg, startedAt, startHash, script, last);
  }
}
