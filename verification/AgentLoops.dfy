/** What the Developer and the Repair loop share: responses, tool runs and their sums. */
module AgentLoops {
  import opened Wrappers

  datatype ErrorCode = InvalidArguments | PathDenied | NotFound | AmbiguousPatch | IoError | UnknownTool

  /** `shape` is the argument-shape text of a failure signature. */
  datatype ToolResult = ToolResult(name: string, ok: bool, errorCode: Option<ErrorCode>, shape: string)

  datatype Outcome = TimedOut | Ran(result: ToolResult)

  /** A requested call, with what running it would give. */
  datatype Call = Call(name: string, outcome: Outcome)

  datatype ToolRun = ToolRun(callName: string, result: ToolResult)

  datatype Usage = Usage(prompt: nat, completion: nat, total: nat)

  datatype Response = Response(usage: Usage, latencyMs: nat, content: string, calls: seq<Call>)

  function Plus(a: Usage, b: Usage): Usage {
    Usage(a.prompt + b.prompt, a.completion + b.completion, a.total + b.total)
  }

  ghost function TotalUsage(responses: seq<Response>): Usage {
    if responses == [] then Usage(0, 0, 0) else Plus(TotalUsage(responses[..|responses| - 1]), responses[|responses| - 1].usage)
  }

  ghost function TotalLatency(responses: seq<Response>): nat {
    if responses == [] then 0 else TotalLatency(responses[..|responses| - 1]) + responses[|responses| - 1].latencyMs
  }

  ghost predicate AnyOk(runs: seq<ToolRun>) { exists i :: 0 <= i < |runs| && runs[i].result.ok }

  lemma AnyOkAppends(a: seq<ToolRun>, b: seq<ToolRun>)
    ensures AnyOk(a + b) <==> AnyOk(a) || AnyOk(b)
  {
    if AnyOk(a) {
      var i :| 0 <= i < |a| && a[i].result.ok;
      assert (a + b)[i].result.ok;
    }
    if AnyOk(b) {
      var i :| 0 <= i < |b| && b[i].result.ok;
      assert (a + b)[|a| + i].result.ok;
    }
  }

  /** The sum of one figure over all responses. */
  ghost function SumOver(responses: seq<Response>, figure: Response -> nat): nat {
    if responses == [] then 0 else figure(responses[0]) + SumOver(responses[1..], figure)
  }

  lemma {:induction false} SumOverAppends(responses: seq<Response>, r: Response, figure: Response -> nat)
    ensures SumOver(responses + [r], figure) == SumOver(responses, figure) + figure(r)
  {
    if responses == [] {
      assert [r][1..] == [];
    } else {
      SumOverAppends(responses[1..], r, figure);
      assert (responses + [r])[1..] == responses[1..] + [r];
    }
  }

  /** Prompt, completion and total tokens and latency are each added up for themselves. */
  lemma {:induction false} TotalsAddUp(responses: seq<Response>)
    ensures TotalUsage(responses).prompt == SumOver(responses, (r: Response) => r.usage.prompt)
    ensures TotalUsage(responses).completion == SumOver(responses, (r: Response) => r.usage.completion)
    ensures TotalUsage(responses).total == SumOver(responses, (r: Response) => r.usage.total)
    ensures TotalLatency(responses) == SumOver(responses, (r: Response) => r.latencyMs)
  {
    if responses != [] {
      var front, last := responses[..|responses| - 1], responses[|responses| - 1];
      TotalsAddUp(front);
      assert responses == front + [last];
      SumOverAppends(front, last, (r: Response) => r.usage.prompt);
      SumOverAppends(front, last, (r: Response) => r.usage.completion);
      SumOverAppends(front, last, (r: Response) => r.usage.total);
      SumOverAppends(front, last, (r: Response) => r.latencyMs);
    }
  }

  // ----- failure signatures

  type Signature = (string, ErrorCode, string)

  /** A failing run's signature; a success, or a failure without a code, has none. */
  function SignatureOf(r: ToolRun): Option<Signature> {
    if r.result.ok || r.result.errorCode.None? then None else Some((r.result.name, r.result.errorCode.value, r.result.shape))
  }

  function LastSignature(runs: seq<ToolRun>): Option<Signature> {
    if runs == [] then None else SignatureOf(runs[|runs| - 1])
  }

  /** Two runs failed in the same tool, with the same error code, on arguments of the same shape. */
  ghost predicate FailAlike(a: ToolRun, b: ToolRun) {
    && !a.result.ok && !b.result.ok
    && a.result.errorCode.Some? && a.result.errorCode == b.result.errorCode
    && a.result.name == b.result.name && a.result.shape == b.result.shape
  }

  /** Signatures tell exactly the failures apart that differ in tool, code or argument shape. */
  lemma SignaturesAgreeIff(a: ToolRun, b: ToolRun)
    ensures SignatureOf(a).Some? && SignatureOf(a) == SignatureOf(b) <==> FailAlike(a, b)
  {
  }

  /** Run `i` and the next fail alike. */
  ghost predicate RepeatsAt(runs: seq<ToolRun>, i: nat)
    requires i + 1 < |runs|
  {
    FailAlike(runs[i], runs[i + 1])
  }

  ghost predicate NoRepeats(runs: seq<ToolRun>) {
    forall i: nat :: i + 1 < |runs| ==> !RepeatsAt(runs, i)
  }

  lemma AppendRun(runs: seq<ToolRun>, r: ToolRun)
    requires NoRepeats(runs)
    ensures NoRepeats(runs + [r]) <==> !(SignatureOf(r).Some? && SignatureOf(r) == LastSignature(runs))
    ensures !NoRepeats(runs + [r]) ==> runs != [] && RepeatsAt(runs + [r], |runs| - 1)
  {
    var longer := runs + [r];
    if runs != [] { SignaturesAgreeIff(runs[|runs| - 1], r); }
    if SignatureOf(r).Some? && SignatureOf(r) == LastSignature(runs) {
      assert RepeatsAt(longer, |runs| - 1);
    } else {
      forall i: nat | i + 1 < |longer| ensures !RepeatsAt(longer, i) {
        if i + 1 < |runs| { assert !RepeatsAt(runs, i); }
      }
    }
  }
}
