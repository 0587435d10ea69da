/** The records of `backend/app/models/context.py` with their validators. */
module Packets {
  import opened Wrappers
  import opened Ids
  import opened Tokens
  import opened SourceText

  datatype Reason =
    | PerFileCharLimit | TotalCharLimit | TokenBudget | FileCountLimit
    | SourceFileTooLarge | NonUtf8 | PathUnavailable

  datatype Truncation = Truncation(reason: Reason, path: Option<string>, omittedChars: nat, omittedFiles: nat)

  datatype Budget = Budget(maxFiles: nat, maxCharsPerFile: nat, maxTotalChars: nat, maxEstimatedTokens: nat, maxSourceFileBytes: nat) {
    predicate Valid() {
      && 1 <= maxFiles <= 100 && 100 <= maxCharsPerFile <= 100_000 && 100 <= maxTotalChars <= 500_000
      && 100 <= maxEstimatedTokens <= 500_000 && 1_024 <= maxSourceFileBytes <= 10_000_000
    }
  }

  datatype Snippet = Snippet(startLine: nat, endLine: nat, content: string, charCount: nat, estimatedTokens: nat, billable: int) {
    predicate Valid() {
      && 1 <= startLine <= endLine && charCount == |content| && estimatedTokens == ContextWindowUnits(content) && billable >= 0
    }
  }

  function SumOf(values: seq<int>): int {
    if values == [] then 0 else SumOf(values[..|values| - 1]) + values[|values| - 1]
  }

  function CharCounts(snippets: seq<Snippet>): seq<int> { seq(|snippets|, i requires 0 <= i < |snippets| => snippets[i].charCount) }
  function TokenCounts(snippets: seq<Snippet>): seq<int> { seq(|snippets|, i requires 0 <= i < |snippets| => snippets[i].estimatedTokens) }
  function BillableCounts(snippets: seq<Snippet>): seq<int> { seq(|snippets|, i requires 0 <= i < |snippets| => snippets[i].billable) }

  datatype ContextFile = ContextFile(path: string, sourceChars: nat, sourceBytes: nat, snippets: seq<Snippet>,
                                     selectedChars: int, estimatedTokens: int, billable: int, truncated: bool)
  {
    predicate Valid() {
      && snippets != [] && (forall s | s in snippets :: s.Valid())
      && selectedChars == SumOf(CharCounts(snippets))
      && estimatedTokens == SumOf(TokenCounts(snippets))
      && billable == SumOf(BillableCounts(snippets)) && billable >= 0
      && 0 <= selectedChars <= sourceChars
      && 0 <= estimatedTokens <= sourceBytes
    }
  }

  function FileChars(files: seq<ContextFile>): seq<int> { seq(|files|, i requires 0 <= i < |files| => files[i].selectedChars) }
  function FileTokens(files: seq<ContextFile>): seq<int> { seq(|files|, i requires 0 <= i < |files| => files[i].estimatedTokens) }
  function FileBillable(files: seq<ContextFile>): seq<int> { seq(|files|, i requires 0 <= i < |files| => files[i].billable) }
  function Truncated(files: seq<ContextFile>): seq<int> { seq(|files|, i requires 0 <= i < |files| => if files[i].truncated then 1 else 0) }
  function OmittedFiles(truncations: seq<Truncation>): seq<int> {
    seq(|truncations|, i requires 0 <= i < |truncations| => truncations[i].omittedFiles)
  }

  datatype Usage = Usage(candidateFiles: int, selectedFiles: int, selectedChars: int, estimatedTokens: int, truncatedFiles: int,
                         omittedFiles: int, reusedFiles: int, trimmedFiles: int, contextWindowUnits: int,
                         billableContentTokens: int, billablePromptTokens: int)
  {
    predicate Valid() {
      && candidateFiles >= 0 && selectedFiles >= 0 && selectedChars >= 0 && estimatedTokens >= 0 && truncatedFiles >= 0
      && omittedFiles >= 0 && reusedFiles >= 0 && trimmedFiles >= 0 && contextWindowUnits >= 0
      && (contextWindowUnits != 0 ==> contextWindowUnits == estimatedTokens)
      && 0 <= billableContentTokens <= billablePromptTokens
    }
  }

  datatype Packet = Packet(files: seq<ContextFile>, truncations: seq<Truncation>, budget: Budget, usage: Usage) {
    ghost predicate Valid() {
      && budget.Valid() && usage.Valid() && (forall f | f in files :: f.Valid())
      && (forall i, j :: 0 <= i < j < |files| ==> files[i].path != files[j].path)
      && usage.selectedFiles == |files|
      && usage.selectedChars == SumOf(FileChars(files))
      && usage.estimatedTokens == SumOf(FileTokens(files))
      && usage.selectedChars <= budget.maxTotalChars
      && usage.estimatedTokens <= budget.maxEstimatedTokens
      && usage.selectedFiles <= budget.maxFiles
      && usage.trimmedFiles == usage.truncatedFiles
    }
  }

  lemma {:induction false} SumOfNonNegative(values: seq<int>)
    requires forall i :: 0 <= i < |values| ==> values[i] >= 0
    ensures SumOf(values) >= 0
  {
    if values != [] { SumOfNonNegative(values[..|values| - 1]); }
  }

  lemma CountsOfAppend(snippets: seq<Snippet>, s: Snippet)
    ensures SumOf(CharCounts(snippets + [s])) == SumOf(CharCounts(snippets)) + s.charCount
    ensures SumOf(TokenCounts(snippets + [s])) == SumOf(TokenCounts(snippets)) + s.estimatedTokens
    ensures SumOf(BillableCounts(snippets + [s])) == SumOf(BillableCounts(snippets)) + s.billable
  {
    assert CharCounts(snippets + [s]) == CharCounts(snippets) + [s.charCount];
    assert TokenCounts(snippets + [s]) == TokenCounts(snippets) + [s.estimatedTokens];
    assert BillableCounts(snippets + [s]) == BillableCounts(snippets) + [s.billable];
  }

  lemma FilesOfAppend(files: seq<ContextFile>, f: ContextFile)
    ensures SumOf(FileChars(files + [f])) == SumOf(FileChars(files)) + f.selectedChars
    ensures SumOf(FileTokens(files + [f])) == SumOf(FileTokens(files)) + f.estimatedTokens
  {
    assert FileChars(files + [f]) == FileChars(files) + [f.selectedChars];
    assert FileTokens(files + [f]) == FileTokens(files) + [f.estimatedTokens];
  }

  lemma {:induction false} OmittedOfConcat(a: seq<Truncation>, b: seq<Truncation>)
    ensures SumOf(OmittedFiles(a + b)) == SumOf(OmittedFiles(a)) + SumOf(OmittedFiles(b))
  {
    if b == [] {
      assert a + b == a;
    } else {
      var n := |b| - 1;
      OmittedOfConcat(a, b[..n]);
      assert a + b == a + b[..n] + [b[n]];
      assert OmittedFiles(a + b) == OmittedFiles(a + b[..n]) + [b[n].omittedFiles];
      assert OmittedFiles(b) == OmittedFiles(b[..n]) + [b[n].omittedFiles] by { assert b == b[..n] + [b[n]]; }
    }
  }

  lemma {:induction false} NothingOmitted(truncations: seq<Truncation>)
    requires forall t | t in truncations :: t.omittedFiles == 0
    ensures SumOf(OmittedFiles(truncations)) == 0
  {
    if truncations != [] {
      var n := |truncations| - 1;
      assert truncations[n] in truncations;
      NothingOmitted(truncations[..n]);
      assert OmittedFiles(truncations)[..n] == OmittedFiles(truncations[..n]);
    }
  }
}
