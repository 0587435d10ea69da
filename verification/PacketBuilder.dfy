/** `ContextPacketBuilder` in `backend/app/context/builder.py`: ranked candidates become one bounded packet. */
module PacketBuilder {
  import opened Wrappers
  import opened Tokens
  import opened Prefixes
  import opened Relevance
  import opened SourceText
  import opened Packets
  import opened RegionBudget

  datatype Candidate = Candidate(path: string, regions: seq<Region>)

  /** A worktree path: unreadable, not UTF-8 (only its size matters), or the decoded text of valid UTF-8. */
  datatype FileState = Unavailable | Binary(size: nat) | Decoded(text: string)

  type Worktree = map<string, FileState>

  /** The state a checkpoint hands over; a content hash is represented by the content it identifies. */
  datatype Resume = Resume(changedFiles: set<string>, readFiles: map<string, string>, summary: string)

  datatype Source = Loaded(raw: string, text: string) | Failure(reason: Reason)

  datatype Load = Selected(file: ContextFile, truncations: seq<Truncation>) | Omitted(truncation: Truncation)

  /** `_read_source`; text of valid UTF-8 occupies as many bytes as it encodes to. */
  function ReadSource(budget: Budget, worktree: Worktree, path: string): Source {
    if path !in worktree then Failure(PathUnavailable)
    else match worktree[path]
      case Unavailable => Failure(PathUnavailable)
      case Binary(size) => if size > budget.maxSourceFileBytes then Failure(SourceFileTooLarge) else Failure(NonUtf8)
      case Decoded(text) =>
        if ContextWindowUnits(text) > budget.maxSourceFileBytes then Failure(SourceFileTooLarge)
        else Loaded(text, Normalized(text))
  }

  /** A file is loaded exactly when it is valid text within the size bound; the bound is looked at before the encoding. */
  lemma SourceIsLoadedIff(budget: Budget, worktree: Worktree, path: string)
    ensures var source := ReadSource(budget, worktree, path);
            && (source.Loaded? <==>
                  && path in worktree && worktree[path].Decoded? && ContextWindowUnits(worktree[path].text) <= budget.maxSourceFileBytes)
            && (source.Loaded? ==> source.raw == worktree[path].text && source.text == Normalized(worktree[path].text))
            && (source == Failure(PathUnavailable) <==> path !in worktree || worktree[path].Unavailable?)
            && (source == Failure(NonUtf8) <==>
                  path in worktree && worktree[path].Binary? && worktree[path].size <= budget.maxSourceFileBytes)
  {
  }

  /** `_region_truncations`. */
  function RegionTruncations(path: string, omissions: Omissions): seq<Truncation> {
    (if PerFileCharLimit in omissions then [Truncation(PerFileCharLimit, Some(path), omissions[PerFileCharLimit], 0)] else []) +
    (if TotalCharLimit in omissions then [Truncation(TotalCharLimit, Some(path), omissions[TotalCharLimit], 0)] else []) +
    (if TokenBudget in omissions then [Truncation(TokenBudget, Some(path), omissions[TokenBudget], 0)] else [])
  }

  // ----- one candidate

  /** Within the budgets it was given, and honest about being cut. */
  ghost predicate SoundSelection(load: Load, path: string, source: Source, limits: Limits) {
    && load.Selected? && source.Loaded?
    && load.file.Valid() && load.file.path == path
    && load.file.sourceChars == |source.text| && load.file.sourceBytes == ContextWindowUnits(source.raw)
    && load.file.selectedChars <= limits.Chars() && load.file.estimatedTokens <= limits.tokens
    && (load.file.truncated <==> load.truncations != [])
    && (forall t | t in load.truncations :: t.path == Some(path) && t.omittedFiles == 0)
  }

  ghost predicate SoundOmission(load: Load, path: string) {
    load.Omitted? && load.truncation.path == Some(path) && load.truncation.omittedFiles == 1
  }

  function DesiredChars(texts: seq<string>): nat { |Concat(texts)| }

  lemma {:induction false} NothingShownMeansNothingPicked(snippets: seq<Snippet>, regions: seq<Region>, picks: seq<string>)
    requires AllValid(regions) && |picks| <= |regions| && Shows(snippets, regions, picks)
    ensures snippets == [] ==> forall i :: 0 <= i < |picks| ==> picks[i] == ""
  {
    if picks != [] && snippets == [] {
      NothingShownMeansNothingPicked(snippets, regions, picks[..|picks| - 1]);
      assert forall i :: 0 <= i < |picks| - 1 ==> picks[i] == picks[..|picks| - 1][i];
    }
  }

  lemma {:induction false} ConcatOfEmpty(picks: seq<string>)
    requires forall i :: 0 <= i < |picks| ==> picks[i] == ""
    ensures Concat(picks) == ""
  {
    if picks != [] { ConcatOfEmpty(picks[1..]); }
  }

  /** When no region is shown, the token budget is too small for every region that has text. */
  lemma NothingShownMeansNoTokens(texts: seq<string>, limits: Limits, picks: seq<string>, i: nat)
    requires Picked(texts, limits, picks) && i < |picks| && texts[i] != "" && limits.Chars() > 0
    requires forall k :: 0 <= k < |picks| ==> picks[k] == ""
    ensures limits.tokens < ContextWindowUnits(texts[i])
  {
    ConcatOfEmpty(picks[..i]);
    assert ContextWindowUnits("") == 0;
    assert limits.After(picks[..i]) == limits;
    NothingFits(texts[i], picks[i], limits.Chars(), limits.tokens);
    UnitsOfPrefix(texts[i], 1, |texts[i]|);
    assert texts[i][..|texts[i]|] == texts[i];
  }

  lemma RecordedIffCut(texts: seq<string>, limits: Limits, picks: seq<string>, omissions: Omissions)
    requires |picks| == |texts| && Picked(texts, limits, picks) && Explains(texts, limits, picks, omissions)
    ensures omissions != map[] <==> exists i :: 0 <= i < |texts| && |picks[i]| < |texts[i]|
    ensures forall reason :: reason in omissions ==> reason in {PerFileCharLimit, TotalCharLimit, TokenBudget}
  {
    if reason :| reason in omissions {
      var i: nat :| CutBy(texts, limits, picks, reason, i);
      assert |picks[i]| < |texts[i]|;
    }
    forall i | 0 <= i < |texts| && |picks[i]| < |texts[i]| ensures omissions != map[] {
      var left := limits.After(picks[..i]);
      CutIsExplained(texts[i], picks[i], left);
      var reason := if left.Names(PerFileCharLimit, texts[i]) then PerFileCharLimit
                    else if left.Names(TotalCharLimit, texts[i]) then TotalCharLimit else TokenBudget;
      assert CutBy(texts, limits, picks, reason, i);
      assert reason in omissions;
    }
    forall reason | reason in omissions ensures reason in {PerFileCharLimit, TotalCharLimit, TokenBudget} {
      var i: nat :| CutBy(texts, limits, picks, reason, i);
    }
  }

  ghost predicate Records(truncations: seq<Truncation>, reason: Reason) {
    exists t :: t in truncations && t.reason == reason
  }

  lemma RegionTruncationsList(path: string, omissions: Omissions)
    requires forall reason :: reason in omissions ==> reason in {PerFileCharLimit, TotalCharLimit, TokenBudget}
    ensures RegionTruncations(path, omissions) == [] <==> omissions == map[]
    ensures forall reason :: reason in omissions <==> Records(RegionTruncations(path, omissions), reason)
    ensures forall t | t in RegionTruncations(path, omissions) ::
              t.path == Some(path) && t.omittedFiles == 0 && t.reason in omissions && t.omittedChars == omissions[t.reason]
  {
    var list := RegionTruncations(path, omissions);
    forall reason | reason in omissions ensures Records(list, reason) {
      assert Truncation(reason, Some(path), omissions[reason], 0) in list;
    }
  }

  /** What a loaded region file says about the regions: what each shows, whether it is cut, and why. */
  ghost predicate RegionVerdict(texts: seq<string>, regions: seq<Region>, limits: Limits, load: Load, picks: seq<string>)
    requires AllValid(regions)
  {
    && |picks| == |texts| == |regions| && Picked(texts, limits, picks)
    && match load
       case Selected(file, truncations) =>
         && Shows(file.snippets, regions, picks)
         && (file.truncated <==> exists i :: 0 <= i < |texts| && |picks[i]| < |texts[i]|)
         && (forall reason :: Records(truncations, reason) <==> SomeCutBy(texts, limits, picks, reason))
         && (forall t | t in truncations :: t.omittedChars == OmittedBy(texts, limits, picks, t.reason))
       case Omitted(t) =>
         && t.reason == TokenBudget && t.omittedChars == |Concat(texts)|
         && forall i :: 0 <= i < |texts| ==> picks[i] == "" && (texts[i] != "" ==> limits.tokens < ContextWindowUnits(texts[i]))
  }

  /** `_load_region_candidate` on the region texts. */
  method LoadRegions(path: string, texts: seq<string>, regions: seq<Region>, source: Source, limits: Limits)
    returns (load: Load, picks: seq<string>)
    requires AllValid(regions) && |texts| == |regions|
    requires source.Loaded? && source.text == Normalized(source.raw) && Cheaper(Concat(texts), source.text)
    requires limits.Chars() > 0 && limits.tokens > 0
    ensures RegionVerdict(texts, regions, limits, load, picks)
    ensures load.Selected? ==> SoundSelection(load, path, source, limits)
    ensures load.Omitted? ==> SoundOmission(load, path)
  {
    var snippets, omissions;
    snippets, omissions, picks := PickRegions(texts, regions, limits);
    if snippets == [] {
      NothingShownMeansNothingPicked(snippets, regions, picks);
      forall i | 0 <= i < |texts| && texts[i] != "" ensures limits.tokens < ContextWindowUnits(texts[i]) {
        NothingShownMeansNoTokens(texts, limits, picks, i);
      }
      load := Omitted(Truncation(TokenBudget, Some(path), DesiredChars(texts), 1));
      return;
    }
    load := Selected(
      ContextFile(path, |source.text|, ContextWindowUnits(source.raw), snippets, SumOf(CharCounts(snippets)),
                  SumOf(TokenCounts(snippets)), SumOf(BillableCounts(snippets)), omissions != map[]),
      RegionTruncations(path, omissions));
    RegionFileIsValid(source, texts, limits, snippets, picks);
    RecordedIffCut(texts, limits, picks, omissions);
    RegionTruncationsList(path, omissions);
  }

  /** What is picked is no larger than what the budgets or the source allow. */
  lemma {:induction false} RegionFileIsValid(source: Source, texts: seq<string>, limits: Limits, snippets: seq<Snippet>, picks: seq<string>)
    requires source.Loaded? && source.text == Normalized(source.raw) && Cheaper(Concat(texts), source.text)
    requires |picks| == |texts| && Picked(texts, limits, picks) && Tallies(snippets, picks)
    requires limits.Chars() > 0 && limits.tokens > 0
    ensures SumOf(CharCounts(snippets)) <= |source.text| && SumOf(TokenCounts(snippets)) <= ContextWindowUnits(source.raw)
    ensures SumOf(CharCounts(snippets)) <= limits.Chars() && SumOf(TokenCounts(snippets)) <= limits.tokens
  {
    PicksStayWithin(texts, limits, picks);
    assert texts[..|picks|] == texts;
    NormalizedIsNoLarger(source.raw);
  }

  // ----- which lines a file shows

  ghost predicate StartsRegion(regions: seq<Region>, s: Snippet) {
    exists r :: r in regions && s.startLine == r.startLine && s.endLine <= r.endLine
  }

  /** Some snippet shows the region from its first line to its last, or to the end of the file. */
  ghost predicate ShownWhole(text: string, r: Region, snippets: seq<Snippet>) {
    exists s ::
      && s in snippets && s.startLine == r.startLine && EndsWithLine(text, s.content, s.startLine)
      && s.endLine == if r.endLine < |SplitLines(text)| then r.endLine else |SplitLines(text)|
  }

  ghost predicate InOrder(snippets: seq<Snippet>) {
    forall i, j :: 0 <= i < j < |snippets| ==> snippets[i].endLine < snippets[j].startLine
  }

  /**
    * Every snippet stands in the text where it says and begins a region, no line is shown twice, and a file that is not
    * truncated shows all its regions whole.
    */
  ghost predicate ShowsLines(text: string, regions: seq<Region>, file: ContextFile) {
    && (forall s | s in file.snippets ::
          Stands(text, s.content, s.startLine, s.endLine) && s.billable == BillableTokenEstimate(s.content) && StartsRegion(regions, s))
    && InOrder(file.snippets)
    && (!file.truncated ==> forall r | r in regions && r.startLine <= |SplitLines(text)| :: ShownWhole(text, r, file.snippets))
  }

  lemma {:induction false} SnippetStands(text: string, regions: seq<Region>, r: Region, pick: string)
    requires r.Valid() && r in regions && pick != "" && pick <= RegionText(SplitLines(text), r)
    ensures var s := SnippetOf(r, pick);
            && Stands(text, s.content, s.startLine, s.endLine) && s.billable == BillableTokenEstimate(s.content)
            && StartsRegion(regions, s) && s.startLine == r.startLine && s.endLine <= r.endLine
    ensures pick == RegionText(SplitLines(text), r) ==> ShownWhole(text, r, [SnippetOf(r, pick)])
  {
    RegionTextStands(text, r, pick);
    SplitLinesLosesNothing(pick);
    assert SnippetOf(r, pick) in [SnippetOf(r, pick)];
  }

  lemma LastInOrder(snippets: seq<Snippet>, last: nat)
    requires |snippets| == last + 1 && InOrder(snippets[..last])
    requires forall x | x in snippets[..last] :: x.endLine < snippets[last].startLine
    ensures InOrder(snippets)
  {
    forall i | 0 <= i < last ensures snippets[i].endLine < snippets[last].startLine { assert snippets[..last][i] in snippets[..last]; }
  }

  lemma {:induction false} SnippetsAreInOrder(snippets: seq<Snippet>, regions: seq<Region>, picks: seq<string>)
    requires Separated(regions) && |picks| <= |regions| && Shows(snippets, regions, picks)
    ensures InOrder(snippets)
    decreases |picks|
  {
    if picks != [] {
      var n := |picks| - 1;
      assert regions[n] in regions;
      if picks[n] == "" {
        SnippetsAreInOrder(snippets, regions, picks[..n]);
      } else {
        var last := |snippets| - 1;
        SnippetsAreInOrder(snippets[..last], regions, picks[..n]);
        EndBefore(snippets[..last], regions, picks[..n], n);
        LastInOrder(snippets, last);
      }
    }
  }

  lemma {:induction false} EndBefore(front: seq<Snippet>, regions: seq<Region>, picks: seq<string>, n: nat)
    requires Separated(regions) && |picks| == n < |regions| && Shows(front, regions, picks)
    ensures forall s | s in front :: s.endLine < regions[n].startLine
  {
    SnippetsComeFrom(front, regions, picks);
    forall s | s in front ensures s.endLine < regions[n].startLine {
      var k :| 0 <= k < n && regions[k] in regions && picks[k] != "" && s == SnippetOf(regions[k], picks[k]);
    }
  }

  lemma {:induction false} SnippetsStand(text: string, regions: seq<Region>, limits: Limits, snippets: seq<Snippet>, picks: seq<string>)
    requires AllValid(regions) && |picks| == |regions| && Shows(snippets, regions, picks)
    requires Picked(RegionTexts(SplitLines(text), regions), limits, picks)
    ensures forall s | s in snippets ::
              Stands(text, s.content, s.startLine, s.endLine) && s.billable == BillableTokenEstimate(s.content) && StartsRegion(regions, s)
  {
    var texts := RegionTexts(SplitLines(text), regions);
    SnippetsComeFrom(snippets, regions, picks);
    forall s | s in snippets
      ensures Stands(text, s.content, s.startLine, s.endLine) && s.billable == BillableTokenEstimate(s.content) && StartsRegion(regions, s)
    {
      var i :| 0 <= i < |picks| && regions[i] in regions && picks[i] != "" && s == SnippetOf(regions[i], picks[i]);
      assert texts[i] == RegionText(SplitLines(text), regions[i]);
      SnippetStands(text, regions, regions[i], picks[i]);
    }
  }

  lemma WholePrefix(pick: string, text: string)
    requires pick <= text && |pick| >= |text|
    ensures pick == text
  {
  }

  lemma {:induction false} UncutShowsAll(text: string, regions: seq<Region>, limits: Limits, snippets: seq<Snippet>, picks: seq<string>)
    requires AllValid(regions) && |picks| == |regions| && Shows(snippets, regions, picks)
    requires Picked(RegionTexts(SplitLines(text), regions), limits, picks)
    requires forall i :: 0 <= i < |picks| ==> |picks[i]| >= |RegionTexts(SplitLines(text), regions)[i]|
    ensures forall r | r in regions && r.startLine <= |SplitLines(text)| :: ShownWhole(text, r, snippets)
  {
    var texts := RegionTexts(SplitLines(text), regions);
    SnippetsComeFrom(snippets, regions, picks);
    forall r | r in regions && r.startLine <= |SplitLines(text)| ensures ShownWhole(text, r, snippets) {
      var i :| 0 <= i < |regions| && regions[i] == r;
      assert texts[i] == RegionText(SplitLines(text), r);
      WholePrefix(picks[i], texts[i]);
      RegionTextIsThere(text, r);
      SnippetStands(text, regions, r, picks[i]);
      assert SnippetOf(r, picks[i]) in snippets;
    }
  }

  /** A region verdict means that the right lines are shown. */
  lemma {:induction false} VerdictShowsLines(text: string, regions: seq<Region>, limits: Limits, load: Load, picks: seq<string>)
    requires Separated(regions) && load.Selected?
    requires RegionVerdict(RegionTexts(SplitLines(text), regions), regions, limits, load, picks)
    ensures ShowsLines(text, regions, load.file)
  {
    SnippetsStand(text, regions, limits, load.file.snippets, picks);
    SnippetsAreInOrder(load.file.snippets, regions, picks);
    if !load.file.truncated { UncutShowsAll(text, regions, limits, load.file.snippets, picks); }
  }

  /** `_load_region_candidate`; separated regions never show more than the file holds. */
  method LoadRegionCandidate(candidate: Candidate, source: Source, limits: Limits) returns (load: Load, picks: seq<string>)
    requires source.Loaded? && source.text == Normalized(source.raw)
    requires Separated(candidate.regions) && limits.Chars() > 0 && limits.tokens > 0
    ensures RegionVerdict(RegionTexts(SplitLines(source.text), candidate.regions), candidate.regions, limits, load, picks)
    ensures load.Selected? ==> SoundSelection(load, candidate.path, source, limits)
    ensures load.Selected? ==> ShowsLines(source.text, candidate.regions, load.file)
    ensures load.Omitted? ==> SoundOmission(load, candidate.path)
  {
    RegionsFitInSource(source.text, candidate.regions);
    load, picks := LoadRegions(candidate.path, RegionTexts(SplitLines(source.text), candidate.regions), candidate.regions, source, limits);
    if load.Selected? { VerdictShowsLines(source.text, candidate.regions, limits, load, picks); }
  }

  /** The truncations of a file cut to a prefix; the token test looks at the raw bytes. */
  function PrefixTruncations(path: string, source: Source, selected: string, limits: Limits): seq<Truncation>
    requires source.Loaded? && selected <= source.text
  {
    if |selected| >= |source.text| then [] else
      var omitted := |source.text| - |selected|;
      (if limits.perFile < |source.text| then [Truncation(PerFileCharLimit, Some(path), omitted, 0)] else []) +
      (if limits.total < |source.text| then [Truncation(TotalCharLimit, Some(path), omitted, 0)] else []) +
      (if limits.tokens < ContextWindowUnits(source.raw) then [Truncation(TokenBudget, Some(path), omitted, 0)] else [])
  }

  /** A cut prefix records exactly the limits that are too small, with what was left out. */
  lemma PrefixReasonsAreExact(path: string, source: Source, selected: string, limits: Limits, t: Truncation)
    requires source.Loaded? && selected <= source.text
    ensures t in PrefixTruncations(path, source, selected, limits) <==>
            && |selected| < |source.text| && t == Truncation(t.reason, Some(path), |source.text| - |selected|, 0)
            && ( || (t.reason == PerFileCharLimit && |source.text| > limits.perFile)
                 || (t.reason == TotalCharLimit && |source.text| > limits.total)
                 || (t.reason == TokenBudget && ContextWindowUnits(source.raw) > limits.tokens))
    ensures |PrefixTruncations(path, source, selected, limits)| <= 3
  {
  }

  /** What a loaded prefix says about its file: the longest prefix, the flag and the reasons. */
  ghost predicate PrefixVerdict(path: string, source: Source, selected: string, limits: Limits, load: Load)
    requires source.Loaded?
  {
    && LongestWithin(source.text, selected, limits.Chars(), limits.tokens)
    && match load
       case Selected(file, truncations) =>
         && |file.snippets| == 1 && file.snippets[0].content == selected && file.snippets[0].startLine == 1
         && Stands(source.text, selected, 1, file.snippets[0].endLine)
         && file.snippets[0].billable == BillableTokenEstimate(selected)
         && (file.truncated <==> |selected| < |source.text|)
         && truncations == PrefixTruncations(path, source, selected, limits)
       case Omitted(t) =>
         && t.reason == TokenBudget && t.omittedChars == |source.text| && selected == "" && source.text != ""
         && limits.tokens < ContextWindowUnits(source.text)
  }

  /** `_load_prefix_candidate`. */
  method LoadPrefixCandidate(candidate: Candidate, source: Source, limits: Limits) returns (load: Load, selected: string)
    requires source.Loaded? && source.text == Normalized(source.raw)
    requires limits.Chars() > 0 && limits.tokens > 0
    ensures PrefixVerdict(candidate.path, source, selected, limits, load)
    ensures load.Selected? ==> SoundSelection(load, candidate.path, source, limits)
    ensures load.Omitted? ==> SoundOmission(load, candidate.path)
  {
    var prefix := FitPrefix(source.text, limits.Chars(), limits.tokens);
    selected := prefix;
    if source.text != "" && prefix == "" {
      NothingFitsAtAll(source.text, limits);
      load := Omitted(Truncation(TokenBudget, Some(candidate.path), |source.text|, 1));
      return;
    }
    var lineCount := if |SplitLines(prefix)| < 1 then 1 else |SplitLines(prefix)|;
    var snippet := Snippet(1, lineCount, prefix, |prefix|, ContextWindowUnits(prefix), BillableTokenEstimate(prefix));
    load := Selected(
      ContextFile(candidate.path, |source.text|, ContextWindowUnits(source.raw), [snippet], |prefix|,
                  ContextWindowUnits(prefix), snippet.billable, |prefix| < |source.text|),
      PrefixTruncations(candidate.path, source, prefix, limits));
    OneSnippetCounts(snippet);
    PrefixIsCheaper(source, prefix);
    PrefixFits(candidate.path, source, prefix, limits);
    PrefixStands(source.text, prefix, lineCount);
  }

  lemma NothingFitsAtAll(text: string, limits: Limits)
    requires text != "" && limits.Chars() > 0 && LongestWithin(text, "", limits.Chars(), limits.tokens)
    ensures limits.tokens < ContextWindowUnits(text)
  {
    NothingFits(text, "", limits.Chars(), limits.tokens);
    UnitsOfPrefix(text, 1, |text|);
    assert text[..|text|] == text;
  }

  lemma PrefixFits(path: string, source: Source, prefix: string, limits: Limits)
    requires source.Loaded? && source.text == Normalized(source.raw) && limits.Chars() > 0 && limits.tokens > 0
    requires LongestWithin(source.text, prefix, limits.Chars(), limits.tokens)
    ensures |prefix| <= limits.Chars() && ContextWindowUnits(prefix) <= limits.tokens
    ensures |prefix| < |source.text| <==> PrefixTruncations(path, source, prefix, limits) != []
    ensures forall t | t in PrefixTruncations(path, source, prefix, limits) :: t.path == Some(path) && t.omittedFiles == 0
  {
    assert source.text[..|prefix|] == prefix;
    NormalizedIsNoLarger(source.raw);
    CutMeansLimited(source.text, prefix, limits.Chars(), limits.tokens);
  }

  lemma OneSnippetCounts(snippet: Snippet)
    ensures SumOf(CharCounts([snippet])) == snippet.charCount && SumOf(TokenCounts([snippet])) == snippet.estimatedTokens
    ensures SumOf(BillableCounts([snippet])) == snippet.billable
  {
    CountsOfAppend([], snippet);
    assert [] + [snippet] == [snippet];
    assert CharCounts([]) == [] && TokenCounts([]) == [] && BillableCounts([]) == [];
  }

  lemma PrefixIsCheaper(source: Source, prefix: string)
    requires source.Loaded? && source.text == Normalized(source.raw) && prefix <= source.text
    ensures |prefix| <= |source.text| && ContextWindowUnits(prefix) <= ContextWindowUnits(source.raw)
  {
    NormalizedIsNoLarger(source.raw);
    UnitsOfPrefix(source.text, |prefix|, |source.text|);
    assert source.text[..|prefix|] == prefix && source.text[..|source.text|] == source.text;
  }

  lemma {:induction false} PrefixStands(text: string, prefix: string, lineCount: nat)
    requires prefix <= text && lineCount == if |SplitLines(prefix)| < 1 then 1 else |SplitLines(prefix)|
    ensures Stands(text, prefix, 1, lineCount)
  {
    assert "" + prefix == prefix;
    assert StandsBehind(text, "", prefix, 1, lineCount);
  }

  /** A recorded token reason is true of the text except in the band that CR LF line ends open up. */
  lemma TokenReasonIsExact(path: string, source: Source, selected: string, limits: Limits)
    requires source.Loaded? && source.text == Normalized(source.raw) && selected <= source.text && |selected| < |source.text|
    ensures var recorded := exists t :: t in PrefixTruncations(path, source, selected, limits) && t.reason == TokenBudget;
            (recorded && !limits.Names(TokenBudget, source.text)) <==>
            ContextWindowUnits(source.text) <= limits.tokens < ContextWindowUnits(source.raw)
    ensures forall t :: t in PrefixTruncations(path, source, selected, limits) && t.reason != TokenBudget ==>
              limits.Names(t.reason, source.text)
  {
    if limits.tokens < ContextWindowUnits(source.raw) {
      var t := Truncation(TokenBudget, Some(path), |source.text| - |selected|, 0);
      assert t in PrefixTruncations(path, source, selected, limits);
    }
  }

  function Lines(n: nat): string {
    if n == 0 then "" else "\r\n" + Lines(n - 1)
  }

  lemma {:induction false} LinesShrink(n: nat)
    ensures |Normalized(Lines(n))| == n == ContextWindowUnits(Normalized(Lines(n))) && ContextWindowUnits(Lines(n)) == 2 * n
  {
    if n > 0 {
      LinesShrink(n - 1);
      assert Lines(n)[2..] == Lines(n - 1);
      UnitsOfConcat("\n", Normalized(Lines(n - 1)));
      UnitsOfConcat("\r\n", Lines(n - 1));
      assert "\n"[1..] == "" && "\r\n"[1..] == "\n";
    }
  }

  /** CR LF files cut by the character limit are also blamed on a token budget that would hold all of their text. */
  lemma {:induction false} TokenReasonCanBeFalse(n: nat, selected: string, limits: Limits)
    requires n > 100 && limits.perFile == 100 && limits.total >= 100 && n <= limits.tokens < 2 * n
    requires LongestWithin(Normalized(Lines(n)), selected, limits.Chars(), limits.tokens)
    ensures var source := Loaded(Lines(n), Normalized(Lines(n)));
            && Truncation(TokenBudget, Some("a.py"), n - |selected|, 0) in PrefixTruncations("a.py", source, selected, limits)
            && ContextWindowUnits(source.text) <= limits.tokens
  {
    LinesShrink(n);
  }

  /** What one candidate becomes under the limits left for it. */
  ghost predicate LoadVerdict(budget: Budget, worktree: Worktree, candidate: Candidate, limits: Limits, load: Load)
    requires AllValid(candidate.regions)
  {
    match ReadSource(budget, worktree, candidate.path)
    case Failure(reason) => load == Omitted(Truncation(reason, Some(candidate.path), 0, 1))
    case Loaded(raw, text) =>
      && (load.Selected? ==> SoundSelection(load, candidate.path, Loaded(raw, text), limits))
      && (load.Omitted? ==> SoundOmission(load, candidate.path))
      && if candidate.regions != []
         then (load.Selected? ==> ShowsLines(text, candidate.regions, load.file)) && exists picks ::
                RegionVerdict(RegionTexts(SplitLines(text), candidate.regions), candidate.regions, limits, load, picks)
         else exists selected :: PrefixVerdict(candidate.path, Loaded(raw, text), selected, limits, load)
  }

  /** `_load_candidate`. */
  method LoadCandidate(budget: Budget, worktree: Worktree, candidate: Candidate, remainingChars: int, remainingTokens: int)
    returns (load: Load)
    requires budget.Valid() && Separated(candidate.regions) && remainingChars > 0 && remainingTokens > 0
    ensures LoadVerdict(budget, worktree, candidate, Limits(budget.maxCharsPerFile, remainingChars, remainingTokens), load)
  {
    var source := ReadSource(budget, worktree, candidate.path);
    if source.Failure? {
      return Omitted(Truncation(source.reason, Some(candidate.path), 0, 1));
    }
    var limits := Limits(budget.maxCharsPerFile, remainingChars, remainingTokens);
    if candidate.regions != [] {
      ghost var picks;
      load, picks := LoadRegionCandidate(candidate, source, limits);
    } else {
      ghost var selected;
      load, selected := LoadPrefixCandidate(candidate, source, limits);
    }
  }

  // ----- the whole packet

  /** `_can_reuse_candidate`. */
  predicate CanReuse(budget: Budget, worktree: Worktree, resume: Option<Resume>, changed: set<string>, path: string) {
    resume.Some? &&
    (path in resume.value.changedFiles ||
     (path !in changed && path in resume.value.readFiles &&
      var source := ReadSource(budget, worktree, path);
      source.Loaded? && source.raw == resume.value.readFiles[path]))
  }

  /** Reused is what the checkpoint itself changed, and what was only read and still reads the same. */
  lemma ReusedIff(budget: Budget, worktree: Worktree, resume: Resume, changed: set<string>, path: string)
    ensures CanReuse(budget, worktree, Some(resume), changed, path) <==>
            || path in resume.changedFiles
            || (&& path !in changed && path in resume.readFiles && path in worktree
                && worktree[path] == Decoded(resume.readFiles[path])
                && ContextWindowUnits(resume.readFiles[path]) <= budget.maxSourceFileBytes)
    ensures !CanReuse(budget, worktree, None, changed, path)
  {
    SourceIsLoadedIff(budget, worktree, path);
  }

  ghost predicate DistinctPaths(candidates: seq<Candidate>) {
    forall i, j :: 0 <= i < j < |candidates| ==> candidates[i].path != candidates[j].path
  }

  /** What `build` selects from, as it stands when the main loop starts. */
  datatype Inventory = Inventory(worktree: Worktree, candidates: seq<Candidate>, resume: Option<Resume>, changed: set<string>) {
    ghost predicate Valid() {
      DistinctPaths(candidates) && forall c | c in candidates :: Separated(c.regions)
    }

    ghost predicate Reusable(budget: Budget, k: nat)
      requires k < |candidates|
    {
      CanReuse(budget, worktree, resume, changed, candidates[k].path)
    }
  }

  /** What became of a candidate that the main loop reached. */
  datatype Fate = Reused | Tried(load: Load)

  function Shown(fate: Fate): seq<ContextFile> {
    if fate.Tried? && fate.load.Selected? then [fate.load.file] else []
  }

  function FilesOf(fates: seq<Fate>): seq<ContextFile> {
    if fates == [] then [] else FilesOf(fates[..|fates| - 1]) + Shown(fates[|fates| - 1])
  }

  function Recorded(fate: Fate): seq<Truncation> {
    match fate
    case Reused => []
    case Tried(Selected(_, truncations)) => truncations
    case Tried(Omitted(t)) => [t]
  }

  function TruncationsOf(fates: seq<Fate>): seq<Truncation> {
    if fates == [] then [] else TruncationsOf(fates[..|fates| - 1]) + Recorded(fates[|fates| - 1])
  }

  /** What the files selected so far leave of the budgets. */
  function LimitsAfter(budget: Budget, files: seq<ContextFile>): Limits {
    Limits(budget.maxCharsPerFile, budget.maxTotalChars - SumOf(FileChars(files)), budget.maxEstimatedTokens - SumOf(FileTokens(files)))
  }

  /** The fate of candidate `k` behind the selected `files`: reused, or loaded within what they left. */
  ghost predicate Deserves(budget: Budget, inventory: Inventory, k: nat, files: seq<ContextFile>, fate: Fate)
    requires inventory.Valid() && k < |inventory.candidates|
  {
    && |files| < budget.maxFiles
    && (fate.Reused? <==> inventory.Reusable(budget, k))
    && (fate.Tried? ==>
          var limits, candidate := LimitsAfter(budget, files), inventory.candidates[k];
          limits.total > 0 && limits.tokens > 0 && assert candidate in inventory.candidates;
          LoadVerdict(budget, inventory.worktree, candidate, limits, fate.load))
  }

  ghost predicate DeservesAt(budget: Budget, inventory: Inventory, fates: seq<Fate>, k: nat)
    requires inventory.Valid() && k < |fates| <= |inventory.candidates|
  {
    Deserves(budget, inventory, k, FilesOf(fates[..k]), fates[k])
  }

  ghost predicate AllDeserved(budget: Budget, inventory: Inventory, fates: seq<Fate>)
    requires inventory.Valid()
  {
    && |fates| <= |inventory.candidates|
    && forall k: nat :: k < |fates| ==> DeservesAt(budget, inventory, fates, k)
  }

  /** The budget that `reason` names has been used up by the files. */
  ghost predicate UsedUp(budget: Budget, files: seq<ContextFile>, reason: Reason) {
    match reason
    case FileCountLimit => |files| == budget.maxFiles
    case TotalCharLimit => |files| < budget.maxFiles && SumOf(FileChars(files)) == budget.maxTotalChars
    case TokenBudget =>
      && |files| < budget.maxFiles && SumOf(FileChars(files)) < budget.maxTotalChars
      && SumOf(FileTokens(files)) == budget.maxEstimatedTokens
    case _ => false
  }

  // ----- the fates add up

  lemma {:induction false} FilesGrow(fates: seq<Fate>, fate: Fate)
    ensures FilesOf(fates + [fate]) == FilesOf(fates) + Shown(fate)
    ensures TruncationsOf(fates + [fate]) == TruncationsOf(fates) + Recorded(fate)
  {
    assert (fates + [fate])[..|fates|] == fates;
  }

  lemma DeservedAt(budget: Budget, inventory: Inventory, fates: seq<Fate>, k: nat)
    requires inventory.Valid() && AllDeserved(budget, inventory, fates) && k < |fates|
    ensures Deserves(budget, inventory, k, FilesOf(fates[..k]), fates[k])
    ensures fates[k].Reused? <==> inventory.Reusable(budget, k)
  {
    assert DeservesAt(budget, inventory, fates, k);
  }

  lemma FrontOfLonger(fates: seq<Fate>, fate: Fate, k: nat)
    requires k <= |fates|
    ensures (fates + [fate])[..k] == fates[..k]
    ensures (fates + [fate])[..|fates|] == fates
  {
  }

  lemma {:induction false} GrownDeserves(budget: Budget, inventory: Inventory, fates: seq<Fate>, fate: Fate, k: nat)
    requires inventory.Valid() && AllDeserved(budget, inventory, fates) && k <= |fates| < |inventory.candidates|
    requires Deserves(budget, inventory, |fates|, FilesOf(fates), fate)
    ensures DeservesAt(budget, inventory, fates + [fate], k)
  {
    FrontOfLonger(fates, fate, k);
    if k < |fates| { DeservedAt(budget, inventory, fates, k); }
  }

  lemma {:induction false} FatesGrow(budget: Budget, inventory: Inventory, fates: seq<Fate>, fate: Fate)
    requires inventory.Valid() && AllDeserved(budget, inventory, fates) && |fates| < |inventory.candidates|
    requires Deserves(budget, inventory, |fates|, FilesOf(fates), fate)
    ensures AllDeserved(budget, inventory, fates + [fate])
  {
    forall k: nat | k < |fates + [fate]| ensures DeservesAt(budget, inventory, fates + [fate], k) {
      GrownDeserves(budget, inventory, fates, fate, k);
    }
  }

  lemma LimitsGrow(budget: Budget, files: seq<ContextFile>, file: ContextFile)
    ensures LimitsAfter(budget, files + [file]) ==
            Limits(budget.maxCharsPerFile, LimitsAfter(budget, files).total - file.selectedChars,
                   LimitsAfter(budget, files).tokens - file.estimatedTokens)
  {
    FilesOfAppend(files, file);
  }

  lemma FrontIsDeserved(budget: Budget, inventory: Inventory, fates: seq<Fate>, n: nat)
    requires inventory.Valid() && AllDeserved(budget, inventory, fates) && n <= |fates|
    ensures AllDeserved(budget, inventory, fates[..n])
  {
    forall k: nat | k < n ensures DeservesAt(budget, inventory, fates[..n], k) {
      assert DeservesAt(budget, inventory, fates, k);
      assert fates[..n][..k] == fates[..k];
    }
  }

  /** The candidates before `n` that a checkpoint already covers. */
  ghost function ReusableBefore(budget: Budget, inventory: Inventory, n: nat): set<nat>
    requires n <= |inventory.candidates|
  {
    set k: nat | k < n && inventory.Reusable(budget, k)
  }

  lemma ReusableGrow(budget: Budget, inventory: Inventory, n: nat)
    requires n < |inventory.candidates|
    ensures |ReusableBefore(budget, inventory, n + 1)| ==
            |ReusableBefore(budget, inventory, n)| + if inventory.Reusable(budget, n) then 1 else 0
  {
    var before := ReusableBefore(budget, inventory, n);
    assert ReusableBefore(budget, inventory, n + 1) == if inventory.Reusable(budget, n) then before + {n} else before;
  }

  /** The accounting after `k` candidates. */
  ghost predicate Accounted(budget: Budget, candidates: seq<Candidate>, k: nat, files: seq<ContextFile>, truncations: seq<Truncation>,
                            reused: nat)
  {
    && k <= |candidates|
    && SumOf(OmittedFiles(truncations)) + reused + |files| == k
    && |files| <= budget.maxFiles
    && SumOf(FileChars(files)) <= budget.maxTotalChars && SumOf(FileTokens(files)) <= budget.maxEstimatedTokens
    && (forall f | f in files :: f.Valid() && f.selectedChars <= budget.maxCharsPerFile)
    && (forall f | f in files :: exists j :: 0 <= j < k && candidates[j].path == f.path)
    && (forall i, j :: 0 <= i < j < |files| ==> files[i].path != files[j].path)
    && (forall t | t in truncations :: t.path.Some?)
  }

  lemma SelectKeepsAccounts(budget: Budget, candidates: seq<Candidate>, k: nat, files: seq<ContextFile>, truncations: seq<Truncation>,
                            reused: nat, load: Load, source: Source)
    requires Accounted(budget, candidates, k, files, truncations, reused)
    requires k < |candidates| && DistinctPaths(candidates) && |files| < budget.maxFiles
    requires SoundSelection(load, candidates[k].path, source, LimitsAfter(budget, files))
    ensures Accounted(budget, candidates, k + 1, files + [load.file], truncations + load.truncations, reused)
  {
    FilesOfAppend(files, load.file);
    OmittedOfConcat(truncations, load.truncations);
    NothingOmitted(load.truncations);
    forall f | f in files + [load.file] ensures exists j :: 0 <= j < k + 1 && candidates[j].path == f.path {
      if f in files {
        var j :| 0 <= j < k && candidates[j].path == f.path;
      } else {
        assert candidates[k].path == f.path;
      }
    }
    forall i | 0 <= i < |files| ensures files[i].path != load.file.path {
      assert files[i] in files;
      var j :| 0 <= j < k && candidates[j].path == files[i].path;
    }
  }

  lemma OmitKeepsAccounts(budget: Budget, candidates: seq<Candidate>, k: nat, files: seq<ContextFile>, truncations: seq<Truncation>,
                          reused: nat, t: Truncation)
    requires Accounted(budget, candidates, k, files, truncations, reused)
    requires k < |candidates| && t.omittedFiles == 1 && t.path.Some?
    ensures Accounted(budget, candidates, k + 1, files, truncations + [t], reused)
  {
    assert OmittedFiles(truncations + [t]) == OmittedFiles(truncations) + [t.omittedFiles];
    forall f | f in files ensures exists j :: 0 <= j < k + 1 && candidates[j].path == f.path {
      var j :| 0 <= j < k && candidates[j].path == f.path;
    }
  }

  lemma ReuseKeepsAccounts(budget: Budget, candidates: seq<Candidate>, k: nat, files: seq<ContextFile>, truncations: seq<Truncation>,
                           reused: nat)
    requires Accounted(budget, candidates, k, files, truncations, reused) && k < |candidates|
    ensures Accounted(budget, candidates, k + 1, files, truncations, reused + 1)
  {
    forall f | f in files ensures exists j :: 0 <= j < k + 1 && candidates[j].path == f.path {
      var j :| 0 <= j < k && candidates[j].path == f.path;
    }
  }

  lemma FateKeepsAccounts(budget: Budget, inventory: Inventory, k: nat, files: seq<ContextFile>, truncations: seq<Truncation>,
                          reused: nat, fate: Fate)
    requires inventory.Valid() && Accounted(budget, inventory.candidates, k, files, truncations, reused)
    requires k < |inventory.candidates| && Deserves(budget, inventory, k, files, fate)
    ensures Accounted(budget, inventory.candidates, k + 1, files + Shown(fate), truncations + Recorded(fate),
                      reused + if fate.Reused? then 1 else 0)
  {
    var candidates := inventory.candidates;
    match fate
    case Reused =>
      ReuseKeepsAccounts(budget, candidates, k, files, truncations, reused);
      assert files + Shown(fate) == files && truncations + Recorded(fate) == truncations;
    case Tried(Omitted(t)) =>
      OmitKeepsAccounts(budget, candidates, k, files, truncations, reused, t);
      assert files + Shown(fate) == files;
    case Tried(Selected(_, _)) =>
      SelectKeepsAccounts(budget, candidates, k, files, truncations, reused, fate.load,
                          ReadSource(budget, inventory.worktree, candidates[k].path));
  }

  /** Whatever the candidates met, each is counted once and no budget is overdrawn. */
  lemma {:induction false} FatesAddUp(budget: Budget, inventory: Inventory, fates: seq<Fate>)
    requires inventory.Valid() && AllDeserved(budget, inventory, fates)
    ensures Accounted(budget, inventory.candidates, |fates|, FilesOf(fates), TruncationsOf(fates),
                      |ReusableBefore(budget, inventory, |fates|)|)
  {
    if fates == [] {
      assert FileChars([]) == [] && FileTokens([]) == [] && OmittedFiles([]) == [];
      assert ReusableBefore(budget, inventory, 0) == {};
    } else {
      var n := |fates| - 1;
      FrontIsDeserved(budget, inventory, fates, n);
      FatesAddUp(budget, inventory, fates[..n]);
      ReusableGrow(budget, inventory, n);
      DeservedAt(budget, inventory, fates, n);
      FateKeepsAccounts(budget, inventory, n, FilesOf(fates[..n]), TruncationsOf(fates[..n]),
                        |ReusableBefore(budget, inventory, n)|, fates[n]);
    }
  }

  // ----- the main loop

  /** The variables of the main loop, told by the fates of the candidates it has passed. */
  ghost predicate Progress(budget: Budget, inventory: Inventory, fates: seq<Fate>, files: seq<ContextFile>, truncations: seq<Truncation>,
                           reused: int)
  {
    && inventory.Valid() && AllDeserved(budget, inventory, fates)
    && files == FilesOf(fates) && truncations == TruncationsOf(fates)
    && reused == |ReusableBefore(budget, inventory, |fates|)|
  }

  lemma FateKeepsProgress(budget: Budget, inventory: Inventory, fates: seq<Fate>, files: seq<ContextFile>, truncations: seq<Truncation>,
                          reused: int, fate: Fate)
    requires Progress(budget, inventory, fates, files, truncations, reused) && |fates| < |inventory.candidates|
    requires Deserves(budget, inventory, |fates|, files, fate)
    ensures Progress(budget, inventory, fates + [fate], files + Shown(fate), truncations + Recorded(fate),
                     reused + if fate.Reused? then 1 else 0)
  {
    FatesGrow(budget, inventory, fates, fate);
    FilesGrow(fates, fate);
    ReusableGrow(budget, inventory, |fates|);
  }

  lemma ReuseKeepsProgress(budget: Budget, inventory: Inventory, fates: seq<Fate>, files: seq<ContextFile>, truncations: seq<Truncation>,
                           reused: int)
    requires Progress(budget, inventory, fates, files, truncations, reused)
    requires |fates| < |inventory.candidates| && |files| < budget.maxFiles && inventory.Reusable(budget, |fates|)
    ensures Progress(budget, inventory, fates + [Reused], files, truncations, reused + 1)
  {
    FateKeepsProgress(budget, inventory, fates, files, truncations, reused, Reused);
    assert files + Shown(Reused) == files && truncations + Recorded(Reused) == truncations;
  }

  lemma LoadKeepsProgress(budget: Budget, inventory: Inventory, fates: seq<Fate>, files: seq<ContextFile>, truncations: seq<Truncation>,
                          reused: int, load: Load)
    requires Progress(budget, inventory, fates, files, truncations, reused) && |fates| < |inventory.candidates|
    requires Deserves(budget, inventory, |fates|, files, Tried(load))
    ensures load.Omitted? ==>
              Progress(budget, inventory, fates + [Tried(load)], files, truncations + [load.truncation], reused)
    ensures load.Selected? ==>
              Progress(budget, inventory, fates + [Tried(load)], files + [load.file], truncations + load.truncations, reused)
  {
    FateKeepsProgress(budget, inventory, fates, files, truncations, reused, Tried(load));
    assert load.Omitted? ==> files + Shown(Tried(load)) == files;
  }

  /** Every candidate met its fate; where the loop stopped early, the one reason recorded last is true of the files. */
  ghost predicate Selection(budget: Budget, inventory: Inventory, fates: seq<Fate>, files: seq<ContextFile>, truncations: seq<Truncation>,
                            reused: int)
  {
    && |fates| <= |inventory.candidates|
    && var rest := |inventory.candidates| - |fates|;
       if rest == 0 then Progress(budget, inventory, fates, files, truncations, reused)
       else
         && truncations != [] && Progress(budget, inventory, fates, files, truncations[..|truncations| - 1], reused)
         && StopsFor(budget, inventory, |fates|, files, truncations[|truncations| - 1])
  }

  ghost predicate IsSelection(budget: Budget, inventory: Inventory, files: seq<ContextFile>, truncations: seq<Truncation>, reused: int)
  {
    exists fates :: Selection(budget, inventory, fates, files, truncations, reused)
  }

  /** The remaining candidates are dropped for a used-up budget; only the file count is looked at before reuse. */
  ghost predicate StopsFor(budget: Budget, inventory: Inventory, k: nat, files: seq<ContextFile>, t: Truncation)
    requires k < |inventory.candidates|
  {
    && t == Truncation(t.reason, None, 0, |inventory.candidates| - k)
    && UsedUp(budget, files, t.reason)
    && (t.reason == FileCountLimit || !inventory.Reusable(budget, k))
  }

  lemma StopSelects(budget: Budget, inventory: Inventory, fates: seq<Fate>, files: seq<ContextFile>, truncations: seq<Truncation>,
                    reused: int, t: Truncation)
    requires Progress(budget, inventory, fates, files, truncations, reused) && |fates| < |inventory.candidates|
    requires StopsFor(budget, inventory, |fates|, files, t)
    ensures IsSelection(budget, inventory, files, truncations + [t], reused)
  {
    assert (truncations + [t])[..|truncations|] == truncations;
    assert Selection(budget, inventory, fates, files, truncations + [t], reused);
  }

  lemma StopsHere(budget: Budget, inventory: Inventory, fates: seq<Fate>, files: seq<ContextFile>, truncations: seq<Truncation>,
                  reused: int, reason: Reason, remaining: nat)
    requires Progress(budget, inventory, fates, files, truncations, reused)
    requires remaining == |inventory.candidates| - |fates| > 0
    requires match reason
             case FileCountLimit => |files| >= budget.maxFiles
             case TotalCharLimit =>
               |files| < budget.maxFiles && !inventory.Reusable(budget, |fates|) && LimitsAfter(budget, files).total <= 0
             case TokenBudget =>
               && |files| < budget.maxFiles && !inventory.Reusable(budget, |fates|)
               && LimitsAfter(budget, files).total > 0 >= LimitsAfter(budget, files).tokens
             case _ => false
    ensures IsSelection(budget, inventory, files, truncations + [Truncation(reason, None, 0, remaining)], reused)
  {
    FatesAddUp(budget, inventory, fates);
    StopSelects(budget, inventory, fates, files, truncations, reused, Truncation(reason, None, 0, remaining));
  }

  lemma EndsHere(budget: Budget, inventory: Inventory, fates: seq<Fate>, files: seq<ContextFile>, truncations: seq<Truncation>,
                 reused: int)
    requires Progress(budget, inventory, fates, files, truncations, reused) && |fates| == |inventory.candidates|
    ensures IsSelection(budget, inventory, files, truncations, reused)
  {
    assert Selection(budget, inventory, fates, files, truncations, reused);
  }

  lemma StartsHere(budget: Budget, inventory: Inventory)
    requires inventory.Valid()
    ensures Progress(budget, inventory, [], [], [], 0)
    ensures LimitsAfter(budget, []) == Limits(budget.maxCharsPerFile, budget.maxTotalChars, budget.maxEstimatedTokens)
  {
    assert FileChars([]) == [] && FileTokens([]) == [] && ReusableBefore(budget, inventory, 0) == {};
  }

  method SelectFiles(budget: Budget, worktree: Worktree, candidates: seq<Candidate>, resume: Option<Resume>, changed: set<string>)
    returns (files: seq<ContextFile>, truncations: seq<Truncation>, omitted: int, reused: int)
    requires budget.Valid() && DistinctPaths(candidates)
    requires forall c | c in candidates :: Separated(c.regions)
    ensures IsSelection(budget, Inventory(worktree, candidates, resume, changed), files, truncations, reused)
    ensures omitted + reused + |files| == |candidates|
  {
    files, truncations, omitted, reused := [], [], 0, 0;
    var remainingChars: int, remainingTokens: int := budget.maxTotalChars, budget.maxEstimatedTokens;
    ghost var inventory, fates: seq<Fate> := Inventory(worktree, candidates, resume, changed), [];
    StartsHere(budget, inventory);
    for k := 0 to |candidates|
      invariant |fates| == k && Progress(budget, inventory, fates, files, truncations, reused) && omitted == k - reused - |files|
      invariant LimitsAfter(budget, files) == Limits(budget.maxCharsPerFile, remainingChars, remainingTokens)
    {
      var candidate := candidates[k];
      assert candidate in candidates;
      var remaining := |candidates| - k;
      if |files| >= budget.maxFiles {
        StopsHere(budget, inventory, fates, files, truncations, reused, FileCountLimit, remaining);
        omitted, truncations := omitted + remaining, truncations + [Truncation(FileCountLimit, None, 0, remaining)];
        return;
      }
      if CanReuse(budget, worktree, resume, changed, candidate.path) {
        ReuseKeepsProgress(budget, inventory, fates, files, truncations, reused);
        reused, fates := reused + 1, fates + [Reused];
        continue;
      }
      if remainingChars <= 0 {
        StopsHere(budget, inventory, fates, files, truncations, reused, TotalCharLimit, remaining);
        omitted, truncations := omitted + remaining, truncations + [Truncation(TotalCharLimit, None, 0, remaining)];
        return;
      }
      if remainingTokens <= 0 {
        StopsHere(budget, inventory, fates, files, truncations, reused, TokenBudget, remaining);
        omitted, truncations := omitted + remaining, truncations + [Truncation(TokenBudget, None, 0, remaining)];
        return;
      }
      var load := LoadCandidate(budget, worktree, candidate, remainingChars, remainingTokens);
      LoadKeepsProgress(budget, inventory, fates, files, truncations, reused, load);
      fates := fates + [Tried(load)];
      match load
      case Omitted(t) =>
        omitted, truncations := omitted + 1, truncations + [t];
      case Selected(file, fileTruncations) =>
        LimitsGrow(budget, files, file);
        files, truncations := files + [file], truncations + fileTruncations;
        remainingChars, remainingTokens := remainingChars - file.selectedChars, remainingTokens - file.estimatedTokens;
    }
    EndsHere(budget, inventory, fates, files, truncations, reused);
  }

  // ----- what a packet says

  /** File `i` is what candidate `k` showed of its source under what the files before it had left, with its reasons recorded. */
  ghost predicate ShowsCandidate(budget: Budget, inventory: Inventory, files: seq<ContextFile>, truncations: seq<Truncation>,
                                 i: nat, k: nat)
    requires inventory.Valid() && i < |files|
  {
    && k < |inventory.candidates| && !inventory.Reusable(budget, k)
    && exists own: seq<Truncation> ::
         && (forall t | t in own :: t in truncations)
         && assert inventory.candidates[k] in inventory.candidates;
            LoadVerdict(budget, inventory.worktree, inventory.candidates[k], LimitsAfter(budget, files[..i]), Selected(files[i], own))
  }

  /** `t` is why candidate `k` shows nothing: unreadable, or a token budget too small for any of it. */
  ghost predicate ExcusesCandidate(budget: Budget, inventory: Inventory, files: seq<ContextFile>, t: Truncation, k: nat)
    requires inventory.Valid()
  {
    && k < |inventory.candidates| && !inventory.Reusable(budget, k)
    && exists i: nat ::
         && i <= |files|
         && assert inventory.candidates[k] in inventory.candidates;
            LoadVerdict(budget, inventory.worktree, inventory.candidates[k], LimitsAfter(budget, files[..i]), Omitted(t))
  }

  lemma {:induction false} FilesOfFront(fates: seq<Fate>, k: nat)
    requires k <= |fates|
    ensures FilesOf(fates[..k]) <= FilesOf(fates)
  {
    if k < |fates| {
      FilesOfFront(fates[..|fates| - 1], k);
      assert fates[..|fates| - 1][..k] == fates[..k];
    } else {
      assert fates[..k] == fates;
    }
  }

  lemma {:induction false} FilesComeFrom(fates: seq<Fate>, i: nat) returns (k: nat)
    requires i < |FilesOf(fates)|
    ensures k < |fates| && fates[k].Tried? && fates[k].load.Selected? && fates[k].load.file == FilesOf(fates)[i]
    ensures FilesOf(fates[..k]) == FilesOf(fates)[..i]
    ensures forall t | t in fates[k].load.truncations :: t in TruncationsOf(fates)
  {
    var n := |fates| - 1;
    if i < |FilesOf(fates[..n])| {
      k := FilesComeFrom(fates[..n], i);
      assert fates[..n][..k] == fates[..k];
    } else {
      k := n;
    }
  }

  lemma {:induction false} TruncationsComeFrom(fates: seq<Fate>, t: Truncation) returns (k: nat)
    requires t in TruncationsOf(fates)
    ensures k < |fates| && fates[k].Tried? && t in Recorded(fates[k])
    ensures FilesOf(fates[..k]) <= FilesOf(fates)
  {
    var n := |fates| - 1;
    if t in TruncationsOf(fates[..n]) {
      k := TruncationsComeFrom(fates[..n], t);
      assert fates[..n][..k] == fates[..k];
    } else {
      k := n;
    }
  }

  ghost predicate ShowsSome(budget: Budget, inventory: Inventory, files: seq<ContextFile>, truncations: seq<Truncation>, i: nat)
    requires inventory.Valid() && i < |files|
  {
    exists k: nat :: ShowsCandidate(budget, inventory, files, truncations, i, k)
  }

  ghost predicate ExcusesSome(budget: Budget, inventory: Inventory, files: seq<ContextFile>, t: Truncation)
    requires inventory.Valid()
  {
    exists k: nat :: ExcusesCandidate(budget, inventory, files, t, k)
  }

  lemma FilesShowCandidates(budget: Budget, inventory: Inventory, fates: seq<Fate>, files: seq<ContextFile>, truncations: seq<Truncation>,
                            reused: int, i: nat)
    requires Progress(budget, inventory, fates, files, truncations, reused) && i < |files|
    ensures ShowsSome(budget, inventory, files, truncations, i)
  {
    var k := FilesComeFrom(fates, i);
    DeservedAt(budget, inventory, fates, k);
    assert fates[k].load == Selected(files[i], fates[k].load.truncations);
    assert ShowsCandidate(budget, inventory, files, truncations, i, k);
  }

  lemma OmissionsAreExcused(budget: Budget, inventory: Inventory, fates: seq<Fate>, files: seq<ContextFile>, truncations: seq<Truncation>,
                            reused: int, t: Truncation)
    requires Progress(budget, inventory, fates, files, truncations, reused) && t in truncations
    ensures t.path.Some?
    ensures t.omittedFiles > 0 ==> ExcusesSome(budget, inventory, files, t)
  {
    var k := TruncationsComeFrom(fates, t);
    DeservedAt(budget, inventory, fates, k);
    if t.omittedFiles > 0 {
      var before := FilesOf(fates[..k]);
      assert files[..|before|] == before;
      assert fates[k].load == Omitted(t);
      assert ExcusesCandidate(budget, inventory, files, t, k);
    }
  }

  /** Every file shows its source, every omission has a reason, and what stops the selection is a used-up budget. */
  ghost predicate Explained(budget: Budget, inventory: Inventory, files: seq<ContextFile>, truncations: seq<Truncation>)
    requires inventory.Valid()
  {
    && (forall i: nat :: i < |files| ==> ShowsSome(budget, inventory, files, truncations, i))
    && (forall t | t in truncations ::
          if t.path.None? then UsedUp(budget, files, t.reason)
          else t.omittedFiles > 0 ==> ExcusesSome(budget, inventory, files, t))
  }

  lemma ProgressIsExplained(budget: Budget, inventory: Inventory, fates: seq<Fate>, files: seq<ContextFile>, truncations: seq<Truncation>,
                            reused: int)
    requires Progress(budget, inventory, fates, files, truncations, reused)
    ensures Explained(budget, inventory, files, truncations)
  {
    forall i: nat | i < |files| ensures ShowsSome(budget, inventory, files, truncations, i) {
      FilesShowCandidates(budget, inventory, fates, files, truncations, reused, i);
    }
    forall t | t in truncations ensures t.path.Some? && (t.omittedFiles > 0 ==> ExcusesSome(budget, inventory, files, t)) {
      OmissionsAreExcused(budget, inventory, fates, files, truncations, reused, t);
    }
  }

  lemma StopIsExplained(budget: Budget, inventory: Inventory, files: seq<ContextFile>, truncations: seq<Truncation>, t: Truncation)
    requires inventory.Valid() && Explained(budget, inventory, files, truncations)
    requires t.path.None? && UsedUp(budget, files, t.reason)
    ensures Explained(budget, inventory, files, truncations + [t])
  {
    forall i: nat | i < |files| ensures ShowsSome(budget, inventory, files, truncations + [t], i) {
      assert ShowsSome(budget, inventory, files, truncations, i);
      var k: nat :| ShowsCandidate(budget, inventory, files, truncations, i, k);
      assert ShowsCandidate(budget, inventory, files, truncations + [t], i, k);
    }
  }

  lemma OmittedAreNonNegative(truncations: seq<Truncation>)
    ensures SumOf(OmittedFiles(truncations)) >= 0
  {
    SumOfNonNegative(OmittedFiles(truncations));
  }

  lemma LastTruncation(truncations: seq<Truncation>)
    requires truncations != []
    ensures var n := |truncations| - 1;
            && truncations == truncations[..n] + [truncations[n]]
            && SumOf(OmittedFiles(truncations)) == SumOf(OmittedFiles(truncations[..n])) + truncations[n].omittedFiles
  {
    var n := |truncations| - 1;
    assert OmittedFiles(truncations)[..n] == OmittedFiles(truncations[..n]);
  }

  /** A packet accounts for every candidate, and everything it says is true. */
  lemma SelectionIsExplained(budget: Budget, inventory: Inventory, fates: seq<Fate>, files: seq<ContextFile>, truncations: seq<Truncation>,
                             reused: int)
    requires Selection(budget, inventory, fates, files, truncations, reused)
    ensures inventory.Valid() && Explained(budget, inventory, files, truncations)
    ensures SumOf(OmittedFiles(truncations)) + reused + |files| == |inventory.candidates|
    ensures SumOf(OmittedFiles(truncations)) >= 0 && reused >= 0
  {
    var rest := |inventory.candidates| - |fates|;
    var own := if rest == 0 then truncations else truncations[..|truncations| - 1];
    OmittedAreNonNegative(truncations);
    FatesAddUp(budget, inventory, fates);
    ProgressIsExplained(budget, inventory, fates, files, own, reused);
    if rest > 0 {
      var t := truncations[|truncations| - 1];
      LastTruncation(truncations);
      StopIsExplained(budget, inventory, files, own, t);
    }
  }

  lemma SelectionFits(budget: Budget, inventory: Inventory, fates: seq<Fate>, files: seq<ContextFile>, truncations: seq<Truncation>,
                      reused: int)
    requires Selection(budget, inventory, fates, files, truncations, reused)
    ensures |files| <= budget.maxFiles
    ensures SumOf(FileChars(files)) <= budget.maxTotalChars && SumOf(FileTokens(files)) <= budget.maxEstimatedTokens
    ensures forall f | f in files :: f.Valid() && f.selectedChars <= budget.maxCharsPerFile
    ensures forall i, j :: 0 <= i < j < |files| ==> files[i].path != files[j].path
  {
    FatesAddUp(budget, inventory, fates);
  }

  /** One character more of the text would exceed one of the limits. */
  ghost predicate IsFull(text: string, shown: string, limits: Limits) {
    && shown < text
    && var more := text[..|shown| + 1];
       |more| > limits.perFile || |more| > limits.total || ContextWindowUnits(more) > limits.tokens
  }

  lemma CutPrefixIsFull(budget: Budget, worktree: Worktree, candidate: Candidate, limits: Limits, load: Load)
    requires candidate.regions == [] && load.Selected? && load.file.truncated && LoadVerdict(budget, worktree, candidate, limits, load)
    ensures var source := ReadSource(budget, worktree, candidate.path);
            source.Loaded? && |load.file.snippets| == 1 && IsFull(source.text, load.file.snippets[0].content, limits)
  {
    var source := ReadSource(budget, worktree, candidate.path);
    var selected :| PrefixVerdict(candidate.path, source, selected, limits, load);
    assert !Fits(source.text, |selected| + 1, limits.Chars(), limits.tokens);
  }

  /** A whole file is cut only where one character more would exceed the file's, the packet's or the token budget. */
  lemma CutFilesAreFull(budget: Budget, inventory: Inventory, files: seq<ContextFile>, truncations: seq<Truncation>, i: nat, k: nat)
    requires inventory.Valid() && i < |files| && ShowsCandidate(budget, inventory, files, truncations, i, k)
    requires inventory.candidates[k].regions == [] && files[i].truncated
    ensures var source := ReadSource(budget, inventory.worktree, inventory.candidates[k].path);
            && source.Loaded? && |files[i].snippets| == 1
            && IsFull(source.text, files[i].snippets[0].content,
                      Limits(budget.maxCharsPerFile, budget.maxTotalChars - SumOf(FileChars(files[..i])),
                             budget.maxEstimatedTokens - SumOf(FileTokens(files[..i]))))
  {
    assert inventory.candidates[k] in inventory.candidates;
    var limits := LimitsAfter(budget, files[..i]);
    var own: seq<Truncation> :| LoadVerdict(budget, inventory.worktree, inventory.candidates[k], limits, Selected(files[i], own));
    CutPrefixIsFull(budget, inventory.worktree, inventory.candidates[k], limits, Selected(files[i], own));
  }

  /** While nothing is shown the loop does not stop, and a whole file that can be read is shown: every budget holds a character. */
  lemma ReadableMeansShown(budget: Budget, inventory: Inventory, files: seq<ContextFile>, truncations: seq<Truncation>,
                           reused: int, k: nat)
    requires budget.Valid() && inventory.Valid() && IsSelection(budget, inventory, files, truncations, reused)
    requires k < |inventory.candidates| && !inventory.Reusable(budget, k) && inventory.candidates[k].regions == []
    requires ReadSource(budget, inventory.worktree, inventory.candidates[k].path).Loaded?
    ensures files != []
  {
    if files == [] {
      var fates: seq<Fate> :| Selection(budget, inventory, fates, files, truncations, reused);
      assert FileChars([]) == [] && FileTokens([]) == [];
      assert |fates| == |inventory.candidates|;
      DeservedAt(budget, inventory, fates, k);
      FilesOfFront(fates, k);
      WholeFileIsShown(budget, inventory, k, fates[k].load);
      ShownIsKept(fates, k);
    }
  }

  lemma {:induction false} ShownIsKept(fates: seq<Fate>, k: nat)
    requires k < |fates| && Shown(fates[k]) != []
    ensures FilesOf(fates) != []
  {
    if k < |fates| - 1 { ShownIsKept(fates[..|fates| - 1], k); }
  }

  lemma WholeFileIsShown(budget: Budget, inventory: Inventory, k: nat, load: Load)
    requires budget.Valid() && inventory.Valid() && k < |inventory.candidates| && inventory.candidates[k].regions == []
    requires ReadSource(budget, inventory.worktree, inventory.candidates[k].path).Loaded?
    requires LoadVerdict(budget, inventory.worktree, inventory.candidates[k], LimitsAfter(budget, []), load)
    ensures load.Selected?
  {
    assert FileChars([]) == [] && FileTokens([]) == [];
    var source, limits := ReadSource(budget, inventory.worktree, inventory.candidates[k].path), LimitsAfter(budget, []);
    var selected :| PrefixVerdict(inventory.candidates[k].path, source, selected, limits, load);
    if load.Omitted? {
      NothingFits(source.text, selected, limits.Chars(), limits.tokens);
      CharsAtMostUnits(source.text[..1]);
    }
  }

  /** What a packet shows of a file are lines of that file, where it says they are. */
  ghost predicate ShowsItsFile(worktree: Worktree, f: ContextFile) {
    && f.path in worktree && worktree[f.path].Decoded?
    && forall s | s in f.snippets :: Stands(Normalized(worktree[f.path].text), s.content, s.startLine, s.endLine)
  }

  lemma LoadShowsItsFile(budget: Budget, worktree: Worktree, candidate: Candidate, limits: Limits, load: Load)
    requires AllValid(candidate.regions) && load.Selected? && LoadVerdict(budget, worktree, candidate, limits, load)
    ensures load.file.path == candidate.path && ShowsItsFile(worktree, load.file)
  {
    var source := ReadSource(budget, worktree, candidate.path);
    if candidate.regions == [] {
      var selected :| PrefixVerdict(candidate.path, source, selected, limits, load);
      assert load.file.snippets == [load.file.snippets[0]];
    }
  }

  lemma FilesShowTheirLines(budget: Budget, inventory: Inventory, files: seq<ContextFile>, truncations: seq<Truncation>)
    requires inventory.Valid() && Explained(budget, inventory, files, truncations)
    ensures forall f | f in files :: ShowsItsFile(inventory.worktree, f)
  {
    forall i: nat | i < |files| ensures ShowsItsFile(inventory.worktree, files[i]) {
      assert ShowsSome(budget, inventory, files, truncations, i);
      var k: nat :| ShowsCandidate(budget, inventory, files, truncations, i, k);
      assert inventory.candidates[k] in inventory.candidates;
      var own: seq<Truncation> :|
        LoadVerdict(budget, inventory.worktree, inventory.candidates[k], LimitsAfter(budget, files[..i]), Selected(files[i], own));
      LoadShowsItsFile(budget, inventory.worktree, inventory.candidates[k], LimitsAfter(budget, files[..i]), Selected(files[i], own));
    }
  }

  lemma {:induction false} FileSumsAreNonNegative(files: seq<ContextFile>)
    requires forall f | f in files :: f.Valid()
    ensures SumOf(FileChars(files)) >= 0 && SumOf(FileTokens(files)) >= 0 && SumOf(FileBillable(files)) >= 0
    ensures 0 <= SumOf(Truncated(files))
  {
    assert forall i :: 0 <= i < |files| ==> files[i] in files;
    SumOfNonNegative(FileChars(files));
    SumOfNonNegative(FileTokens(files));
    SumOfNonNegative(FileBillable(files));
    SumOfNonNegative(Truncated(files));
  }

  /** What the repository summary and `_resume_billable_tokens` add to the prompt. */
  function Overhead(repositorySummary: string, resume: Option<Resume>): nat {
    BillableTokenEstimate(repositorySummary) + match resume case None => 0 case Some(r) => BillableTokenEstimate(r.summary)
  }

  /** `build`: whatever the inventory, the packet passes every count and size validator, accounts for every candidate and is true. */
  method Build(budget: Budget, worktree: Worktree, candidates: seq<Candidate>, resume: Option<Resume>, changed: set<string>,
               repositorySummary: string)
    returns (packet: Packet)
    requires budget.Valid() && DistinctPaths(candidates)
    requires forall c | c in candidates :: Separated(c.regions)
    ensures packet.Valid() && packet.budget == budget
    ensures packet.usage.candidateFiles == |candidates| ==
            packet.usage.selectedFiles + packet.usage.omittedFiles + packet.usage.reusedFiles
    ensures SumOf(OmittedFiles(packet.truncations)) == packet.usage.omittedFiles
    ensures forall f | f in packet.files :: f.selectedChars <= budget.maxCharsPerFile
    ensures Explained(budget, Inventory(worktree, candidates, resume, changed), packet.files, packet.truncations)
    ensures forall f | f in packet.files :: ShowsItsFile(worktree, f)
    ensures packet.usage.billableContentTokens == SumOf(FileBillable(packet.files))
    ensures packet.usage.billablePromptTokens == packet.usage.billableContentTokens + Overhead(repositorySummary, resume)
    ensures packet.usage.contextWindowUnits == packet.usage.estimatedTokens
    ensures packet.usage.truncatedFiles == SumOf(Truncated(packet.files))
    ensures IsSelection(budget, Inventory(worktree, candidates, resume, changed), packet.files, packet.truncations,
                        packet.usage.reusedFiles)
  {
    var files, truncations, omitted, reused := SelectFiles(budget, worktree, candidates, resume, changed);
    ghost var inventory := Inventory(worktree, candidates, resume, changed);
    ghost var fates :| Selection(budget, inventory, fates, files, truncations, reused);
    SelectionIsExplained(budget, inventory, fates, files, truncations, reused);
    SelectionFits(budget, inventory, fates, files, truncations, reused);
    FilesShowTheirLines(budget, inventory, files, truncations);
    FileSumsAreNonNegative(files);
    var overhead := Overhead(repositorySummary, resume);
    var usage := Usage(
      |candidates|, |files|, SumOf(FileChars(files)), SumOf(FileTokens(files)), SumOf(Truncated(files)),
      omitted, reused, SumOf(Truncated(files)), SumOf(FileTokens(files)), SumOf(FileBillable(files)),
      SumOf(FileBillable(files)) + overhead);
    packet := Packet(files, truncations, budget, usage);
  }
}
