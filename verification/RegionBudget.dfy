/** How `backend/app/context/builder.py` shows a file by regions under three budgets at once. */
module RegionBudget {
  import opened Wrappers
  import opened Tokens
  import opened Prefixes
  import opened Relevance
  import opened SourceText
  import opened Packets

  // ----- a file shown by regions

  function CharsOf(picks: seq<string>): nat { |Concat(picks)| }
  function UnitsOf(picks: seq<string>): nat { ContextWindowUnits(Concat(picks)) }

  lemma {:induction false} PicksAppend(picks: seq<string>, s: string)
    ensures Concat(picks + [s]) == Concat(picks) + s
    ensures CharsOf(picks + [s]) == CharsOf(picks) + |s|
    ensures UnitsOf(picks + [s]) == UnitsOf(picks) + ContextWindowUnits(s)
  {
    ConcatOfConcat(picks, [s]);
    assert Concat([s]) == s by { assert [s][1..] == []; }
    UnitsOfConcat(Concat(picks), s);
  }

  /** `pick` is the longest prefix of `text` within the limits. */
  ghost predicate LongestWithin(text: string, pick: string, maxChars: int, maxUnits: int) {
    && pick <= text
    && (forall k :: 0 <= k <= |text| && Fits(text, k, maxChars, maxUnits) ==> k <= |pick|)
    && (maxChars >= 0 && maxUnits >= 0 ==> Fits(text, |pick|, maxChars, maxUnits))
  }

  datatype Limits = Limits(perFile: int, total: int, tokens: int) {
    function Chars(): int { if perFile < total then perFile else total }

    function After(picks: seq<string>): Limits {
      Limits(perFile - CharsOf(picks), total - CharsOf(picks), tokens - UnitsOf(picks))
    }

    /** The limit that a reason names is smaller than the text. */
    predicate Names(reason: Reason, text: string) {
      match reason
      case PerFileCharLimit => perFile < |text|
      case TotalCharLimit => total < |text|
      case TokenBudget => tokens < ContextWindowUnits(text)
      case _ => false
    }
  }

  /** Each region in turn shows the longest prefix that the budgets still allow. */
  ghost predicate Picked(texts: seq<string>, limits: Limits, picks: seq<string>) {
    && |picks| <= |texts|
    && forall i :: 0 <= i < |picks| ==>
         LongestWithin(texts[i], picks[i], limits.After(picks[..i]).Chars(), limits.After(picks[..i]).tokens)
  }

  /** Region `i` is cut, and the budget that `reason` names was smaller than its text at that point. */
  ghost predicate CutBy(texts: seq<string>, limits: Limits, picks: seq<string>, reason: Reason, i: nat) {
    i < |picks| <= |texts| && |picks[i]| < |texts[i]| && limits.After(picks[..i]).Names(reason, texts[i])
  }

  ghost predicate SomeCutBy(texts: seq<string>, limits: Limits, picks: seq<string>, reason: Reason) {
    exists i: nat :: CutBy(texts, limits, picks, reason, i)
  }

  type Omissions = map<Reason, nat>

  /** The reasons recorded are exactly those under which some region was cut. */
  ghost predicate Explains(texts: seq<string>, limits: Limits, picks: seq<string>, omissions: Omissions) {
    forall reason :: reason in omissions <==> SomeCutBy(texts, limits, picks, reason)
  }

  /** How many characters were left out of the regions that `reason` cut. */
  ghost function OmittedBy(texts: seq<string>, limits: Limits, picks: seq<string>, reason: Reason): nat {
    if picks == [] || |picks| > |texts| then 0 else
      var n := |picks| - 1;
      OmittedBy(texts, limits, picks[..n], reason) + if CutBy(texts, limits, picks, reason, n) then |texts[n]| - |picks[n]| else 0
  }

  /** What is recorded is that number. */
  ghost predicate Amounts(texts: seq<string>, limits: Limits, picks: seq<string>, omissions: Omissions) {
    forall reason :: OmittedBy(texts, limits, picks, reason) == if reason in omissions then omissions[reason] else 0
  }

  function RecordLimits(omissions: Omissions, limits: Limits, text: string, omitted: nat): Omissions {
    var a := if limits.perFile < |text| then Bump(omissions, PerFileCharLimit, omitted) else omissions;
    var b := if limits.total < |text| then Bump(a, TotalCharLimit, omitted) else a;
    if limits.tokens < ContextWindowUnits(text) then Bump(b, TokenBudget, omitted) else b
  }

  function Bump(omissions: Omissions, reason: Reason, n: nat): Omissions {
    omissions[reason := (if reason in omissions then omissions[reason] else 0) + n]
  }

  /** A cut region is always explained. */
  lemma CutIsExplained(text: string, pick: string, limits: Limits)
    requires LongestWithin(text, pick, limits.Chars(), limits.tokens) && |pick| < |text|
    ensures limits.Names(PerFileCharLimit, text) || limits.Names(TotalCharLimit, text) || limits.Names(TokenBudget, text)
  {
    CutMeansLimited(text, pick, limits.Chars(), limits.tokens);
  }

  lemma PickedExtends(texts: seq<string>, limits: Limits, picks: seq<string>, pick: string)
    requires |picks| < |texts| && Picked(texts, limits, picks)
    requires LongestWithin(texts[|picks|], pick, limits.After(picks).Chars(), limits.After(picks).tokens)
    ensures Picked(texts, limits, picks + [pick])
  {
    var picks' := picks + [pick];
    forall i | 0 <= i < |picks'|
      ensures LongestWithin(texts[i], picks'[i], limits.After(picks'[..i]).Chars(), limits.After(picks'[..i]).tokens)
    {
      assert picks'[..i] == picks[..i];
      if i == |picks| { assert picks[..i] == picks; }
    }
  }

  lemma CutByExtends(texts: seq<string>, limits: Limits, picks: seq<string>, pick: string, reason: Reason, i: nat)
    requires |picks| < |texts|
    ensures i < |picks| ==> (CutBy(texts, limits, picks + [pick], reason, i) <==> CutBy(texts, limits, picks, reason, i))
    ensures i == |picks| ==>
              (CutBy(texts, limits, picks + [pick], reason, i) <==>
               |pick| < |texts[i]| && limits.After(picks).Names(reason, texts[i]))
  {
    if i <= |picks| {
      assert (picks + [pick])[..i] == picks[..i];
      if i == |picks| { assert picks[..i] == picks; }
    }
  }

  lemma ExplainsExtends(texts: seq<string>, limits: Limits, picks: seq<string>, pick: string, omissions: Omissions, omissions': Omissions)
    requires |picks| < |texts| && Explains(texts, limits, picks, omissions)
    requires forall reason :: reason in omissions' <==>
               reason in omissions || (|pick| < |texts[|picks|]| && limits.After(picks).Names(reason, texts[|picks|]))
    ensures Explains(texts, limits, picks + [pick], omissions')
  {
    var n, picks' := |picks|, picks + [pick];
    forall reason ensures reason in omissions' <==> SomeCutBy(texts, limits, picks', reason) {
      CutByExtends(texts, limits, picks, pick, reason, n);
      if reason in omissions {
        var i: nat :| CutBy(texts, limits, picks, reason, i);
        CutByExtends(texts, limits, picks, pick, reason, i);
        assert CutBy(texts, limits, picks', reason, i);
      } else if reason in omissions' {
        assert CutBy(texts, limits, picks', reason, n);
      }
      if i: nat :| CutBy(texts, limits, picks', reason, i) {
        CutByExtends(texts, limits, picks, pick, reason, i);
        assert i < n ==> CutBy(texts, limits, picks, reason, i);
      }
    }
  }

  lemma AmountsExtend(texts: seq<string>, limits: Limits, picks: seq<string>, pick: string, omissions: Omissions, omissions': Omissions)
    requires |picks| < |texts| && Amounts(texts, limits, picks, omissions) && |pick| <= |texts[|picks|]|
    requires omissions' == if |pick| < |texts[|picks|]|
                           then RecordLimits(omissions, limits.After(picks), texts[|picks|], |texts[|picks|]| - |pick|) else omissions
    ensures Amounts(texts, limits, picks + [pick], omissions')
  {
    var n := |picks|;
    forall reason
      ensures OmittedBy(texts, limits, picks + [pick], reason) == if reason in omissions' then omissions'[reason] else 0
    {
      assert (picks + [pick])[..n] == picks;
      CutByExtends(texts, limits, picks, pick, reason, n);
      assert OmittedBy(texts, limits, picks, reason) == if reason in omissions then omissions[reason] else 0;
    }
  }

  /** A cut is forced: one character more would exceed what the earlier picks leave of some budget. */
  lemma {:induction false} CutsAreForced(texts: seq<string>, limits: Limits, picks: seq<string>, i: nat)
    requires Picked(texts, limits, picks) && i < |picks| && |picks[i]| < |texts[i]|
    ensures var more := texts[i][..|picks[i]| + 1];
            || |Concat(picks[..i])| + |more| > limits.perFile || |Concat(picks[..i])| + |more| > limits.total
            || ContextWindowUnits(Concat(picks[..i])) + ContextWindowUnits(more) > limits.tokens
  {
    var left := limits.After(picks[..i]);
    assert !Fits(texts[i], |picks[i]| + 1, left.Chars(), left.tokens);
  }

  lemma {:induction false} PicksStayWithin(texts: seq<string>, limits: Limits, picks: seq<string>)
    requires Picked(texts, limits, picks)
    requires limits.perFile >= 0 && limits.total >= 0 && limits.tokens >= 0
    ensures var left := limits.After(picks); left.perFile >= 0 && left.total >= 0 && left.tokens >= 0
    ensures |picks| <= |texts| && Cheaper(Concat(picks), Concat(texts[..|picks|]))
    decreases |picks|
  {
    if picks == [] {
      assert Concat(picks) == "";
      assert ContextWindowUnits("") == 0;
    } else {
      var n := |picks| - 1;
      var before, pick := picks[..n], picks[n];
      assert picks == before + [pick];
      assert Picked(texts, limits, before) by {
        forall i | 0 <= i < n
          ensures LongestWithin(texts[i], before[i], limits.After(before[..i]).Chars(), limits.After(before[..i]).tokens)
        {
          assert before[..i] == picks[..i];
        }
      }
      PicksStayWithin(texts, limits, before);
      assert picks[..n] == before;
      PicksAppend(before, pick);
      PicksAppend(texts[..n], texts[n]);
      assert texts[..|picks|] == texts[..n] + [texts[n]];
      assert Fits(texts[n], |pick|, limits.After(before).Chars(), limits.After(before).tokens);
      assert texts[n][..|pick|] == pick;
      assert Cheaper(pick, texts[n]) by {
        UnitsOfPrefix(texts[n], |pick|, |texts[n]|);
        assert texts[n][..|texts[n]|] == texts[n];
      }
      CheaperConcat(Concat(before), Concat(texts[..n]), pick, texts[n]);
    }
  }

  /** What the snippets add up to. */
  ghost predicate Tallies(snippets: seq<Snippet>, picks: seq<string>) {
    && (forall s | s in snippets :: s.Valid())
    && SumOf(CharCounts(snippets)) == CharsOf(picks)
    && SumOf(TokenCounts(snippets)) == UnitsOf(picks)
    && SumOf(BillableCounts(snippets)) >= 0
  }

  function SnippetOf(region: Region, selected: string): Snippet
    requires region.Valid()
  {
    var lineCount := if |SplitLines(selected)| < 1 then 1 else |SplitLines(selected)|;
    var last := region.startLine + lineCount - 1;
    Snippet(region.startLine, if region.endLine < last then region.endLine else last, selected, |selected|,
            ContextWindowUnits(selected), BillableTokenEstimate(selected))
  }

  lemma TallyStep(snippets: seq<Snippet>, picks: seq<string>, region: Region, pick: string)
    requires Tallies(snippets, picks) && region.Valid()
    ensures Tallies(snippets + [SnippetOf(region, pick)], picks + [pick])
    ensures pick == "" ==> Tallies(snippets, picks + [pick])
  {
    CountsOfAppend(snippets, SnippetOf(region, pick));
    PicksAppend(picks, pick);
    assert ContextWindowUnits("") == 0;
  }

  /** The nonempty picks, in order, each where its region starts. */
  ghost predicate Shows(snippets: seq<Snippet>, regions: seq<Region>, picks: seq<string>)
    requires AllValid(regions) && |picks| <= |regions|
  {
    if picks == [] then snippets == [] else
      var n := |picks| - 1;
      if picks[n] == "" then Shows(snippets, regions, picks[..n])
      else assert regions[n] in regions;
           snippets != [] && snippets[|snippets| - 1] == SnippetOf(regions[n], picks[n])
           && Shows(snippets[..|snippets| - 1], regions, picks[..n])
  }

  /** The snippets are those of the nonempty picks. */
  lemma {:induction false} SnippetsComeFrom(snippets: seq<Snippet>, regions: seq<Region>, picks: seq<string>)
    requires AllValid(regions) && |picks| <= |regions| && Shows(snippets, regions, picks)
    ensures forall i :: 0 <= i < |picks| ==> regions[i] in regions && (picks[i] != "" ==> SnippetOf(regions[i], picks[i]) in snippets)
    ensures forall s | s in snippets ::
              exists i :: 0 <= i < |picks| && regions[i] in regions && picks[i] != "" && s == SnippetOf(regions[i], picks[i])
  {
    if picks != [] {
      var n := |picks| - 1;
      assert regions[n] in regions;
      var front := if picks[n] == "" then snippets else snippets[..|snippets| - 1];
      SnippetsComeFrom(front, regions, picks[..n]);
      forall s | s in snippets
        ensures exists i :: 0 <= i < |picks| && regions[i] in regions && picks[i] != "" && s == SnippetOf(regions[i], picks[i])
      {
        if s in front {
          var i :| 0 <= i < n && regions[i] in regions && picks[..n][i] != "" && s == SnippetOf(regions[i], picks[..n][i]);
          assert picks[i] != "" && s == SnippetOf(regions[i], picks[i]);
        } else {
          assert s == SnippetOf(regions[n], picks[n]);
        }
      }
      forall i | 0 <= i < |picks| && picks[i] != "" ensures SnippetOf(regions[i], picks[i]) in snippets {
        if i < n { assert picks[..n][i] == picks[i]; }
      }
    }
  }

  /** The invariant of the region loop. */
  ghost predicate RegionLoop(texts: seq<string>, regions: seq<Region>, limits: Limits, snippets: seq<Snippet>,
                             omissions: Omissions, picks: seq<string>)
    requires AllValid(regions)
  {
    && |picks| <= |regions| == |texts|
    && Picked(texts, limits, picks) && Explains(texts, limits, picks, omissions) && Amounts(texts, limits, picks, omissions)
    && Tallies(snippets, picks) && Shows(snippets, regions, picks)
  }

  lemma RegionStep(texts: seq<string>, regions: seq<Region>, limits: Limits, snippets: seq<Snippet>, omissions: Omissions,
                   picks: seq<string>, pick: string, omissions': Omissions)
    requires AllValid(regions) && RegionLoop(texts, regions, limits, snippets, omissions, picks) && |picks| < |regions|
    requires LongestWithin(texts[|picks|], pick, limits.After(picks).Chars(), limits.After(picks).tokens)
    requires omissions' == if |pick| < |texts[|picks|]|
                           then RecordLimits(omissions, limits.After(picks), texts[|picks|], |texts[|picks|]| - |pick|) else omissions
    ensures regions[|picks|].Valid()
    ensures pick == "" ==> RegionLoop(texts, regions, limits, snippets, omissions', picks + [pick])
    ensures pick != "" ==>
              RegionLoop(texts, regions, limits, snippets + [SnippetOf(regions[|picks|], pick)], omissions', picks + [pick])
  {
    PickedExtends(texts, limits, picks, pick);
    forall reason ensures reason in omissions' <==>
                          reason in omissions || (|pick| < |texts[|picks|]| && limits.After(picks).Names(reason, texts[|picks|])) {}
    ExplainsExtends(texts, limits, picks, pick, omissions, omissions');
    AmountsExtend(texts, limits, picks, pick, omissions, omissions');
    TallyStep(snippets, picks, regions[|picks|], pick);
  }

  /** One region: cut it to what is left, and record why. */
  method PickRegion(text: string, left: Limits, omissions: Omissions) returns (selected: string, omissions': Omissions)
    ensures LongestWithin(text, selected, left.Chars(), left.tokens)
    ensures omissions' == if |selected| < |text| then RecordLimits(omissions, left, text, |text| - |selected|) else omissions
  {
    selected, omissions' := "", omissions;
    assert ContextWindowUnits("") == 0;
    assert text == "" ==> text[..0] == "";
    if text == "" { return; }
    selected := FitPrefix(text, left.Chars(), left.tokens);
    if |selected| < |text| {
      omissions' := RecordLimits(omissions, left, text, |text| - |selected|);
    }
  }

  /** One turn of the region loop. */
  method PickNext(region: Region, text: string, left: Limits, snippets: seq<Snippet>, omissions: Omissions,
                  ghost texts: seq<string>, ghost regions: seq<Region>, ghost limits: Limits, picks: seq<string>)
    returns (snippets': seq<Snippet>, omissions': Omissions, left': Limits, picks': seq<string>)
    requires AllValid(regions) && RegionLoop(texts, regions, limits, snippets, omissions, picks) && left == limits.After(picks)
    requires |picks| < |regions| && region == regions[|picks|] && region.Valid() && text == texts[|picks|]
    ensures RegionLoop(texts, regions, limits, snippets', omissions', picks') && left' == limits.After(picks')
    ensures |picks'| == |picks| + 1
  {
    var selected: string;
    selected, omissions' := PickRegion(text, left, omissions);
    RegionStep(texts, regions, limits, snippets, omissions, picks, selected, omissions');
    LimitsShrink(limits, picks, selected);
    snippets', left', picks' := snippets, left, picks + [selected];
    if selected != "" {
      snippets' := snippets + [SnippetOf(region, selected)];
      left' := Limits(left.perFile - |selected|, left.total - |selected|, left.tokens - ContextWindowUnits(selected));
    }
  }

  /** The region loop: every region gets the longest prefix the budgets leave, and every cut is recorded. */
  method PickRegions(texts: seq<string>, regions: seq<Region>, limits: Limits)
    returns (snippets: seq<Snippet>, omissions: Omissions, picks: seq<string>)
    requires AllValid(regions) && |texts| == |regions|
    ensures |picks| == |regions| && RegionLoop(texts, regions, limits, snippets, omissions, picks)
  {
    snippets, omissions, picks := [], map[], [];
    var left := limits;
    for i := 0 to |regions|
      invariant |picks| == i && left == limits.After(picks)
      invariant RegionLoop(texts, regions, limits, snippets, omissions, picks)
    {
      assert regions[i] in regions;
      snippets, omissions, left, picks :=
        PickNext(regions[i], texts[i], left, snippets, omissions, texts, regions, limits, picks);
    }
  }

  lemma LimitsShrink(limits: Limits, picks: seq<string>, pick: string)
    ensures var left := limits.After(picks);
            limits.After(picks + [pick]) == Limits(left.perFile - |pick|, left.total - |pick|, left.tokens - ContextWindowUnits(pick))
    ensures pick == "" ==> limits.After(picks + [pick]) == limits.After(picks)
  {
    PicksAppend(picks, pick);
    assert ContextWindowUnits("") == 0;
  }
}
