/** `backend/app/context/relevance.py`: which line ranges of an indexed file are worth showing. */
module Relevance {
  import opened Wrappers
  import opened Ids
  import opened Sorting

  datatype Symbol = Symbol(qualname: string, startLine: nat, endLine: nat, topLevel: bool, terms: set<string>) {
    /** Line numbers as a Python AST gives them. */
    predicate Valid() { 1 <= startLine <= endLine }
  }

  datatype RegionKind = ModulePreamble | SymbolRegion

  datatype Region = Region(startLine: nat, endLine: nat, kind: RegionKind, symbol: Option<string>, score: int, evidence: set<string>) {
    predicate Valid() { 1 <= startLine <= endLine }

    predicate Has(line: nat) { startLine <= line <= endLine }
  }

  datatype Index = Index(preambleEndLine: nat, symbols: seq<Symbol>)

  datatype Scored = Scored(score: int, symbol: Symbol, evidence: set<string>)

  predicate Overlap(a: Symbol, b: Symbol) {
    !(a.endLine < b.startLine || b.endLine < a.startLine)
  }

  /** Ranking key: higher score, then earlier start, then name. */
  predicate Ranks(a: Scored, b: Scored) {
    || a.score > b.score
    || (a.score == b.score && a.symbol.startLine < b.symbol.startLine)
    || (a.score == b.score && a.symbol.startLine == b.symbol.startLine &&
        (a.symbol.qualname == b.symbol.qualname || Less(a.symbol.qualname, b.symbol.qualname)))
  }

  lemma RanksIsTotal()
    ensures Total(Ranks) && Transitive(Ranks)
  {
    forall a, b ensures Ranks(a, b) || Ranks(b, a) { LessTrichotomy(a.symbol.qualname, b.symbol.qualname); }
    forall a, b, c | Ranks(a, b) && Ranks(b, c) ensures Ranks(a, c) {
      if Less(a.symbol.qualname, b.symbol.qualname) && Less(b.symbol.qualname, c.symbol.qualname) {
        LessTransitive(a.symbol.qualname, b.symbol.qualname, c.symbol.qualname);
      }
    }
  }

  function Score(s: Symbol, taskTerms: set<string>, importedTerms: set<string>): Scored {
    var relevance := |s.terms * taskTerms| * 240 + |s.terms * importedTerms| * 360;
    Scored(if relevance <= 0 then 0 else relevance + if s.topLevel then 20 else 0, s,
           (if s.terms * taskTerms != {} then {"task_terms"} else {}) +
           (if s.terms * importedTerms != {} then {"import_terms"} else {}))
  }

  /** Three task terms weigh as much as two import terms. */
  function Weight(s: Symbol, taskTerms: set<string>, importedTerms: set<string>): nat {
    2 * |s.terms * taskTerms| + 3 * |s.terms * importedTerms|
  }

  /** More weight always scores higher; between equal weights a top-level symbol does; only shared terms score at all. */
  lemma {:induction false} ScoreWeighsTerms(a: Symbol, b: Symbol, taskTerms: set<string>, importedTerms: set<string>)
    ensures var x, y := Score(a, taskTerms, importedTerms), Score(b, taskTerms, importedTerms);
            var v, w := Weight(a, taskTerms, importedTerms), Weight(b, taskTerms, importedTerms);
            && (v > w ==> x.score > y.score)
            && (v == w > 0 ==> (x.score > y.score <==> a.topLevel && !b.topLevel))
            && (x.score > 0 <==> a.terms * (taskTerms + importedTerms) != {})
            && ("task_terms" in x.evidence <==> a.terms * taskTerms != {})
            && ("import_terms" in x.evidence <==> a.terms * importedTerms != {})
            && x.evidence <= {"task_terms", "import_terms"}
  {
    assert a.terms * (taskTerms + importedTerms) == a.terms * taskTerms + a.terms * importedTerms;
    assert |a.terms * taskTerms| == 0 <==> a.terms * taskTerms == {};
    assert |a.terms * importedTerms| == 0 <==> a.terms * importedTerms == {};
  }

  /** Rank is decided by score, then by line, then by name, each only where those before it are equal. */
  lemma {:induction false} RankIsDecidedBy(a: Scored, b: Scored)
    ensures a.score > b.score ==> Ranks(a, b) && !Ranks(b, a)
    ensures a.score == b.score && a.symbol.startLine < b.symbol.startLine ==> Ranks(a, b) && !Ranks(b, a)
    ensures a.score == b.score && a.symbol.startLine == b.symbol.startLine && Less(a.symbol.qualname, b.symbol.qualname) ==>
              Ranks(a, b) && !Ranks(b, a)
  {
    LessTrichotomy(a.symbol.qualname, b.symbol.qualname);
  }

  predicate OnLine(s: Symbol, line: nat) { s.startLine <= line <= s.endLine }

  /** Symbols overlap when some line belongs to both. */
  lemma {:induction false} OverlapIff(a: Symbol, b: Symbol)
    requires a.Valid() && b.Valid()
    ensures Overlap(a, b) <==> exists line: nat :: OnLine(a, line) && OnLine(b, line)
  {
    var line := if a.startLine < b.startLine then b.startLine else a.startLine;
    if Overlap(a, b) { assert OnLine(a, line) && OnLine(b, line); }
  }

  /** The symbols sharing a term, scored, in file order. */
  function Matching(symbols: seq<Symbol>, taskTerms: set<string>, importedTerms: set<string>): seq<Scored> {
    if symbols == [] then []
    else
      var last := symbols[|symbols| - 1];
      Matching(symbols[..|symbols| - 1], taskTerms, importedTerms) +
      if last.terms * (taskTerms + importedTerms) != {} then [Score(last, taskTerms, importedTerms)] else []
  }

  /** The top-level symbols, all scored alike, in file order. */
  function Fallbacks(symbols: seq<Symbol>): seq<Scored> {
    if symbols == [] then []
    else
      var last := symbols[|symbols| - 1];
      Fallbacks(symbols[..|symbols| - 1]) +
      if last.topLevel then [Scored(40, last, {"writable_or_changed_top_level_fallback"})] else []
  }

  function FirstOf(xs: seq<Scored>, n: nat): seq<Scored> { if |xs| <= n then xs else xs[..n] }

  function ScoredSymbols(symbols: seq<Symbol>, worked: bool, taskTerms: set<string>, importedTerms: set<string>, cap: nat): seq<Scored> {
    var matching := Matching(symbols, taskTerms, importedTerms);
    if matching != [] || !worked then matching else FirstOf(Fallbacks(symbols), cap)
  }

  lemma {:induction false} MatchingHolds(symbols: seq<Symbol>, taskTerms: set<string>, importedTerms: set<string>)
    ensures forall x | x in Matching(symbols, taskTerms, importedTerms) ::
              x.symbol in symbols && x.symbol.terms * (taskTerms + importedTerms) != {}
    ensures forall s | s in symbols && s.terms * (taskTerms + importedTerms) != {} ::
              Score(s, taskTerms, importedTerms) in Matching(symbols, taskTerms, importedTerms)
  {
    if symbols != [] {
      MatchingHolds(symbols[..|symbols| - 1], taskTerms, importedTerms);
      assert symbols == symbols[..|symbols| - 1] + [symbols[|symbols| - 1]];
    }
  }

  lemma {:induction false} FallbacksHold(symbols: seq<Symbol>)
    ensures forall x | x in Fallbacks(symbols) :: x.symbol in symbols
  {
    if symbols != [] { FallbacksHold(symbols[..|symbols| - 1]); }
  }

  /** Both lists go through the file in order. */
  lemma {:induction false} FallbacksFollowTheFile(front: seq<Symbol>, s: Symbol, back: seq<Symbol>)
    ensures Fallbacks(front + [s] + back) ==
            Fallbacks(front) + (if s.topLevel then [Scored(40, s, {"writable_or_changed_top_level_fallback"})] else []) + Fallbacks(back)
    decreases |back|
  {
    var all := front + [s] + back;
    if back == [] {
      assert all[..|all| - 1] == front;
    } else {
      var n := |back| - 1;
      FallbacksFollowTheFile(front, s, back[..n]);
      assert all[..|all| - 1] == front + [s] + back[..n];
    }
  }

  lemma {:induction false} MatchingFollowsTheFile(front: seq<Symbol>, s: Symbol, back: seq<Symbol>, taskTerms: set<string>, importedTerms: set<string>)
    ensures Matching(front + [s] + back, taskTerms, importedTerms) ==
            Matching(front, taskTerms, importedTerms)
            + (if s.terms * taskTerms != {} || s.terms * importedTerms != {} then [Score(s, taskTerms, importedTerms)] else [])
            + Matching(back, taskTerms, importedTerms)
    decreases |back|
  {
    var all := front + [s] + back;
    if back == [] {
      assert all[..|all| - 1] == front;
      assert s.terms * (taskTerms + importedTerms) == s.terms * taskTerms + s.terms * importedTerms;
    } else {
      var n := |back| - 1;
      MatchingFollowsTheFile(front, s, back[..n], taskTerms, importedTerms);
      assert all[..|all| - 1] == front + [s] + back[..n] && all[|all| - 1] == back[n];
    }
  }

  /** The fallback is a front part of the top-level symbols, all of them up to the cap. */
  lemma {:induction false} FallbackIsFirst(symbols: seq<Symbol>, cap: nat)
    ensures FirstOf(Fallbacks(symbols), cap) <= Fallbacks(symbols)
    ensures |FirstOf(Fallbacks(symbols), cap)| <= cap
    ensures |FirstOf(Fallbacks(symbols), cap)| < cap ==> FirstOf(Fallbacks(symbols), cap) == Fallbacks(symbols)
  {
  }

  lemma {:induction false} FallbacksGrow(symbols: seq<Symbol>, i: nat)
    requires i <= |symbols|
    ensures Fallbacks(symbols[..i]) <= Fallbacks(symbols)
    decreases |symbols|
  {
    if i == |symbols| {
      assert symbols[..i] == symbols;
    } else {
      var front := symbols[..|symbols| - 1];
      assert front[..i] == symbols[..i];
      FallbacksGrow(front, i);
    }
  }

  /** The symbols with a positive score; failing that, the first `cap` top-level ones of a file being worked on. */
  method ScoreSymbols(index: Index, worked: bool, taskTerms: set<string>, importedTerms: set<string>, cap: nat)
    returns (scored: seq<Scored>)
    ensures scored == ScoredSymbols(index.symbols, worked, taskTerms, importedTerms, cap)
    ensures forall x :: x in scored ==> x.symbol in index.symbols
    ensures forall s :: s in index.symbols && s.terms * (taskTerms + importedTerms) != {} ==>
              Score(s, taskTerms, importedTerms) in scored
    ensures (exists x :: x in scored && x.symbol.terms * (taskTerms + importedTerms) == {}) ==> worked && |scored| <= cap
  {
    scored := [];
    for i := 0 to |index.symbols|
      invariant scored == Matching(index.symbols[..i], taskTerms, importedTerms)
    {
      var symbol := index.symbols[i];
      assert index.symbols[..i + 1][..i] == index.symbols[..i];
      assert symbol.terms * (taskTerms + importedTerms) == symbol.terms * taskTerms + symbol.terms * importedTerms;
      if |symbol.terms * taskTerms| * 240 + |symbol.terms * importedTerms| * 360 <= 0 {
        assert symbol.terms * taskTerms == {} && symbol.terms * importedTerms == {};
        continue;
      }
      assert symbol.terms * taskTerms != {} || symbol.terms * importedTerms != {};
      scored := scored + [Score(symbol, taskTerms, importedTerms)];
    }
    assert index.symbols[..|index.symbols|] == index.symbols;
    MatchingHolds(index.symbols, taskTerms, importedTerms);
    if scored == [] && worked { scored := FallbackSymbols(index.symbols, cap); }
  }

  /** The slice of the top-level symbols the fallback takes. */
  method FallbackSymbols(symbols: seq<Symbol>, cap: nat) returns (scored: seq<Scored>)
    ensures scored == FirstOf(Fallbacks(symbols), cap) && forall x :: x in scored ==> x.symbol in symbols
  {
    scored := [];
    var i := 0;
    while i < |symbols| && |scored| < cap
      invariant 0 <= i <= |symbols| && |scored| <= cap && scored == Fallbacks(symbols[..i])
    {
      assert symbols[..i + 1][..i] == symbols[..i];
      if symbols[i].topLevel {
        scored := scored + [Scored(40, symbols[i], {"writable_or_changed_top_level_fallback"})];
      }
      i := i + 1;
    }
    FallbacksGrow(symbols, i);
    FallbacksHold(symbols);
    assert symbols[..|symbols|] == symbols;
  }

  ghost predicate PairwiseDisjoint(chosen: seq<Scored>) {
    forall i, j :: 0 <= i < j < |chosen| ==> !Overlap(chosen[i].symbol, chosen[j].symbol)
  }

  /** Why `x` is not chosen: a better-ranked chosen symbol overlaps it, or the cap was full of better-ranked ones. */
  ghost predicate Excused(chosen: seq<Scored>, cap: nat, x: Scored) {
    || x in chosen
    || (exists c :: c in chosen && Overlap(c.symbol, x.symbol) && Ranks(c, x))
    || (|chosen| == cap && forall c :: c in chosen ==> Ranks(c, x))
  }

  lemma ChosenGrows(chosen: seq<Scored>, item: Scored, cap: nat, x: Scored)
    requires |chosen| < cap && Excused(chosen, cap, x)
    ensures Excused(chosen + [item], cap, x)
  {
    if c :| c in chosen && Overlap(c.symbol, x.symbol) && Ranks(c, x) {
      assert c in chosen + [item];
    }
  }

  lemma AllExcused(ranked: seq<Scored>, scored: seq<Scored>, chosen: seq<Scored>, cap: nat)
    requires forall x :: x in ranked <==> x in scored
    requires forall k :: 0 <= k < |ranked| ==> Excused(chosen, cap, ranked[k])
    ensures forall x :: x in scored ==> Excused(chosen, cap, x)
  {
    forall x | x in scored ensures Excused(chosen, cap, x) {
      assert x in ranked;
      var k :| 0 <= k < |ranked| && ranked[k] == x;
    }
  }

  /** The invariant of the greedy loop after the first `i` ranked symbols. */
  ghost predicate GreedyUpTo(ranked: seq<Scored>, i: nat, chosen: seq<Scored>, cap: nat)
    requires i <= |ranked|
  {
    && PairwiseDisjoint(chosen)
    && (forall c :: c in chosen ==> c in ranked[..i])
    && (forall k :: 0 <= k < i ==> Excused(chosen, cap, ranked[k]))
  }

  lemma GreedySkips(ranked: seq<Scored>, i: nat, chosen: seq<Scored>, cap: nat, h: nat)
    requires SortedBy(Ranks, ranked) && i < |ranked| && GreedyUpTo(ranked, i, chosen, cap)
    requires h < |chosen| && Overlap(ranked[i].symbol, chosen[h].symbol)
    ensures GreedyUpTo(ranked, i + 1, chosen, cap)
  {
    assert ranked[..i + 1] == ranked[..i] + [ranked[i]];
    assert chosen[h] in ranked[..i];
    var k :| 0 <= k < i && ranked[..i][k] == chosen[h];
    assert ranked[k] == chosen[h] && Ranks(ranked[k], ranked[i]);
    assert chosen[h] in chosen;
  }

  lemma GreedyTakes(ranked: seq<Scored>, i: nat, chosen: seq<Scored>, cap: nat)
    requires i < |ranked| && GreedyUpTo(ranked, i, chosen, cap) && |chosen| < cap
    requires forall h :: 0 <= h < |chosen| ==> !Overlap(ranked[i].symbol, chosen[h].symbol)
    ensures GreedyUpTo(ranked, i + 1, chosen + [ranked[i]], cap)
  {
    assert ranked[..i + 1] == ranked[..i] + [ranked[i]];
    forall k | 0 <= k < i ensures Excused(chosen + [ranked[i]], cap, ranked[k]) {
      ChosenGrows(chosen, ranked[i], cap, ranked[k]);
    }
    assert ranked[i] in chosen + [ranked[i]];
  }

  /** What is left out scores no higher than what is chosen in its place. */
  ghost predicate Outscored(chosen: seq<Scored>, cap: nat, x: Scored) {
    || (exists c :: c in chosen && Overlap(c.symbol, x.symbol) && c.score >= x.score)
    || (|chosen| == cap && forall c :: c in chosen ==> c.score >= x.score)
  }

  lemma ExcusedMeansOutscored(chosen: seq<Scored>, cap: nat, x: Scored)
    requires Excused(chosen, cap, x)
    ensures x in chosen || Outscored(chosen, cap, x)
  {
  }

  /** The greedy choice: best-ranked first, none overlapping, at most `cap`. */
  method ChooseSymbols(scored: seq<Scored>, cap: nat) returns (chosen: seq<Scored>)
    requires cap >= 1
    ensures |chosen| <= cap && PairwiseDisjoint(chosen)
    ensures forall c :: c in chosen ==> c in scored
    ensures forall x :: x in scored ==> Excused(chosen, cap, x) && (x in chosen || Outscored(chosen, cap, x))
  {
    forall cs: seq<Scored>, x | Excused(cs, cap, x) ensures x in cs || Outscored(cs, cap, x) { ExcusedMeansOutscored(cs, cap, x); }
    RanksIsTotal();
    SortedIsSorted(Ranks, scored);
    var ranked := Sorted(Ranks, scored);
    chosen := [];
    for i := 0 to |ranked|
      invariant |chosen| < cap && GreedyUpTo(ranked, i, chosen, cap)
    {
      if h :| 0 <= h < |chosen| && Overlap(ranked[i].symbol, chosen[h].symbol) {
        GreedySkips(ranked, i, chosen, cap, h);
        continue;
      }
      GreedyTakes(ranked, i, chosen, cap);
      chosen := chosen + [ranked[i]];
      if |chosen| >= cap {
        forall k | i < k < |ranked| ensures Excused(chosen, cap, ranked[k]) { }
        AllExcused(ranked, scored, chosen, cap);
        forall c | c in chosen ensures c in scored { assert c in ranked[..i + 1] && c in ranked; }
        return;
      }
    }
    assert ranked[..|ranked|] == ranked;
    AllExcused(ranked, scored, chosen, cap);
  }

  // ----- merging

  predicate Earlier(a: Region, b: Region) {
    a.startLine < b.startLine || (a.startLine == b.startLine && a.endLine <= b.endLine)
  }

  ghost predicate AllValid(regions: seq<Region>) {
    forall r :: r in regions ==> r.Valid()
  }

  /** Sorted, and at least one line apart. */
  ghost predicate Separated(regions: seq<Region>) {
    AllValid(regions) && forall i, j :: 0 <= i < j < |regions| ==> regions[i].endLine + 1 < regions[j].startLine
  }

  ghost predicate Covered(regions: seq<Region>, line: nat) {
    exists r :: r in regions && r.Has(line)
  }

  ghost predicate SameLines(a: seq<Region>, b: seq<Region>) {
    forall line: nat :: Covered(a, line) <==> Covered(b, line)
  }

  /** No region is lost or weakened: it lies inside one that scores at least as high. */
  ghost predicate Absorbs(merged: seq<Region>, r: Region) {
    exists m :: m in merged && m.startLine <= r.startLine && r.endLine <= m.endLine && r.score <= m.score && r.evidence <= m.evidence
  }

  /** Score, evidence and symbol of a merged region are those of inputs inside it. */
  ghost predicate DrawnFrom(m: Region, regions: seq<Region>) {
    && (exists r :: r in regions && Inside(r, m) && r.score == m.score)
    && (forall e :: e in m.evidence ==> exists r :: r in regions && Inside(r, m) && e in r.evidence)
    && (m.symbol.Some? ==> exists r :: r in regions && Inside(r, m) && r.symbol == m.symbol)
  }

  predicate Inside(r: Region, m: Region) { m.startLine <= r.startLine && r.endLine <= m.endLine }

  ghost predicate AllDrawn(merged: seq<Region>, regions: seq<Region>) {
    forall m :: m in merged ==> DrawnFrom(m, regions)
  }

  lemma DrawnFromMore(m: Region, regions: seq<Region>, more: seq<Region>)
    requires DrawnFrom(m, regions) && forall r :: r in regions ==> r in more
    ensures DrawnFrom(m, more)
  {
  }

  lemma FuseIsDrawn(m: Region, r: Region, regions: seq<Region>)
    requires DrawnFrom(m, regions) && r in regions && m.startLine <= r.startLine
    ensures DrawnFrom(Fuse(m, r), regions)
  {
    var f := Fuse(m, r);
    forall x | x in regions && Inside(x, m) ensures Inside(x, f) { }
    assert Inside(r, f);
  }

  lemma MergeOneIsDrawn(merged: seq<Region>, r: Region, seen: seq<Region>)
    requires merged != [] && AllDrawn(merged, seen) && merged[|merged| - 1].startLine <= r.startLine
    ensures AllDrawn(MergeOne(merged, r), seen + [r])
  {
    forall m | m in merged ensures DrawnFrom(m, seen + [r]) { DrawnFromMore(m, seen, seen + [r]); }
    FuseIsDrawn(merged[|merged| - 1], r, seen + [r]);
    assert Inside(r, r) && DrawnFrom(r, seen + [r]);
  }

  function Fuse(a: Region, b: Region): Region {
    Region(a.startLine, if a.endLine < b.endLine then b.endLine else a.endLine,
           if a.symbol.Some? || b.symbol.Some? then SymbolRegion else ModulePreamble,
           if a.symbol.Some? then a.symbol else b.symbol,
           if a.score < b.score then b.score else a.score, a.evidence + b.evidence)
  }

  lemma FuseHas(a: Region, b: Region, line: nat)
    requires a.Valid() && b.Valid() && a.startLine <= b.startLine <= a.endLine + 1
    ensures Fuse(a, b).Valid() && (Fuse(a, b).Has(line) <==> a.Has(line) || b.Has(line))
  {
  }

  /** One turn of the merge loop, on the last merged region and the next input. */
  function MergeOne(merged: seq<Region>, r: Region): seq<Region>
    requires merged != []
  {
    var n := |merged| - 1;
    if r.startLine > merged[n].endLine + 1 then merged + [r] else merged[..n] + [Fuse(merged[n], r)]
  }

  lemma MergeOneCovers(merged: seq<Region>, r: Region, line: nat)
    requires merged != [] && AllValid(merged) && r.Valid() && merged[|merged| - 1].startLine <= r.startLine
    ensures Covered(MergeOne(merged, r), line) <==> Covered(merged, line) || r.Has(line)
  {
    var n := |merged| - 1;
    assert merged == merged[..n] + [merged[n]];
    var next := MergeOne(merged, r);
    if r.startLine > merged[n].endLine + 1 {
      assert forall x :: x in next <==> x in merged || x == r;
    } else {
      assert merged[n] in merged;
      FuseHas(merged[n], r, line);
      assert forall x :: x in next <==> x in merged[..n] || x == Fuse(merged[n], r);
      assert forall x :: x in merged <==> x in merged[..n] || x == merged[n];
      assert Fuse(merged[n], r) in next;
    }
  }

  lemma MergeOneSeparates(merged: seq<Region>, r: Region)
    requires merged != [] && Separated(merged) && r.Valid() && merged[|merged| - 1].startLine <= r.startLine
    ensures Separated(MergeOne(merged, r)) && MergeOne(merged, r) != []
    ensures MergeOne(merged, r)[|MergeOne(merged, r)| - 1].startLine <= r.startLine
  {
    var n := |merged| - 1;
    assert merged[n] in merged;
    if r.startLine <= merged[n].endLine + 1 { FuseHas(merged[n], r, r.startLine); }
  }

  /** The invariant of the merge loop after the first `i` ordered regions. */
  ghost predicate MergedUpTo(ordered: seq<Region>, i: nat, merged: seq<Region>)
    requires i <= |ordered|
  {
    && merged != [] && Separated(merged)
    && (forall k :: i <= k < |ordered| ==> merged[|merged| - 1].startLine <= ordered[k].startLine)
    && SameLines(merged, ordered[..i])
    && (forall k :: 0 <= k < i ==> Absorbs(merged, ordered[k]))
  }

  lemma MergeStarts(ordered: seq<Region>)
    requires ordered != [] && SortedBy(Earlier, ordered) && AllValid(ordered)
    ensures MergedUpTo(ordered, 1, [ordered[0]])
  {
    assert ordered[..1] == [ordered[0]];
    assert ordered[0] in [ordered[0]] && ordered[0] in ordered;
    forall k | 1 <= k < |ordered| ensures ordered[0].startLine <= ordered[k].startLine {
      assert Earlier(ordered[0], ordered[k]);
    }
  }

  lemma MergeContinues(ordered: seq<Region>, i: nat, merged: seq<Region>)
    requires i < |ordered| && SortedBy(Earlier, ordered) && AllValid(ordered) && MergedUpTo(ordered, i, merged)
    ensures MergedUpTo(ordered, i + 1, MergeOne(merged, ordered[i]))
  {
    var region := ordered[i];
    assert region in ordered;
    var next := MergeOne(merged, region);
    MergeOneSeparates(merged, region);
    assert ordered[..i + 1] == ordered[..i] + [region];
    forall line: nat ensures Covered(next, line) <==> Covered(ordered[..i + 1], line) {
      MergeOneCovers(merged, region, line);
      assert Covered(merged, line) <==> Covered(ordered[..i], line);
      assert forall x :: x in ordered[..i + 1] <==> x in ordered[..i] || x == region;
    }
    forall k | 0 <= k < i + 1 ensures Absorbs(next, ordered[k]) { }
    forall k | i + 1 <= k < |ordered| ensures next[|next| - 1].startLine <= ordered[k].startLine {
      assert Earlier(ordered[i], ordered[k]);
    }
  }

  /** All that the merge loop keeps. */
  ghost predicate Merges(ordered: seq<Region>, i: nat, merged: seq<Region>)
    requires i <= |ordered|
  {
    MergedUpTo(ordered, i, merged) && AllDrawn(merged, ordered[..i])
  }

  lemma MergeBegins(ordered: seq<Region>)
    requires ordered != [] && SortedBy(Earlier, ordered) && AllValid(ordered)
    ensures Merges(ordered, 1, [ordered[0]])
  {
    MergeStarts(ordered);
    assert ordered[..1] == [ordered[0]];
    assert Inside(ordered[0], ordered[0]) && ordered[0] in [ordered[0]];
  }

  lemma MergeGoesOn(ordered: seq<Region>, i: nat, merged: seq<Region>)
    requires i < |ordered| && SortedBy(Earlier, ordered) && AllValid(ordered) && Merges(ordered, i, merged)
    ensures merged != [] && Merges(ordered, i + 1, MergeOne(merged, ordered[i]))
  {
    MergeContinues(ordered, i, merged);
    MergeOneIsDrawn(merged, ordered[i], ordered[..i]);
    FrontGrows(ordered, i);
  }

  lemma FrontGrows(ordered: seq<Region>, i: nat)
    requires i < |ordered|
    ensures ordered[..i + 1] == ordered[..i] + [ordered[i]]
  {
  }

  lemma Somewhere(ordered: seq<Region>, r: Region) returns (k: nat)
    requires r in ordered
    ensures k < |ordered| && ordered[k] == r
  {
    k :| k < |ordered| && ordered[k] == r;
  }

  lemma MergeEnds(ordered: seq<Region>, regions: seq<Region>, merged: seq<Region>)
    requires Merges(ordered, |ordered|, merged) && forall r :: r in ordered <==> r in regions
    ensures Separated(merged) && SameLines(merged, regions) && AllDrawn(merged, regions) && merged != []
    ensures forall r :: r in regions ==> Absorbs(merged, r)
  {
    assert ordered[..|ordered|] == ordered;
    forall line: nat ensures Covered(merged, line) <==> Covered(regions, line) {
      assert Covered(merged, line) <==> Covered(ordered, line);
    }
    forall m | m in merged ensures DrawnFrom(m, regions) { DrawnFromMore(m, ordered, regions); }
    forall r | r in regions ensures Absorbs(merged, r) {
      var k := Somewhere(ordered, r);
    }
  }

  method MergeAdjacentRegions(regions: seq<Region>) returns (merged: seq<Region>)
    requires AllValid(regions)
    ensures Separated(merged) && SameLines(merged, regions)
    ensures forall r :: r in regions ==> Absorbs(merged, r)
    ensures AllDrawn(merged, regions)
    ensures merged == [] <==> regions == []
  {
    if regions == [] { return []; }
    SortedIsSorted(Earlier, regions);
    var ordered := Sorted(Earlier, regions);
    MergeBegins(ordered);
    merged := [ordered[0]];
    for i := 1 to |ordered|
      invariant merged != [] && Merges(ordered, i, merged)
    {
      MergeGoesOn(ordered, i, merged);
      var region, previous := ordered[i], merged[|merged| - 1];
      if region.startLine > previous.endLine + 1 {
        merged := merged + [region];
      } else {
        merged := merged[..|merged| - 1] + [Fuse(previous, region)];
      }
    }
    MergeEnds(ordered, regions, merged);
  }

  function SymbolRegionOf(c: Scored): Region {
    Region(c.symbol.startLine, c.symbol.endLine, SymbolRegion, Some(c.symbol.qualname), c.score, c.evidence)
  }

  /** Scoring and greedy choice: every scored symbol is chosen or excused. */
  method SelectSymbols(index: Index, worked: bool, taskTerms: set<string>, importedTerms: set<string>, cap: nat)
    returns (selected: seq<Scored>)
    requires cap >= 1
    ensures |selected| <= cap && PairwiseDisjoint(selected)
    ensures forall c :: c in selected ==> c.symbol in index.symbols
    ensures forall s :: s in index.symbols && s.terms * (taskTerms + importedTerms) != {} ==>
              Excused(selected, cap, Score(s, taskTerms, importedTerms))
    ensures forall c :: c in selected ==> c in ScoredSymbols(index.symbols, worked, taskTerms, importedTerms, cap)
    ensures forall x :: x in ScoredSymbols(index.symbols, worked, taskTerms, importedTerms, cap) ==> Excused(selected, cap, x)
  {
    var scored := ScoreSymbols(index, worked, taskTerms, importedTerms, cap);
    selected := ChooseSymbols(scored, cap);
  }

  /** `_regions_for_index`: separated ranges that show exactly the preamble and the chosen symbols. */
  method RegionsForIndex(index: Index, worked: bool, taskTerms: set<string>, importedTerms: set<string>, cap: nat)
    returns (regions: seq<Region>, ghost chosen: seq<Scored>)
    requires cap >= 1 && forall s :: s in index.symbols ==> s.Valid()
    ensures Separated(regions)
    ensures |chosen| <= cap && PairwiseDisjoint(chosen)
    ensures forall c :: c in chosen ==> c.symbol in index.symbols
    ensures forall s :: s in index.symbols && s.terms * (taskTerms + importedTerms) != {} ==>
              Excused(chosen, cap, Score(s, taskTerms, importedTerms))
    ensures forall c :: c in chosen ==> c in ScoredSymbols(index.symbols, worked, taskTerms, importedTerms, cap)
    ensures forall x :: x in ScoredSymbols(index.symbols, worked, taskTerms, importedTerms, cap) ==> Excused(chosen, cap, x)
    ensures forall line: nat :: Covered(regions, line) <==>
              1 <= line <= index.preambleEndLine || exists c :: c in chosen && c.symbol.startLine <= line <= c.symbol.endLine
    ensures forall c :: c in chosen ==> Absorbs(regions, SymbolRegionOf(c))
  {
    var selected := SelectSymbols(index, worked, taskTerms, importedTerms, cap);
    chosen := selected;
    var all := ListRegions(index.preambleEndLine, selected);
    regions := MergeAdjacentRegions(all);
    forall c | c in chosen ensures Absorbs(regions, SymbolRegionOf(c)) {
      var k :| 0 <= k < |selected| && selected[k] == c;
      assert SymbolRegionOf(selected[k]) in all;
    }
    forall line: nat
      ensures Covered(regions, line) <==>
              1 <= line <= index.preambleEndLine || exists c :: c in chosen && c.symbol.startLine <= line <= c.symbol.endLine
    {
      assert Covered(regions, line) <==> Covered(all, line);
      ListCovers(index.preambleEndLine, selected, all, line);
    }
  }

  function Preamble(endLine: nat): Region {
    Region(1, endLine, ModulePreamble, None, 80, {"module_docstring_or_import_preamble"})
  }

  /** The preamble, if there is one, and the chosen symbols. */
  ghost predicate Lists(endLine: nat, selected: seq<Scored>, all: seq<Region>) {
    forall r :: r in all <==> (endLine > 0 && r == Preamble(endLine)) || exists k :: 0 <= k < |selected| && r == SymbolRegionOf(selected[k])
  }

  method ListRegions(preambleEndLine: nat, selected: seq<Scored>) returns (all: seq<Region>)
    requires forall c :: c in selected ==> c.symbol.Valid()
    ensures AllValid(all) && Lists(preambleEndLine, selected, all)
  {
    all := if preambleEndLine > 0 then [Preamble(preambleEndLine)] else [];
    for i := 0 to |selected|
      invariant AllValid(all) && Lists(preambleEndLine, selected[..i], all)
    {
      assert selected[i] in selected;
      assert selected[..i + 1] == selected[..i] + [selected[i]];
      all := all + [SymbolRegionOf(selected[i])];
    }
    assert selected[..|selected|] == selected;
  }

  lemma ListCovers(endLine: nat, selected: seq<Scored>, all: seq<Region>, line: nat)
    requires Lists(endLine, selected, all)
    ensures Covered(all, line) <==>
            1 <= line <= endLine || exists c :: c in selected && c.symbol.startLine <= line <= c.symbol.endLine
  {
    if c :| c in selected && c.symbol.startLine <= line <= c.symbol.endLine {
      var k :| 0 <= k < |selected| && selected[k] == c;
      assert SymbolRegionOf(selected[k]) in all && SymbolRegionOf(selected[k]).Has(line);
    }
    if 1 <= line <= endLine { assert Preamble(endLine) in all && Preamble(endLine).Has(line); }
  }
}
