/** Source text as the context builder sees it: one newline form, split into lines, cut into regions. */
module SourceText {
  import opened Tokens
  import opened Relevance

  /** `text.replace("\r\n", "\n").replace("\r", "\n")`. */
  function Normalized(raw: string): string {
    if raw == "" then ""
    else if raw[0] == '\r' then "\n" + Normalized(if |raw| > 1 && raw[1] == '\n' then raw[2..] else raw[1..])
    else [raw[0]] + Normalized(raw[1..])
  }

  lemma {:induction false} NormalizedIsNoLarger(raw: string)
    ensures '\r' !in Normalized(raw)
    ensures |Normalized(raw)| <= |raw|
    ensures ContextWindowUnits(Normalized(raw)) <= ContextWindowUnits(raw)
  {
    if raw != "" {
      if raw[0] == '\r' {
        var rest := if |raw| > 1 && raw[1] == '\n' then raw[2..] else raw[1..];
        NormalizedIsNoLarger(rest);
        UnitsOfConcat("\n", Normalized(rest));
        assert ContextWindowUnits("\n") == 1 by { assert "\n"[1..] == ""; }
        assert raw == raw[..|raw| - |rest|] + rest;
        UnitsOfConcat(raw[..|raw| - |rest|], rest);
        CharsAtMostUnits(raw[..|raw| - |rest|]);
      } else {
        NormalizedIsNoLarger(raw[1..]);
        UnitsOfConcat([raw[0]], Normalized(raw[1..]));
        UnitsOfConcat([raw[0]], raw[1..]);
        assert raw == [raw[0]] + raw[1..];
      }
    }
  }

  /** Text without carriage returns is left as it is. */
  lemma {:induction false} NormalizedKeepsPlain(text: string)
    requires '\r' !in text
    ensures Normalized(text) == text
  {
    if text != "" {
      NormalizedKeepsPlain(text[1..]);
      assert text == [text[0]] + text[1..];
    }
  }

  /** The text with every line feed written as `end`. */
  function WithEnds(text: string, end: string): string {
    if text == "" then "" else (if text[0] == '\n' then end else [text[0]]) + WithEnds(text[1..], end)
  }

  /** Whether a text was saved with CR LF, CR or LF line ends, the same text is seen. */
  lemma {:induction false} LineEndsMakeNoDifference(text: string)
    requires '\r' !in text
    ensures Normalized(WithEnds(text, "\r\n")) == text && Normalized(WithEnds(text, "\r")) == text && Normalized(text) == text
  {
    NormalizedKeepsPlain(text);
    if text != "" {
      LineEndsMakeNoDifference(text[1..]);
      var crlf, cr := WithEnds(text[1..], "\r\n"), WithEnds(text[1..], "\r");
      if text[0] == '\n' {
        assert ("\r\n" + crlf)[2..] == crlf;
        assert ("\r" + cr)[1..] == cr;
        assert cr == "" || cr[0] != '\n';
      } else {
        assert ([text[0]] + crlf)[1..] == crlf && ([text[0]] + cr)[1..] == cr;
      }
      assert text == [text[0]] + text[1..];
    }
  }

  /** The characters at which `str.splitlines` breaks. */
  predicate BreaksLine(c: char) {
    var u := c as int;
    u == 0x0A || u == 0x0B || u == 0x0C || u == 0x0D || u == 0x1C || u == 0x1D || u == 0x1E || u == 0x85 || u == 0x2028 || u == 0x2029
  }

  /** Line feed, carriage return, the vertical tab and form feed, three separators of ASCII, and three of Unicode. */
  lemma BreaksAreTen(c: char)
    ensures BreaksLine(c) <==>
            || c == '\n' || c == '\r' || c == '\U{0B}' || c == '\U{0C}' || c == '\U{1C}' || c == '\U{1D}' || c == '\U{1E}'
            || c == '\U{85}' || c == '\U{2028}' || c == '\U{2029}'
  {
  }

  /** Length of the first line, its break included. */
  function FirstLine(s: string): (n: nat)
    requires s != ""
    ensures 1 <= n <= |s|
  {
    if s[0] == '\r' && |s| > 1 && s[1] == '\n' then 2
    else if BreaksLine(s[0]) || |s| == 1 then 1
    else 1 + FirstLine(s[1..])
  }

  /** `text.splitlines(keepends=True)`. */
  function SplitLines(s: string): seq<string> {
    if s == "" then [] else [s[..FirstLine(s)]] + SplitLines(s[FirstLine(s)..])
  }

  function Concat(parts: seq<string>): string {
    if parts == [] then "" else parts[0] + Concat(parts[1..])
  }

  lemma {:induction false} SplitLinesLosesNothing(s: string)
    ensures Concat(SplitLines(s)) == s
    ensures SplitLines(s) == [] <==> s == ""
  {
    if s != "" {
      SplitLinesLosesNothing(s[FirstLine(s)..]);
      assert s == s[..FirstLine(s)] + s[FirstLine(s)..];
      assert SplitLines(s)[1..] == SplitLines(s[FirstLine(s)..]);
    }
  }

  /** A line holds text; it breaks at its end only, and anything but the last of a text has such an end. */
  ghost predicate IsLine(line: string, last: bool) {
    && line != "" && (last || BreaksLine(line[|line| - 1]))
    && forall i :: 0 <= i < |line| - 1 && BreaksLine(line[i]) ==> i == |line| - 2 && line[i..] == "\r\n"
  }

  lemma {:induction false} FirstLineIsLine(s: string)
    requires s != ""
    ensures IsLine(s[..FirstLine(s)], FirstLine(s) == |s|)
    ensures FirstLine(s) < |s| && s[FirstLine(s) - 1] == '\r' ==> s[FirstLine(s)] != '\n'
  {
    var n := FirstLine(s);
    if s[0] == '\r' && |s| > 1 && s[1] == '\n' {
      assert s[..2] == "\r\n";
    } else if !BreaksLine(s[0]) && |s| > 1 {
      FirstLineIsLine(s[1..]);
      var rest := s[1..][..n - 1];
      assert s[..n] == [s[0]] + rest;
      forall i | 0 <= i < n - 1 && BreaksLine(s[..n][i]) ensures i == n - 2 && s[..n][i..] == "\r\n" {
        assert rest[i - 1] == s[i];
        assert s[..n][i..] == rest[i - 1..];
      }
    }
  }

  /** With `SplitLinesLosesNothing` this says what the lines of a text are; no CR LF is torn apart. */
  lemma {:induction false} LinesAreLines(s: string, k: nat)
    requires k < |SplitLines(s)|
    ensures IsLine(SplitLines(s)[k], k == |SplitLines(s)| - 1)
    ensures k + 1 < |SplitLines(s)| && SplitLines(s)[k][|SplitLines(s)[k]| - 1] == '\r' ==> SplitLines(s)[k + 1] != "" && SplitLines(s)[k + 1][0] != '\n'
    decreases k
  {
    var n := FirstLine(s);
    FirstLineIsLine(s);
    SplitLinesLosesNothing(s[n..]);
    if k > 0 {
      LinesAreLines(s[n..], k - 1);
    }
  }

  lemma {:induction false} FirstLineOfFront(s: string, m: nat)
    requires s != "" && FirstLine(s) <= m <= |s|
    ensures m > 0 && FirstLine(s[..m]) == FirstLine(s)
  {
    if !(s[0] == '\r' && |s| > 1 && s[1] == '\n') && !BreaksLine(s[0]) && |s| > 1 {
      FirstLineOfFront(s[1..], m - 1);
      assert s[..m][1..] == s[1..][..m - 1];
    }
  }

  lemma {:induction false} FirstLineComesOff(s: string, front: string)
    requires s != "" && front <= s && FirstLine(s) <= |front|
    ensures front != "" && SplitLines(front) == [s[..FirstLine(s)]] + SplitLines(front[FirstLine(s)..])
  {
    assert front == s[..|front|];
    FirstLineOfFront(s, |front|);
    assert front[..FirstLine(s)] == s[..FirstLine(s)];
  }

  lemma {:induction false} FrontOfLines(s: string, k: nat)
    requires 0 < k <= |SplitLines(s)|
    ensures s != "" && k - 1 <= |SplitLines(s[FirstLine(s)..])|
    ensures SplitLines(s)[..k] == [s[..FirstLine(s)]] + SplitLines(s[FirstLine(s)..])[..k - 1]
    ensures Concat(SplitLines(s)[..k]) == s[..FirstLine(s)] + Concat(SplitLines(s[FirstLine(s)..])[..k - 1])
  {
    assert SplitLines(s)[..k][1..] == SplitLines(s[FirstLine(s)..])[..k - 1];
  }

  lemma Regroups<T>(a: seq<T>, b: seq<T>, c: seq<T>)
    ensures (a + b) + c == a + (b + c)
  {
  }

  lemma SkipsPrefix(line: string, a: string, b: string, tail: string)
    requires tail <= b
    ensures (line + a) + tail <= (line + a) + b
    ensures ((line + a) + tail)[|line|..] == a + tail && ((line + a) + b)[|line|..] == a + b
  {
  }

  /** Behind a line boundary, the lines before it are as they were, whatever front part of the rest is kept. */
  lemma {:induction false} SplitsAtLine(s: string, k: nat, a: string, b: string, tail: string)
    requires k <= |SplitLines(s)| && a == Concat(SplitLines(s)[..k]) && s == a + b && tail <= b
    ensures SplitLines(a + tail) == SplitLines(s)[..k] + SplitLines(tail)
    decreases k
  {
    if k == 0 {
      assert a == "" && a + tail == tail;
    } else {
      var line, rest := s[..FirstLine(s)], s[FirstLine(s)..];
      FrontOfLines(s, k);
      var a' := Concat(SplitLines(rest)[..k - 1]);
      SkipsPrefix(line, a', b, tail);
      SplitsAtLine(rest, k - 1, a', b, tail);
      FirstLineComesOff(s, a + tail);
      Regroups([line], SplitLines(rest)[..k - 1], SplitLines(tail));
    }
  }

  lemma {:induction false} ConcatOfConcat(a: seq<string>, b: seq<string>)
    ensures Concat(a + b) == Concat(a) + Concat(b)
  {
    if a == [] {
      assert a + b == b;
    } else {
      assert (a + b)[1..] == a[1..] + b;
      ConcatOfConcat(a[1..], b);
    }
  }

  /** `_region_text`. */
  function RegionText(lines: seq<string>, r: Region): string
    requires r.Valid()
  {
    if r.startLine > |lines| then ""
    else Concat(lines[r.startLine - 1..if r.endLine < |lines| then r.endLine else |lines|])
  }

  function RegionTexts(lines: seq<string>, regions: seq<Region>): seq<string>
    requires AllValid(regions)
  {
    seq(|regions|, i requires 0 <= i < |regions| => assert regions[i] in regions; RegionText(lines, regions[i]))
  }

  /**
    * `shown` stands in `text` behind `before`, which is exactly the first `startLine - 1` lines; its last character is in line
    * `endLine`.
    */
  ghost predicate StandsBehind(text: string, before: string, shown: string, startLine: nat, endLine: nat) {
    && before + shown <= text
    && SplitLines(before) <= SplitLines(text) && |SplitLines(before)| == startLine - 1
    && endLine == if |SplitLines(before + shown)| < startLine then startLine else |SplitLines(before + shown)|
  }

  ghost predicate Stands(text: string, shown: string, startLine: nat, endLine: nat) {
    exists before :: StandsBehind(text, before, shown, startLine, endLine)
  }

  /** Nothing of the line in which `shown` ends is left out. */
  ghost predicate EndsWithLine(text: string, shown: string, startLine: nat) {
    exists before :: EndsWithLineBehind(text, before, shown, startLine)
  }

  ghost predicate EndsWithLineBehind(text: string, before: string, shown: string, startLine: nat) {
    && before + shown <= text && SplitLines(before) <= SplitLines(text) && |SplitLines(before)| == startLine - 1
    && SplitLines(before + shown) <= SplitLines(text)
  }

  /** A front part of the lines `k` to `end` stands behind the lines before them. */
  lemma {:induction false} PartStands(text: string, k: nat, end: nat, shown: string)
    requires k <= end <= |SplitLines(text)| && shown <= Concat(SplitLines(text)[k..end]) && shown != ""
    ensures 1 <= |SplitLines(shown)| <= end - k
    ensures Stands(text, shown, k + 1, k + |SplitLines(shown)|)
  {
    var lines := SplitLines(text);
    var before, region := Concat(lines[..k]), Concat(lines[k..end]);
    var back := RegionIsInside(text, k, end);
    BoundarySplits(text, k, before, region + back, shown);
    SplitLinesLosesNothing(shown);
    assert region[..|shown|] == shown;
    FewerLines(region, |shown|);
    LinesOfPart(text, k, end, before, region, back);
    PrefixOfRest(before, region, back, shown);
    assert StandsBehind(text, before, shown, k + 1, k + |SplitLines(shown)|);
  }

  lemma PrefixOfRest(before: string, region: string, back: string, shown: string)
    requires shown <= region
    ensures before + shown <= before + (region + back) && shown <= region + back
  {
  }

  lemma {:induction false} LinesOfPart(text: string, k: nat, end: nat, before: string, region: string, back: string)
    requires k <= end <= |SplitLines(text)| && before == Concat(SplitLines(text)[..k]) && region == Concat(SplitLines(text)[k..end])
    requires text == before + (region + back) && Concat(SplitLines(text)[..end]) == before + region
    ensures |SplitLines(region)| == end - k && SplitLines(before + region) == SplitLines(text)[..end]
  {
    PrefixOfRest(before, region, back, region);
    BoundarySplits(text, k, before, region + back, region);
    Regroups(before, region, back);
    BoundarySplits(text, end, before + region, back, "");
  }

  /** All of the lines `k` to `end` also end with their last line. */
  lemma {:induction false} WholeEndsWithLine(text: string, k: nat, end: nat)
    requires k <= end <= |SplitLines(text)|
    ensures EndsWithLine(text, Concat(SplitLines(text)[k..end]), k + 1) && |SplitLines(Concat(SplitLines(text)[k..end]))| == end - k
  {
    var before, region := Concat(SplitLines(text)[..k]), Concat(SplitLines(text)[k..end]);
    var back := RegionIsInside(text, k, end);
    LinesOfPart(text, k, end, before, region, back);
    PrefixOfRest(before, region, back, region);
    BoundarySplits(text, k, before, region + back, region);
    assert EndsWithLineBehind(text, before, region, k + 1);
  }

  /** A region has text exactly when it starts inside the file. */
  lemma {:induction false} RegionTextIsThere(text: string, r: Region)
    requires r.Valid()
    ensures RegionText(SplitLines(text), r) != "" <==> r.startLine <= |SplitLines(text)|
  {
    var lines, k := SplitLines(text), r.startLine - 1;
    if k < |lines| { LinesAreLines(text, k); }
  }

  /** A front part of a region's text stands where the region says; the whole of it also ends with the region's last line. */
  lemma {:induction false} RegionTextStands(text: string, r: Region, shown: string)
    requires r.Valid() && shown <= RegionText(SplitLines(text), r) && shown != ""
    ensures r.startLine + |SplitLines(shown)| - 1 <= r.endLine
    ensures Stands(text, shown, r.startLine, r.startLine + |SplitLines(shown)| - 1)
    ensures shown == RegionText(SplitLines(text), r) ==>
              && EndsWithLine(text, shown, r.startLine)
              && r.startLine + |SplitLines(shown)| - 1 == if r.endLine < |SplitLines(text)| then r.endLine else |SplitLines(text)|
  {
    var lines := SplitLines(text);
    var end := if r.endLine < |lines| then r.endLine else |lines|;
    PartStands(text, r.startLine - 1, end, shown);
    WholeEndsWithLine(text, r.startLine - 1, end);
  }

  lemma {:induction false} BoundarySplits(text: string, k: nat, before: string, after: string, shown: string)
    requires k <= |SplitLines(text)| && before == Concat(SplitLines(text)[..k]) && text == before + after && shown <= after
    ensures SplitLines(before) == SplitLines(text)[..k]
    ensures SplitLines(before + shown) == SplitLines(text)[..k] + SplitLines(shown)
  {
    SplitsAtLine(text, k, before, after, "");
    assert before + "" == before;
    SplitsAtLine(text, k, before, after, shown);
  }

  /** Lines `k` to `end` of a text stand behind the lines before them. */
  lemma {:induction false} RegionIsInside(text: string, k: nat, end: nat) returns (back: string)
    requires k <= end <= |SplitLines(text)|
    ensures var lines := SplitLines(text);
            && Concat(lines[..end]) == Concat(lines[..k]) + Concat(lines[k..end])
            && text == Concat(lines[..end]) + back && text == Concat(lines[..k]) + (Concat(lines[k..end]) + back)
  {
    var lines := SplitLines(text);
    back := Concat(lines[end..]);
    SplitLinesLosesNothing(text);
    JoinsAt(lines, k, end);
    Regroups(Concat(lines[..k]), Concat(lines[k..end]), back);
  }

  lemma {:induction false} JoinsAt(lines: seq<string>, k: nat, end: nat)
    requires k <= end <= |lines|
    ensures Concat(lines[..end]) == Concat(lines[..k]) + Concat(lines[k..end])
    ensures Concat(lines) == Concat(lines[..end]) + Concat(lines[end..])
  {
    ConcatOfConcat(lines[..k], lines[k..end]);
    assert lines[..end] == lines[..k] + lines[k..end];
    ConcatOfConcat(lines[..end], lines[end..]);
    assert lines == lines[..end] + lines[end..];
  }

  /** A shorter text has no more lines. */
  lemma {:induction false} FewerLines(s: string, m: nat)
    requires m <= |s|
    ensures |SplitLines(s[..m])| <= |SplitLines(s)|
    decreases |s|
  {
    if 0 < m {
      var n := FirstLine(s);
      if n <= m {
        FirstLineOfFront(s, m);
        assert s[..m][n..] == s[n..][..m - n];
        FewerLines(s[n..], m - n);
      } else {
        PartOfFirstLine(s, m);
      }
    }
  }

  lemma {:induction false} PartOfFirstLine(s: string, m: nat)
    requires s != "" && 0 < m < FirstLine(s)
    ensures |SplitLines(s[..m])| == 1
  {
    var front := s[..m];
    FirstLineIsWhole(s, m);
    assert front[m..] == "";
  }

  lemma {:induction false} FirstLineIsWhole(s: string, m: nat)
    requires s != "" && 0 < m < FirstLine(s)
    ensures FirstLine(s[..m]) == m
  {
    if !(s[0] == '\r' && |s| > 1 && s[1] == '\n') && m > 1 {
      assert s[..m][1..] == s[1..][..m - 1];
      FirstLineIsWhole(s[1..], m - 1);
    }
  }

  ghost predicate Cheaper(a: string, b: string) {
    |a| <= |b| && ContextWindowUnits(a) <= ContextWindowUnits(b)
  }

  lemma CheaperConcat(a: string, a': string, b: string, b': string)
    requires Cheaper(a, a') && Cheaper(b, b')
    ensures Cheaper(a + b, a' + b')
  {
    UnitsOfConcat(a, b);
    UnitsOfConcat(a', b');
  }

  lemma CheaperSuffix(a: string, b: string)
    ensures Cheaper(b, a + b)
  {
    UnitsOfConcat(a, b);
  }

  /** What fits in the lines from `mid` on fits in those from an earlier line on. */
  lemma CheaperFrom(lines: seq<string>, from: nat, mid: nat, text: string)
    requires from <= mid <= |lines| && Cheaper(text, Concat(lines[mid..]))
    ensures Cheaper(text, Concat(lines[from..]))
  {
    assert lines[from..] == lines[from..mid] + lines[mid..];
    ConcatOfConcat(lines[from..mid], lines[mid..]);
    CheaperSuffix(Concat(lines[from..mid]), Concat(lines[mid..]));
  }

  /** A text no larger than lines `a` to `end`, then one no larger than the lines after. */
  lemma JoinsRest(lines: seq<string>, a: nat, end: nat, text: string, rest: string)
    requires a <= end <= |lines| && Cheaper(text, Concat(lines[a..end])) && Cheaper(rest, Concat(lines[end..]))
    ensures Cheaper(text + rest, Concat(lines[a..]))
  {
    CheaperConcat(text, Concat(lines[a..end]), rest, Concat(lines[end..]));
    ConcatOfConcat(lines[a..end], lines[end..]);
    assert lines[a..] == lines[a..end] + lines[end..];
  }

  /** Separated regions show no line twice: together they are no larger than the text from their first line on. */
  lemma {:induction false} SeparatedRegionsFit(lines: seq<string>, regions: seq<Region>, from: nat)
    requires Separated(regions) && from <= |lines|
    requires regions != [] ==> from < regions[0].startLine
    ensures Cheaper(Concat(RegionTexts(lines, regions)), Concat(lines[from..]))
    decreases |regions|
  {
    var texts := RegionTexts(lines, regions);
    if regions == [] {
      assert Concat(texts) == "";
      assert ContextWindowUnits("") == 0;
    } else {
      var r, rest := regions[0], regions[1..];
      assert r in regions;
      assert forall x :: x in rest ==> x in regions;
      assert texts[1..] == RegionTexts(lines, rest);
      var end := if r.endLine < |lines| then r.endLine else |lines|;
      if r.startLine > |lines| {
        SeparatedRegionsFit(lines, rest, |lines|);
        assert Concat(texts) == Concat(texts[1..]);
        CheaperFrom(lines, from, |lines|, Concat(texts));
      } else {
        SeparatedRegionsFit(lines, rest, end);
        JoinsRest(lines, r.startLine - 1, end, RegionText(lines, r), Concat(texts[1..]));
        CheaperFrom(lines, from, r.startLine - 1, Concat(texts));
      }
    }
  }

  /** The regions of a file never show more characters or bytes than the file has. */
  lemma {:induction false} RegionsFitInSource(text: string, regions: seq<Region>)
    requires Separated(regions)
    ensures Cheaper(Concat(RegionTexts(SplitLines(text), regions)), text)
  {
    SplitLinesLosesNothing(text);
    var lines := SplitLines(text);
    if regions != [] { assert regions[0] in regions; }
    SeparatedRegionsFit(lines, regions, 0);
    assert lines[0..] == lines;
  }
}
