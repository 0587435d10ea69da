/** The two binary searches for the longest prefix within a limit. */
module Prefixes {
  import opened Tokens

  // ----- `ContextPacketBuilder._fit_prefix`

  predicate Fits(text: string, k: nat, maxChars: int, maxUnits: int)
    requires k <= |text|
  {
    k <= maxChars && ContextWindowUnits(text[..k]) <= maxUnits
  }

  /** The prefix within both limits that no longer prefix within both limits exceeds. */
  method FitPrefix(text: string, maxChars: int, maxUnits: int) returns (r: string)
    ensures r <= text
    ensures maxChars >= 0 && maxUnits >= 0 ==> Fits(text, |r|, maxChars, maxUnits)
    ensures forall k :: 0 <= k <= |text| && Fits(text, k, maxChars, maxUnits) ==> k <= |r|
  {
    if text == "" || maxChars <= 0 || maxUnits <= 0 {
      assert text[..0] == "";
      forall k | 0 < k <= |text| ensures !Fits(text, k, maxChars, maxUnits) {
        CharsAtMostUnits(text[..k]);
      }
      return "";
    }
    var candidate := if maxChars < |text| then text[..maxChars] else text;
    assert candidate == text[..|candidate|];
    if ContextWindowUnits(candidate) <= maxUnits { return candidate; }
    var low, high := 0, |candidate|;
    assert candidate[..0] == "";
    assert candidate[..high] == candidate;
    while low < high
      invariant 0 <= low <= high <= |candidate|
      invariant ContextWindowUnits(candidate[..low]) <= maxUnits
      invariant forall k :: high < k <= |candidate| ==> ContextWindowUnits(candidate[..k]) > maxUnits
    {
      var midpoint := (low + high + 1) / 2;
      if ContextWindowUnits(candidate[..midpoint]) <= maxUnits {
        low := midpoint;
      } else {
        forall k | midpoint - 1 < k <= |candidate| ensures ContextWindowUnits(candidate[..k]) > maxUnits {
          UnitsOfPrefix(candidate, midpoint, k);
        }
        high := midpoint - 1;
      }
    }
    assert forall k :: 0 <= k <= |candidate| ==> candidate[..k] == text[..k];
    return candidate[..low];
  }

  /** A text is cut only when one of the two limits is really smaller than it. */
  lemma CutMeansLimited(text: string, r: string, maxChars: int, maxUnits: int)
    requires r <= text && forall k :: 0 <= k <= |text| && Fits(text, k, maxChars, maxUnits) ==> k <= |r|
    ensures |r| < |text| ==> maxChars < |text| || maxUnits < ContextWindowUnits(text)
  {
    assert text[..|text|] == text;
    if |r| < |text| { assert !Fits(text, |text|, maxChars, maxUnits); }
  }

  /** Nothing fits only when the first character alone is too wide, or a limit is used up. */
  lemma NothingFits(text: string, r: string, maxChars: int, maxUnits: int)
    requires text != "" && r == "" && forall k :: 0 <= k <= |text| && Fits(text, k, maxChars, maxUnits) ==> k <= |r|
    ensures maxChars <= 0 || maxUnits < ContextWindowUnits(text[..1])
  {
    assert !Fits(text, 1, maxChars, maxUnits);
  }

  // ----- `AgentContextRetention._bounded_preview`

  const MARK_1 := "\n[DevFlow truncated this tool r"
  const MARK_2 := "esult for the Agent context; "
  const HINT_1 := "use a scoped read/search comm"
  const HINT_2 := "and for more detail.]"
  const SUFFIX: string := MARK_1 + MARK_2 + HINT_1 + HINT_2

  predicate Previews(content: string, n: nat, limit: int)
    requires n <= |content|
  {
    BillableTokenEstimate(content[..n] + SUFFIX) <= limit
  }

  lemma PreviewsIsDownwardClosed(content: string, m: nat, n: nat, limit: int)
    requires m <= n <= |content| && Previews(content, n, limit)
    ensures Previews(content, m, limit)
  {
    assert content[..n] == content[..m] + content[m..n];
    CostOfConcat(content[..m], content[m..n]);
    CostOfConcat(content[..m], SUFFIX);
    CostOfConcat(content[..n], SUFFIX);
    EstimateFollowsCost(content[..m] + SUFFIX, content[..n] + SUFFIX);
  }

  predicate Plain(s: string) {
    forall i :: 0 <= i < |s| ==> s[i] as int < 0x3040
  }

  lemma {:induction false} PlainTextHasNoCjk(s: string)
    requires Plain(s)
    ensures CjkChars(s) == 0
  {
    if s != "" { PlainTextHasNoCjk(s[1..]); }
  }

  lemma PlainConcat(a: string, b: string)
    requires Plain(a) && Plain(b)
    ensures Plain(a + b)
  {
  }

  /** The marker costs 37 of the 128 tokens every caller allows at least. */
  lemma SuffixIsSmall()
    ensures BillableTokenEstimate(SUFFIX) == 37
  {
    PlainConcat(MARK_1, MARK_2);
    PlainConcat(MARK_1 + MARK_2, HINT_1);
    PlainConcat(MARK_1 + MARK_2 + HINT_1, HINT_2);
    PlainTextHasNoCjk(SUFFIX);
    EstimateIsCeiling(SUFFIX);
  }

  /** The longest prefix whose marked preview stays within the limit; the marker alone if none does. */
  method BoundedPreview(content: string, limit: int) returns (r: string, ghost n: nat)
    ensures n <= |content| && r == content[..n] + SUFFIX
    ensures forall k :: n < k <= |content| ==> !Previews(content, k, limit)
    ensures n > 0 ==> BillableTokenEstimate(r) <= limit
    ensures limit >= 128 ==> BillableTokenEstimate(r) <= limit
  {
    var low, high := 0, |content|;
    while low < high
      invariant 0 <= low <= high <= |content|
      invariant low > 0 ==> Previews(content, low, limit)
      invariant forall k :: high < k <= |content| ==> !Previews(content, k, limit)
    {
      var middle := (low + high + 1) / 2;
      var candidate := content[..middle] + SUFFIX;
      if BillableTokenEstimate(candidate) <= limit {
        low := middle;
      } else {
        forall k | middle - 1 < k <= |content| ensures !Previews(content, k, limit) {
          if Previews(content, k, limit) { PreviewsIsDownwardClosed(content, middle, k, limit); }
        }
        high := middle - 1;
      }
    }
    n := low;
    SuffixIsSmall();
    assert content[..0] + SUFFIX == SUFFIX;
    if low == 0 { return SUFFIX, n; }
    return content[..low] + SUFFIX, n;
  }
}
