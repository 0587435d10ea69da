/** Decimal text of sequence numbers, and trimming, as the cursor and the wire format use them. */
module Decimals {
  import opened Wrappers

  predicate IsDigit(c: char) { '0' <= c <= '9' }

  function DigitChar(d: nat): char
    requires d < 10
  {
    ('0' as int + d) as char
  }

  function Decimal(n: nat): (s: string)
    ensures s != "" && forall i :: 0 <= i < |s| ==> IsDigit(s[i])
  {
    if n < 10 then [DigitChar(n)] else Decimal(n / 10) + [DigitChar(n % 10)]
  }

  /** The usual notation: the last digit counts ones, what stands before it tens, and no zero leads. */
  lemma {:induction false} DecimalIsPositional(n: nat, d: nat)
    requires d < 10
    ensures n > 0 ==> Decimal(10 * n + d) == Decimal(n) + [DigitChar(d)]
    ensures Decimal(d) == [DigitChar(d)] && DigitChar(d) as int == '0' as int + d
    ensures Decimal(n)[0] == '0' ==> n == 0
  {
    assert (10 * n + d) / 10 == n && (10 * n + d) % 10 == d;
    if n >= 10 { DecimalIsPositional(n / 10, 0); }
  }

  function DigitValue(c: char): nat
    requires IsDigit(c)
  {
    c as int - '0' as int
  }

  function ParseDecimal(s: string): nat
    requires forall i :: 0 <= i < |s| ==> IsDigit(s[i])
  {
    if s == "" then 0 else 10 * ParseDecimal(s[..|s| - 1]) + DigitValue(s[|s| - 1])
  }

  lemma {:induction false} ParseInvertsDecimal(n: nat)
    ensures ParseDecimal(Decimal(n)) == n
  {
    if n >= 10 {
      ParseInvertsDecimal(n / 10);
      assert Decimal(n)[..|Decimal(n)| - 1] == Decimal(n / 10);
    } else {
      assert Decimal(n)[..0] == "";
    }
  }

  /** The characters `str.strip` removes. */
  predicate IsSpace(c: char) {
    var u := c as int;
    || 0x09 <= u <= 0x0D || 0x1C <= u <= 0x20 || u == 0x85 || u == 0xA0 || u == 0x1680
    || 0x2000 <= u <= 0x200A || u == 0x2028 || u == 0x2029 || u == 0x202F || u == 0x205F || u == 0x3000
  }

  /** White space: the tab to the carriage return, the separators up to the blank, and the wider blanks of Unicode. */
  lemma SpacesAre(c: char)
    ensures c < '\U{80}' ==> (IsSpace(c) <==> c in " \t\n\r\U{0B}\U{0C}\U{1C}\U{1D}\U{1E}\U{1F}")
    ensures '\U{80}' <= c < '\U{2000}' ==> (IsSpace(c) <==> c in "\U{85}\U{A0}\U{1680}")
    ensures '\U{2000}' <= c < '\U{200B}' ==> IsSpace(c)
    ensures c >= '\U{200B}' ==> (IsSpace(c) <==> c in "\U{2028}\U{2029}\U{202F}\U{205F}\U{3000}")
  {
  }

  function Strip(s: string): (r: string)
    ensures |r| <= |s|
  {
    if s == "" then ""
    else if IsSpace(s[0]) then Strip(s[1..])
    else if IsSpace(s[|s| - 1]) then Strip(s[..|s| - 1])
    else s
  }

  ghost predicate AllSpace(s: string) { forall c | c in s :: IsSpace(c) }

  ghost predicate Trimmed(s: string) { s == "" || (!IsSpace(s[0]) && !IsSpace(s[|s| - 1])) }

  /** Trimming removes exactly the white space around a text. */
  lemma {:induction false} StripIsExact(before: string, text: string, after: string)
    requires AllSpace(before) && AllSpace(after) && Trimmed(text)
    ensures Strip(before + text + after) == text
    decreases |before| + |after|
  {
    var s := before + text + after;
    if before != "" {
      assert s[0] == before[0] && s[1..] == before[1..] + text + after;
      StripIsExact(before[1..], text, after);
    } else if text == "" {
      assert s == after;
      if after != "" {
        assert after == after + "" + "" && s[1..] == "" + "" + after[1..];
        StripIsExact("", "", after[1..]);
      }
    } else if after != "" {
      var n := |after| - 1;
      assert s[|s| - 1] == after[n] && s[..|s| - 1] == "" + text + after[..n] && s[0] == text[0];
      StripIsExact("", text, after[..n]);
    } else {
      assert s == text;
    }
  }

  lemma {:induction false} EveryTextCanBeTrimmed(s: string) returns (before: string, text: string, after: string)
    ensures s == before + text + after && AllSpace(before) && AllSpace(after) && Trimmed(text)
  {
    if s != "" && IsSpace(s[0]) {
      before, text, after := EveryTextCanBeTrimmed(s[1..]);
      before := [s[0]] + before;
      assert s == [s[0]] + s[1..];
    } else if s != "" && IsSpace(s[|s| - 1]) {
      before, text, after := EveryTextCanBeTrimmed(s[..|s| - 1]);
      after := after + [s[|s| - 1]];
      assert s == s[..|s| - 1] + [s[|s| - 1]];
    } else {
      before, text, after := "", s, "";
    }
  }
}
