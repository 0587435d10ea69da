/** `backend/app/context/token_estimator.py` with its default constants, in exact rationals. */
module Tokens {

  // ----- UTF-8 (section 3 of RFC 3629)

  function EncodeChar(c: char): seq<int> {
    var u := c as int;
    if u < 0x80 then [u]
    else if u < 0x800 then [0xC0 + u / 0x40, 0x80 + u % 0x40]
    else if u < 0x10000 then [0xE0 + u / 0x1000, 0x80 + u / 0x40 % 0x40, 0x80 + u % 0x40]
    else [0xF0 + u / 0x40000, 0x80 + u / 0x1000 % 0x40, 0x80 + u / 0x40 % 0x40, 0x80 + u % 0x40]
  }

  function Encode(s: string): seq<int> {
    if s == "" then [] else EncodeChar(s[0]) + Encode(s[1..])
  }

  // ----- decoding, to say what the bytes mean

  function LengthFrom(lead: int): nat {
    if lead < 0x80 then 1 else if lead < 0xE0 then 2 else if lead < 0xF0 then 3 else 4
  }

  function PointFrom(bytes: seq<int>): int
    requires 1 <= |bytes| <= 4
  {
    if |bytes| == 1 then bytes[0]
    else if |bytes| == 2 then 0x40 * (bytes[0] - 0xC0) + (bytes[1] - 0x80)
    else if |bytes| == 3 then 0x1000 * (bytes[0] - 0xE0) + 0x40 * (bytes[1] - 0x80) + (bytes[2] - 0x80)
    else 0x40000 * (bytes[0] - 0xF0) + 0x1000 * (bytes[1] - 0x80) + 0x40 * (bytes[2] - 0x80) + (bytes[3] - 0x80)
  }

  /** The code points that a byte sequence starts with. */
  function Decode(bytes: seq<int>): seq<int> {
    if bytes == [] || |bytes| < LengthFrom(bytes[0]) then []
    else [PointFrom(bytes[..LengthFrom(bytes[0])])] + Decode(bytes[LengthFrom(bytes[0])..])
  }

  function Points(s: string): seq<int> { seq(|s|, i requires 0 <= i < |s| => s[i] as int) }

  /** Splitting a number into groups of six bits. */
  lemma SixBits(u: nat)
    ensures u == 0x40 * (u / 0x40) + u % 0x40 && 0 <= u % 0x40 < 0x40
    ensures u / 0x1000 == u / 0x40 / 0x40 && u / 0x40000 == u / 0x40 / 0x40 / 0x40
  {
    var q := u / 0x40;
    var r := q / 0x40;
    assert q == 0x40 * r + q % 0x40 && r == 0x40 * (r / 0x40) + r % 0x40;
    assert u == 0x1000 * r + (0x40 * (q % 0x40) + u % 0x40);
    assert u == 0x40000 * (r / 0x40) + (0x1000 * (r % 0x40) + 0x40 * (q % 0x40) + u % 0x40);
  }

  lemma {:induction false} BytesSpellPoint(c: char)
    ensures 1 <= |EncodeChar(c)| <= 4 && PointFrom(EncodeChar(c)) == c as int
  {
    var u := c as int;
    SixBits(u);
    SixBits(u / 0x40);
    SixBits(u / 0x40 / 0x40);
  }

  /** One to four bytes by the size of the code point; the lead byte tells how many, and they spell the code point. */
  lemma {:induction false} CharIsEncoded(c: char)
    ensures var u, bytes := c as int, EncodeChar(c);
            && |bytes| == (if u < 0x80 then 1 else if u < 0x800 then 2 else if u < 0x10000 then 3 else 4)
            && LengthFrom(bytes[0]) == |bytes| && PointFrom(bytes) == u
            && (forall i :: 0 <= i < |bytes| ==> 0 <= bytes[i] < 0x100 && (i > 0 ==> 0x80 <= bytes[i] < 0xC0))
  {
    BytesSpellPoint(c);
  }

  /** Nothing is lost or merged: decoding the bytes gives the text back. */
  lemma {:induction false} DecodeInvertsEncode(s: string)
    ensures Decode(Encode(s)) == Points(s)
  {
    if s != "" {
      DecodeInvertsEncode(s[1..]);
      CharIsEncoded(s[0]);
      var bytes := Encode(s);
      assert bytes[..|EncodeChar(s[0])|] == EncodeChar(s[0]) && bytes[|EncodeChar(s[0])|..] == Encode(s[1..]);
      assert Points(s) == [s[0] as int] + Points(s[1..]);
    }
  }

  /** The conservative bound: UTF-8 bytes. */
  function ContextWindowUnits(s: string): nat { |Encode(s)| }

  lemma {:induction false} UnitsOfConcat(a: string, b: string)
    ensures ContextWindowUnits(a + b) == ContextWindowUnits(a) + ContextWindowUnits(b)
  {
    if a == "" {
      assert a + b == b;
    } else {
      UnitsOfConcat(a[1..], b);
      assert (a + b)[1..] == a[1..] + b;
    }
  }

  lemma UnitsOfPrefix(s: string, i: nat, j: nat)
    requires i <= j <= |s|
    ensures ContextWindowUnits(s[..i]) <= ContextWindowUnits(s[..j])
  {
    assert s[..j] == s[..i] + s[i..j];
    UnitsOfConcat(s[..i], s[i..j]);
  }

  lemma {:induction false} CharsAtMostUnits(s: string)
    ensures |s| <= ContextWindowUnits(s) <= 4 * |s|
  {
    if s != "" { CharsAtMostUnits(s[1..]); }
  }

  // ----- billable estimate

  predicate IsCjk(c: char) {
    var u := c as int;
    || 0x3400 <= u <= 0x4DBF
    || 0x4E00 <= u <= 0x9FFF
    || 0xF900 <= u <= 0xFAFF
    || 0x3040 <= u <= 0x30FF
    || 0xAC00 <= u <= 0xD7AF
  }

  /** The blocks that count as CJK, by their first and last characters and the neighbours outside. */
  lemma CjkBlocks()
    ensures IsCjk('\U{3400}') && IsCjk('\U{4DBF}') && !IsCjk('\U{33FF}') && !IsCjk('\U{4DC0}')
    ensures IsCjk('\U{4E00}') && IsCjk('\U{9FFF}') && !IsCjk('\U{4DFF}') && !IsCjk('\U{A000}')
    ensures IsCjk('\U{F900}') && IsCjk('\U{FAFF}') && !IsCjk('\U{F8FF}') && !IsCjk('\U{FB00}')
    ensures IsCjk('\U{3040}') && IsCjk('\U{30FF}') && !IsCjk('\U{303F}') && !IsCjk('\U{3100}')
    ensures IsCjk('\U{AC00}') && IsCjk('\U{D7AF}') && !IsCjk('\U{ABFF}') && !IsCjk('\U{D7B0}')
    ensures forall c: char :: c < '\U{3040}' ==> !IsCjk(c)
  {
  }

  function CjkChars(s: string): (n: nat)
    ensures n <= |s|
  {
    if s == "" then 0 else (if IsCjk(s[0]) then 1 else 0) + CjkChars(s[1..])
  }

  const SAFETY_FACTOR: real := 1.15
  const ASCII_CHARS_PER_TOKEN: real := 3.5
  const CJK_TOKENS_PER_CHAR: real := 1.2

  /** `billable_token_estimate`, as the source computes it. */
  function BillableTokenEstimate(s: string): int {
    if s == "" then 0 else
      var raw := CjkChars(s) as real * CJK_TOKENS_PER_CHAR + (|s| - CjkChars(s)) as real / ASCII_CHARS_PER_TOKEN;
      var tokens := (raw * SAFETY_FACTOR + 0.999).Floor;
      if tokens < 1 then 1 else tokens
  }

  /** The exact cost in 350ths of a token: 69/50 for a CJK character, 23/70 for any other. */
  function Cost(s: string): nat {
    483 * CjkChars(s) + 115 * (|s| - CjkChars(s))
  }

  /** Adding 0.999 and truncating is the true ceiling, because costs are whole 350ths. */
  lemma EstimateIsCeiling(s: string)
    requires s != ""
    ensures 350 * (BillableTokenEstimate(s) - 1) < Cost(s) <= 350 * BillableTokenEstimate(s)
  {
    var cjk, other := CjkChars(s), |s| - CjkChars(s);
    var raw := cjk as real * 1.2 + other as real / 3.5;
    assert other as real / 3.5 == other as real * 2.0 / 7.0;
    assert raw * 1.15 == Cost(s) as real / 350.0;
    assert Cost(s) >= 115;
  }

  lemma {:induction false} CostOfConcat(a: string, b: string)
    ensures CjkChars(a + b) == CjkChars(a) + CjkChars(b)
    ensures Cost(a + b) == Cost(a) + Cost(b)
  {
    if a == "" {
      assert a + b == b;
    } else {
      CostOfConcat(a[1..], b);
      assert (a + b)[1..] == a[1..] + b;
    }
  }

  lemma EstimateFollowsCost(a: string, b: string)
    requires Cost(a) <= Cost(b)
    ensures BillableTokenEstimate(a) <= BillableTokenEstimate(b)
  {
    if a != "" {
      EstimateIsCeiling(a);
      EstimateIsCeiling(b);
    } else if b != "" {
      EstimateIsCeiling(b);
    }
  }

  /** More text never costs less, on either side. */
  lemma EstimateIsMonotone(a: string, b: string, c: string)
    ensures BillableTokenEstimate(b) <= BillableTokenEstimate(a + b + c)
  {
    CostOfConcat(a, b);
    CostOfConcat(a + b, c);
    EstimateFollowsCost(b, a + b + c);
  }

  lemma {:induction false} CostIsBoundedByBytes(s: string)
    ensures Cost(s) <= 350 * ContextWindowUnits(s)
  {
    if s != "" { CostIsBoundedByBytes(s[1..]); }
  }

  /** The billable estimate never exceeds the byte bound. */
  lemma EstimateIsBoundedByBytes(s: string)
    ensures BillableTokenEstimate(s) <= ContextWindowUnits(s)
  {
    CostIsBoundedByBytes(s);
    if s != "" { EstimateIsCeiling(s); }
  }

  // ----- whole requests

  function Join(parts: seq<string>): string {
    if parts == [] then "" else if |parts| == 1 then parts[0] else parts[0] + "\n" + Join(parts[1..])
  }

  function EstimateMessages(parts: seq<string>): int { BillableTokenEstimate(Join(parts)) }

  datatype ToolCall = ToolCall(id: string, name: string, arguments: string)
  datatype Message = Message(role: string, content: string, toolCallId: string, toolCalls: seq<ToolCall>)
  datatype ToolDefinition = ToolDefinition(name: string, description: string, parameters: string)
  datatype Request = Request(role: string, model: string, messages: seq<Message>, tools: seq<ToolDefinition>)

  datatype Breakdown = Breakdown(total: int, metadata: int, messages: int, historicalToolCalls: int, toolDefinitions: int)

  function Max(a: int, b: int): int { if a < b then b else a }

  lemma {:induction false} JoinOfConcat(a: seq<string>, b: seq<string>)
    ensures Join(a + b) == if a == [] then Join(b) else if b == [] then Join(a) else Join(a) + "\n" + Join(b)
  {
    if a == [] {
      assert a + b == b;
    } else if b == [] {
      assert a + b == a;
    } else {
      assert (a + b)[1..] == a[1..] + b;
      JoinOfConcat(a[1..], b);
      if |a| > 1 {
        assert Join(a) + "\n" + Join(b) == a[0] + "\n" + (Join(a[1..]) + "\n" + Join(b));
      }
    }
  }

  lemma {:induction false} JoinCost(a: seq<string>, b: seq<string>)
    ensures Cost(Join(a)) + Cost(Join(b)) <= Cost(Join(a + b)) <= Cost(Join(a)) + Cost(Join(b)) + 115
  {
    JoinOfConcat(a, b);
    if a != [] && b != [] {
      CostOfConcat(Join(a), "\n");
      CostOfConcat(Join(a) + "\n", Join(b));
    }
  }

  lemma CostIsBoundedByEstimate(s: string)
    ensures Cost(s) <= 350 * BillableTokenEstimate(s)
  {
    if s != "" { EstimateIsCeiling(s); }
  }

  /** Counting four lists together costs at least the dearest of them, and at most one token more than their sum. */
  lemma TotalIsBetween(a: seq<string>, b: seq<string>, c: seq<string>, d: seq<string>)
    ensures var total := EstimateMessages(a + b + c + d);
            && Max(Max(EstimateMessages(a), EstimateMessages(b)), Max(EstimateMessages(c), EstimateMessages(d))) <= total
            && total <= EstimateMessages(a) + EstimateMessages(b) + EstimateMessages(c) + EstimateMessages(d) + 1
  {
    JoinCost(a, b);
    JoinCost(a + b, c);
    JoinCost(a + b + c, d);
    var all := Join(a + b + c + d);
    EstimateFollowsCost(Join(a), all);
    EstimateFollowsCost(Join(b), all);
    EstimateFollowsCost(Join(c), all);
    EstimateFollowsCost(Join(d), all);
    CostIsBoundedByEstimate(Join(a));
    CostIsBoundedByEstimate(Join(b));
    CostIsBoundedByEstimate(Join(c));
    CostIsBoundedByEstimate(Join(d));
    if all != "" { EstimateIsCeiling(all); }
  }

  function CallParts(calls: seq<ToolCall>): seq<string> {
    if calls == [] then [] else
      CallParts(calls[..|calls| - 1]) +
      ["tool_call_id=" + calls[|calls| - 1].id, "tool_call_name=" + calls[|calls| - 1].name,
       "tool_call_arguments=" + calls[|calls| - 1].arguments]
  }

  function MessageParts(messages: seq<Message>): seq<string> {
    if messages == [] then [] else
      var m := messages[|messages| - 1];
      MessageParts(messages[..|messages| - 1]) +
      ["message_role=" + m.role, "message_content=" + m.content, "tool_call_id=" + m.toolCallId]
  }

  function HistoricalParts(messages: seq<Message>): seq<string> {
    if messages == [] then [] else
      HistoricalParts(messages[..|messages| - 1]) + CallParts(messages[|messages| - 1].toolCalls)
  }

  function ToolParts(tools: seq<ToolDefinition>): seq<string> {
    if tools == [] then [] else
      var t := tools[|tools| - 1];
      ToolParts(tools[..|tools| - 1]) +
      ["tool_name=" + t.name, "tool_description=" + t.description, "tool_parameters=" + t.parameters]
  }

  /** Each message gives its role, its content and the call it answers, at its own place. */
  lemma {:induction false} MessageIsCounted(messages: seq<Message>, i: nat)
    requires i < |messages|
    ensures |MessageParts(messages)| == 3 * |messages|
    ensures MessageParts(messages)[3 * i..3 * i + 3] ==
            ["message_role=" + messages[i].role, "message_content=" + messages[i].content, "tool_call_id=" + messages[i].toolCallId]
    decreases |messages|
  {
    var n := |messages| - 1;
    if i < n {
      MessageIsCounted(messages[..n], i);
    } else if n > 0 {
      MessageIsCounted(messages[..n], 0);
    }
  }

  lemma {:induction false} ToolIsCounted(tools: seq<ToolDefinition>, i: nat)
    requires i < |tools|
    ensures |ToolParts(tools)| == 3 * |tools|
    ensures ToolParts(tools)[3 * i..3 * i + 3] ==
            ["tool_name=" + tools[i].name, "tool_description=" + tools[i].description, "tool_parameters=" + tools[i].parameters]
    decreases |tools|
  {
    var n := |tools| - 1;
    if i < n {
      ToolIsCounted(tools[..n], i);
    } else if n > 0 {
      ToolIsCounted(tools[..n], 0);
    }
  }

  lemma {:induction false} CallIsCounted(calls: seq<ToolCall>, i: nat)
    requires i < |calls|
    ensures |CallParts(calls)| == 3 * |calls|
    ensures CallParts(calls)[3 * i..3 * i + 3] ==
            ["tool_call_id=" + calls[i].id, "tool_call_name=" + calls[i].name, "tool_call_arguments=" + calls[i].arguments]
    decreases |calls|
  {
    var n := |calls| - 1;
    if i < n {
      CallIsCounted(calls[..n], i);
    } else if n > 0 {
      CallIsCounted(calls[..n], 0);
    }
  }

  lemma {:induction false} HistoryGrows(messages: seq<Message>, m: Message)
    ensures HistoricalParts(messages + [m]) == HistoricalParts(messages) + CallParts(m.toolCalls)
  {
    assert (messages + [m])[..|messages|] == messages;
  }

  lemma Regroup<X>(a: seq<X>, b: seq<X>, c: seq<X>)
    ensures (a + b) + c == a + (b + c)
  {
  }

  /** The calls of every message are counted, in the order of the messages. */
  lemma {:induction false} HistoryIsCounted(front: seq<Message>, m: Message, back: seq<Message>)
    ensures HistoricalParts(front + [m] + back) == HistoricalParts(front) + CallParts(m.toolCalls) + HistoricalParts(back)
    decreases |back|
  {
    HistoryGrows(front, m);
    if back == [] {
      assert front + [m] + back == front + [m];
    } else {
      var rest, last := back[..|back| - 1], back[|back| - 1];
      HistoryIsCounted(front, m, rest);
      HistoryGrows(front + [m] + rest, last);
      assert back == rest + [last];
      Regroup(front + [m], rest, [last]);
      Regroup(HistoricalParts(front) + CallParts(m.toolCalls), HistoricalParts(rest), CallParts(last.toolCalls));
    }
  }

  /** `estimate_agent_request_breakdown`; the total counts every part once and stays near the sum. */
  method EstimateAgentRequestBreakdown(request: Request) returns (r: Breakdown)
    ensures r.total == EstimateMessages(["role=" + request.role, "model=" + request.model] + MessageParts(request.messages)
                                        + HistoricalParts(request.messages) + ToolParts(request.tools))
    ensures r.metadata == EstimateMessages(["role=" + request.role, "model=" + request.model])
    ensures r.messages == EstimateMessages(MessageParts(request.messages))
    ensures r.historicalToolCalls == EstimateMessages(HistoricalParts(request.messages))
    ensures r.toolDefinitions == EstimateMessages(ToolParts(request.tools))
    ensures Max(Max(r.metadata, r.messages), Max(r.historicalToolCalls, r.toolDefinitions)) <= r.total
    ensures r.total <= r.metadata + r.messages + r.historicalToolCalls + r.toolDefinitions + 1
    ensures r.total <= ContextWindowUnits(Join(["role=" + request.role, "model=" + request.model] + MessageParts(request.messages)
                                               + HistoricalParts(request.messages) + ToolParts(request.tools)))
  {
    var metadata := ["role=" + request.role, "model=" + request.model];
    var messageParts: seq<string>, historical: seq<string> := [], [];
    for i := 0 to |request.messages|
      invariant messageParts == MessageParts(request.messages[..i]) && historical == HistoricalParts(request.messages[..i])
    {
      var message := request.messages[i];
      assert request.messages[..i + 1][..i] == request.messages[..i];
      messageParts := messageParts +
        ["message_role=" + message.role, "message_content=" + message.content, "tool_call_id=" + message.toolCallId];
      ghost var before := historical;
      for j := 0 to |message.toolCalls|
        invariant historical == before + CallParts(message.toolCalls[..j])
      {
        var call := message.toolCalls[j];
        assert message.toolCalls[..j + 1][..j] == message.toolCalls[..j];
        historical := historical +
          ["tool_call_id=" + call.id, "tool_call_name=" + call.name, "tool_call_arguments=" + call.arguments];
      }
      assert message.toolCalls[..|message.toolCalls|] == message.toolCalls;
    }
    assert request.messages[..|request.messages|] == request.messages;
    var toolParts: seq<string> := [];
    for i := 0 to |request.tools|
      invariant toolParts == ToolParts(request.tools[..i])
    {
      var tool := request.tools[i];
      assert request.tools[..i + 1][..i] == request.tools[..i];
      toolParts := toolParts +
        ["tool_name=" + tool.name, "tool_description=" + tool.description, "tool_parameters=" + tool.parameters];
    }
    assert request.tools[..|request.tools|] == request.tools;
    TotalIsBetween(metadata, messageParts, historical, toolParts);
    EstimateIsBoundedByBytes(Join(metadata + messageParts + historical + toolParts));
    r := Breakdown(EstimateMessages(metadata + messageParts + historical + toolParts), EstimateMessages(metadata),
                   EstimateMessages(messageParts), EstimateMessages(historical), EstimateMessages(toolParts));
  }
}
