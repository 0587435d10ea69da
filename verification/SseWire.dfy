/**
  * The text `sse.py` sends and how a browser reads it: sections 9.2.4 to 9.2.6 of the WHATWG HTML Living Standard.
  * Payloads are JSON text, so they hold no raw line ends.
  */
module SseWire {
  import opened Decimals
  import opened EventStreams

  const SSE_RETRY_MILLISECONDS: nat := 2_000

  datatype Frame = Retry | Message(sequence: nat, payload: string) | Heartbeat(cursor: nat)

  predicate NoLineEnd(s: string) { forall i :: 0 <= i < |s| ==> s[i] != '\n' && s[i] != '\r' }

  predicate Clean(f: Frame) { f.Message? ==> NoLineEnd(f.payload) }

  /** The lines of a frame; an empty line closes it. */
  function FrameLines(f: Frame): seq<string> {
    match f
    case Retry => ["retry: " + Decimal(SSE_RETRY_MILLISECONDS)]
    case Message(sequence, payload) => ["id: " + Decimal(sequence), "data: " + payload]
    case Heartbeat(cursor) => [": heartbeat after_" + ("sequence=" + Decimal(cursor))]
  }

  function Joined(lines: seq<string>): string {
    if lines == [] then "" else lines[0] + "\n" + Joined(lines[1..])
  }

  function FrameText(f: Frame): string { Joined(FrameLines(f)) + "\n" }

  lemma {:induction false} LinesJoin(a: string, b: string)
    ensures Joined([a]) == a + "\n" && Joined([a, b]) == a + "\n" + b + "\n"
  {
    assert [a][1..] == [] && [b][1..] == [] && [a, b][1..] == [b];
  }

  /** The text of each frame, as the generator yields it. */
  lemma FramesAreWritten(f: Frame)
    ensures match f
            case Retry => FrameText(f) == "retry: " + Decimal(SSE_RETRY_MILLISECONDS) + "\n" + "\n"
            case Message(sequence, payload) => FrameText(f) == "id: " + Decimal(sequence) + "\n" + "data: " + payload + "\n" + "\n"
            case Heartbeat(cursor) => FrameText(f) == ": heartbeat after_" + "sequence=" + Decimal(cursor) + "\n" + "\n"
  {
    LinesJoin(FrameLines(f)[0], FrameLines(f)[|FrameLines(f)| - 1]);
    match f
    case Retry => assert FrameLines(f) == [FrameLines(f)[0]];
    case Message(sequence, payload) =>
      assert FrameLines(f) == [FrameLines(f)[0], FrameLines(f)[1]];
      assert ("id: " + Decimal(sequence)) + "\n" + ("data: " + payload) == "id: " + Decimal(sequence) + "\n" + "data: " + payload;
    case Heartbeat(cursor) =>
      assert FrameLines(f) == [FrameLines(f)[0]];
      assert ": heartbeat after_" + ("sequence=" + Decimal(cursor)) == ": heartbeat after_" + "sequence=" + Decimal(cursor);
  }

  function WireText(frames: seq<Frame>): string {
    if frames == [] then "" else WireText(frames[..|frames| - 1]) + FrameText(frames[|frames| - 1])
  }

  // ----- the reader of section 9.2.6

  datatype Dispatched = Dispatched(data: string, id: string)

  datatype Reader = Reader(
    line: string, afterCr: bool, data: string, idBuffer: string,
    lastEventId: string, reconnectMs: nat, events: seq<Dispatched>)

  function Colon(line: string): (n: nat)
    ensures n <= |line|
  {
    if line == "" || line[0] == ':' then 0 else 1 + Colon(line[1..])
  }

  function ProcessField(r: Reader, field: string, value: string): Reader {
    if field == "data" then r.(data := r.data + value + "\n")
    else if field == "id" then (if 0 as char in value then r else r.(idBuffer := value))
    else if field == "retry" then
      (if value != "" && forall i :: 0 <= i < |value| ==> IsDigit(value[i]) then r.(reconnectMs := ParseDecimal(value)) else r)
    else r
  }

  function Dispatch(r: Reader): Reader {
    if r.data == "" then r.(lastEventId := r.idBuffer)
    else r.(lastEventId := r.idBuffer, data := "", events := r.events + [Dispatched(r.data[..|r.data| - 1], r.idBuffer)])
  }

  function ProcessLine(r: Reader, line: string): Reader {
    if line == "" then Dispatch(r)
    else if line[0] == ':' then r
    else
      var k := Colon(line);
      if k == |line| then ProcessField(r, line, "")
      else
        var rest := line[k + 1..];
        ProcessField(r, line[..k], if rest != "" && rest[0] == ' ' then rest[1..] else rest)
  }

  /** One character: CR, LF and CRLF each end a line. */
  function Feed(r: Reader, c: char): Reader {
    if c == '\n' && r.afterCr then r.(afterCr := false)
    else if c == '\n' || c == '\r' then ProcessLine(r.(line := "", afterCr := c == '\r'), r.line)
    else r.(line := r.line + [c], afterCr := false)
  }

  function FeedAll(r: Reader, text: string): Reader
    decreases |text|
  {
    if text == "" then r else FeedAll(Feed(r, text[0]), text[1..])
  }

  /** Between frames: no partial line and no data. */
  predicate Idle(r: Reader) {
    r.line == "" && !r.afterCr && r.data == ""
  }

  // ----- reading frames

  lemma {:induction false} FeedAppends(r: Reader, a: string, b: string)
    ensures FeedAll(r, a + b) == FeedAll(FeedAll(r, a), b)
    decreases |a|
  {
    if a == "" {
      assert a + b == b;
    } else {
      FeedAppends(Feed(r, a[0]), a[1..], b);
      assert (a + b)[1..] == a[1..] + b;
    }
  }

  lemma {:induction false} FeedPartialLine(r: Reader, l: string)
    requires NoLineEnd(l) && !r.afterCr
    ensures FeedAll(r, l) == r.(line := r.line + l)
    decreases |l|
  {
    if l == "" {
      assert r.line + l == r.line;
    } else {
      FeedPartialLine(Feed(r, l[0]), l[1..]);
      assert r.line + [l[0]] + l[1..] == r.line + l;
    }
  }

  lemma {:induction false} FeedLine(r: Reader, l: string)
    requires NoLineEnd(l) && !r.afterCr && r.line == ""
    ensures FeedAll(r, l + "\n") == ProcessLine(r, l)
  {
    FeedAppends(r, l, "\n");
    FeedPartialLine(r, l);
    var r' := r.(line := l);
    assert r.line + l == l;
    assert FeedAll(r', "\n") == FeedAll(Feed(r', '\n'), "") == Feed(r', '\n');
    assert r'.(line := "", afterCr := false) == r;
  }

  lemma {:induction false} ColonIsAt(line: string, n: nat)
    requires n < |line| && line[n] == ':' && forall i :: 0 <= i < n ==> line[i] != ':'
    ensures Colon(line) == n
    decreases n
  {
    if n > 0 { ColonIsAt(line[1..], n - 1); }
  }

  lemma FieldLine(r: Reader, field: string, value: string)
    requires field != "" && forall i :: 0 <= i < |field| ==> field[i] != ':'
    ensures ProcessLine(r, field + ": " + value) == ProcessField(r, field, value)
  {
    var line := field + ": " + value;
    ColonIsAt(line, |field|);
    assert line[..|field|] == field;
    assert line[|field| + 1..] == " " + value;
    assert (" " + value)[1..] == value;
  }

  lemma {:induction false} DecimalIsClean(n: nat)
    ensures NoLineEnd(Decimal(n)) && 0 as char !in Decimal(n)
  {
  }

  lemma FrameLinesAreClean(f: Frame)
    requires Clean(f)
    ensures forall l | l in FrameLines(f) :: l != "" && NoLineEnd(l)
  {
    match f
    case Retry => DecimalIsClean(SSE_RETRY_MILLISECONDS);
    case Message(sequence, payload) => DecimalIsClean(sequence);
    case Heartbeat(cursor) =>
      DecimalIsClean(cursor);
      assert NoLineEnd(": heartbeat after_");
      assert NoLineEnd("sequence=" + Decimal(cursor));
  }

  ghost function Payload(f: Frame): seq<Dispatched> {
    if f.Message? then [Dispatched(f.payload, Decimal(f.sequence))] else []
  }

  /** The effect of one frame on an idle reader: its blank line makes the stream's id the last event id. */
  ghost function Received(r: Reader, f: Frame): Reader {
    match f
    case Retry => r.(reconnectMs := SSE_RETRY_MILLISECONDS, lastEventId := r.idBuffer)
    case Message(sequence, payload) =>
      r.(idBuffer := Decimal(sequence), lastEventId := Decimal(sequence), events := r.events + Payload(f))
    case Heartbeat(_) => r.(lastEventId := r.idBuffer)
  }

  lemma {:induction false} MessageIsRead(r: Reader, sequence: nat, payload: string)
    requires Idle(r)
    ensures ProcessLine(ProcessLine(ProcessLine(r, "id: " + Decimal(sequence)), "data: " + payload), "") ==
            Received(r, Message(sequence, payload))
  {
    var id := Decimal(sequence);
    DecimalIsClean(sequence);
    assert "id: " + id == "id" + ": " + id;
    FieldLine(r, "id", id);
    var r1 := r.(idBuffer := id);
    assert "data: " + payload == "data" + ": " + payload;
    FieldLine(r1, "data", payload);
    var data := "" + payload + "\n";
    assert data[..|data| - 1] == payload;
  }

  lemma RetryIsRead(r: Reader)
    requires Idle(r)
    ensures ProcessLine(ProcessLine(r, "retry: " + Decimal(SSE_RETRY_MILLISECONDS)), "") == Received(r, Retry)
  {
    var value := Decimal(SSE_RETRY_MILLISECONDS);
    assert "retry: " + value == "retry" + ": " + value;
    FieldLine(r, "retry", value);
    ParseInvertsDecimal(SSE_RETRY_MILLISECONDS);
  }

  lemma {:induction false} OneLineFrame(r: Reader, l: string)
    requires NoLineEnd(l) && !r.afterCr && r.line == ""
    requires ProcessLine(r, l).line == "" && !ProcessLine(r, l).afterCr
    ensures FeedAll(r, Joined([l]) + "\n") == ProcessLine(ProcessLine(r, l), "")
  {
    assert Joined([l]) == l + "\n" + Joined([]) == l + "\n";
    FeedAppends(r, l + "\n", "\n");
    FeedLine(r, l);
    FeedLine(ProcessLine(r, l), "");
    assert "" + "\n" == "\n";
  }

  lemma ProcessKeepsLine(r: Reader, l: string)
    ensures ProcessLine(r, l).line == r.line && ProcessLine(r, l).afterCr == r.afterCr
  {
  }

  lemma {:induction false} TwoLineFrame(r: Reader, l: string, m: string)
    requires NoLineEnd(l) && NoLineEnd(m) && !r.afterCr && r.line == ""
    ensures FeedAll(r, Joined([l, m]) + "\n") == ProcessLine(ProcessLine(ProcessLine(r, l), m), "")
  {
    ProcessKeepsLine(r, l);
    ProcessKeepsLine(ProcessLine(r, l), m);
    assert [l, m][1..] == [m];
    assert Joined([l, m]) + "\n" == (l + "\n") + (Joined([m]) + "\n");
    FeedAppends(r, l + "\n", Joined([m]) + "\n");
    FeedLine(r, l);
    OneLineFrame(ProcessLine(r, l), m);
  }

  lemma {:induction false} FrameIsRead(r: Reader, f: Frame)
    requires Idle(r) && Clean(f)
    ensures FeedAll(r, FrameText(f)) == Received(r, f) && Idle(Received(r, f))
  {
    FrameLinesAreClean(f);
    match f
    case Retry =>
      ProcessKeepsLine(r, FrameLines(f)[0]);
      OneLineFrame(r, FrameLines(f)[0]);
      RetryIsRead(r);
    case Message(sequence, payload) =>
      TwoLineFrame(r, FrameLines(f)[0], FrameLines(f)[1]);
      MessageIsRead(r, sequence, payload);
    case Heartbeat(_) =>
      assert FrameLines(f)[0][0] == ':';
      OneLineFrame(r, FrameLines(f)[0]);
  }

  ghost function Payloads(frames: seq<Frame>): seq<Dispatched> {
    if frames == [] then [] else Payloads(frames[..|frames| - 1]) + Payload(frames[|frames| - 1])
  }

  function LastId(dispatched: seq<Dispatched>, otherwise: string): string {
    if dispatched == [] then otherwise else dispatched[|dispatched| - 1].id
  }

  /** From `r` to `r'` the reader dispatched exactly these; the stream's id is that of the last. */
  ghost predicate ReadsAs(r: Reader, r': Reader, dispatched: seq<Dispatched>) {
    Idle(r') && r'.events == r.events + dispatched && r'.idBuffer == LastId(dispatched, r.idBuffer)
  }

  lemma {:induction false} ReadOn(r: Reader, mid: Reader, r': Reader, first: seq<Dispatched>, later: seq<Dispatched>)
    requires ReadsAs(r, mid, first) && ReadsAs(mid, r', later)
    ensures ReadsAs(r, r', first + later)
  {
    if later == [] { assert first + later == first; }
    assert r.events + first + later == r.events + (first + later);
  }

  /**
    * A browser gets exactly the messages sent, in order, each with its payload and the decimal of its sequence; once any
    * frame is complete, its last event id is what this stream's id buffer holds.
    */
  lemma {:induction false} WireIsRead(r: Reader, frames: seq<Frame>)
    requires Idle(r) && forall f | f in frames :: Clean(f)
    ensures var r' := FeedAll(r, WireText(frames));
            && ReadsAs(r, r', Payloads(frames))
            && r'.lastEventId == if frames == [] then r.lastEventId else r'.idBuffer
  {
    if frames == [] {
      assert r.events + [] == r.events;
    } else {
      var front, f := frames[..|frames| - 1], frames[|frames| - 1];
      var mid := FeedAll(r, WireText(front));
      WireIsRead(r, front);
      FeedAppends(r, WireText(front), FrameText(f));
      FrameIsRead(mid, f);
      FrameReads(mid, f);
      ReadOn(r, mid, Received(mid, f), Payloads(front), Payload(f));
    }
  }

  lemma {:induction false} FrameReads(r: Reader, f: Frame)
    requires Idle(r)
    ensures ReadsAs(r, Received(r, f), Payload(f)) && Received(r, f).lastEventId == Received(r, f).idBuffer
  {
    assert r.events + [] == r.events;
  }

  // ----- a stream cut anywhere

  /** Reading on from a partial line meets no blank line. */
  predicate NoBlankLine(line: string, text: string)
    decreases |text|
  {
    text == "" ||
    if text[0] == '\r' then false
    else if text[0] == '\n' then line != "" && NoBlankLine("", text[1..])
    else NoBlankLine(line + [text[0]], text[1..])
  }

  lemma {:induction false} OnlyBlankLinesDispatch(r: Reader, text: string)
    requires NoBlankLine(r.line, text) && !r.afterCr
    ensures var r' := FeedAll(r, text); r'.events == r.events && r'.lastEventId == r.lastEventId
    decreases |text|
  {
    if text != "" {
      if text[0] == '\n' { ProcessKeepsLine(r.(line := ""), r.line); }
      OnlyBlankLinesDispatch(Feed(r, text[0]), text[1..]);
    }
  }

  lemma {:induction false} NoBlankLineInPrefix(line: string, text: string, k: nat)
    requires NoBlankLine(line, text) && k <= |text|
    ensures NoBlankLine(line, text[..k])
    decreases |text|
  {
    if k > 0 {
      assert text[..k][1..] == text[1..][..k - 1];
      NoBlankLineInPrefix(if text[0] == '\n' then "" else line + [text[0]], text[1..], k - 1);
    }
  }

  lemma {:induction false} NoBlankLineInLine(line: string, l: string, rest: string)
    requires NoLineEnd(l) && line + l != "" && NoBlankLine("", rest)
    ensures NoBlankLine(line, l + "\n" + rest)
    decreases |l|
  {
    var text := l + "\n" + rest;
    if l == "" {
      assert text[0] == '\n' && text[1..] == rest;
    } else {
      assert text[0] == l[0] && text[1..] == l[1..] + "\n" + rest;
      assert line + [l[0]] + l[1..] == line + l;
      NoBlankLineInLine(line + [l[0]], l[1..], rest);
    }
  }

  lemma {:induction false} NoBlankLineInLines(lines: seq<string>)
    requires forall l | l in lines :: l != "" && NoLineEnd(l)
    ensures NoBlankLine("", Joined(lines))
  {
    if lines != [] {
      forall l | l in lines[1..] ensures l != "" && NoLineEnd(l) { assert l in lines; }
      NoBlankLineInLines(lines[1..]);
      assert "" + lines[0] == lines[0];
      NoBlankLineInLine("", lines[0], Joined(lines[1..]));
    }
  }

  /** What a connection lost in the middle of a frame has brought of it. */
  ghost predicate IsCut(text: string) {
    exists f, k: nat :: CutOf(text, f, k)
  }

  ghost predicate CutOf(text: string, f: Frame, k: nat) {
    Clean(f) && k < |FrameText(f)| && text == FrameText(f)[..k]
  }

  /** A connection lost in the middle of a frame leaves no trace of it in what was dispatched or remembered. */
  lemma {:induction false} CutLeavesNoTrace(r: Reader, text: string)
    requires Idle(r) && IsCut(text)
    ensures var r' := FeedAll(r, text); r'.events == r.events && r'.lastEventId == r.lastEventId
  {
    var f, k: nat :| CutOf(text, f, k);
    FrameLinesAreClean(f);
    NoBlankLineInLines(FrameLines(f));
    NoBlankLineInPrefix("", Joined(FrameLines(f)), k);
    assert FrameText(f)[..k] == Joined(FrameLines(f))[..k];
    OnlyBlankLinesDispatch(r, text);
  }

  // ----- one stream after another

  const FRESH := Reader("", false, "", "", "", 0, [])

  /** Section 9.2.6: each stream is parsed with empty buffers of its own; only the last event id stays. */
  function NewStream(r: Reader): Reader {
    r.(line := "", afterCr := false, data := "", idBuffer := "")
  }

  /** The complete frames of one connection, and the part of another it may end in. */
  datatype Stream = Stream(frames: seq<Frame>, rest: string)

  ghost predicate Sound(s: Stream) {
    (forall f | f in s.frames :: Clean(f)) && IsCut(s.rest)
  }

  /** The browser after all connections of its event source. */
  function Browse(streams: seq<Stream>): Reader {
    if streams == [] then FRESH
    else
      var last := streams[|streams| - 1];
      FeedAll(NewStream(Browse(streams[..|streams| - 1])), WireText(last.frames) + last.rest)
  }

  ghost function AllPayloads(streams: seq<Stream>): seq<Dispatched> {
    if streams == [] then [] else AllPayloads(streams[..|streams| - 1]) + Payloads(streams[|streams| - 1].frames)
  }

  /** Nothing was received yet, or the last connection that completed any frame completed a message. */
  ghost predicate HeaderKept(streams: seq<Stream>) {
    streams == [] ||
    var front, last := streams[..|streams| - 1], streams[|streams| - 1];
    if last.frames == [] then HeaderKept(front) else Payloads(last.frames) != [] || AllPayloads(front) == []
  }

  lemma {:induction false} StreamIsRead(r: Reader, s: Stream)
    requires Sound(s)
    ensures var r' := FeedAll(NewStream(r), WireText(s.frames) + s.rest);
            && r'.events == r.events + Payloads(s.frames)
            && r'.lastEventId == if s.frames == [] then r.lastEventId else LastId(Payloads(s.frames), "")
  {
    WireIsRead(NewStream(r), s.frames);
    FeedAppends(NewStream(r), WireText(s.frames), s.rest);
    CutLeavesNoTrace(FeedAll(NewStream(r), WireText(s.frames)), s.rest);
  }

  lemma {:induction false} PayloadsHaveIds(frames: seq<Frame>)
    ensures forall p | p in Payloads(frames) :: p.id != ""
  {
    if frames != [] { PayloadsHaveIds(frames[..|frames| - 1]); }
  }

  lemma {:induction false} AllPayloadsHaveIds(streams: seq<Stream>)
    ensures forall p | p in AllPayloads(streams) :: p.id != ""
  {
    if streams != [] {
      AllPayloadsHaveIds(streams[..|streams| - 1]);
      PayloadsHaveIds(streams[|streams| - 1].frames);
    }
  }

  lemma {:induction false} UnkeptMeansReceived(streams: seq<Stream>)
    requires !HeaderKept(streams)
    ensures AllPayloads(streams) != []
  {
    if streams[|streams| - 1].frames == [] { UnkeptMeansReceived(streams[..|streams| - 1]); }
  }

  /** Over any connections: everything is dispatched, and the header is the last id received or empty. */
  lemma {:induction false} StreamsAreRead(streams: seq<Stream>)
    requires forall s | s in streams :: Sound(s)
    ensures Browse(streams).events == AllPayloads(streams)
    ensures Browse(streams).lastEventId == if HeaderKept(streams) then LastId(AllPayloads(streams), "") else ""
  {
    if streams != [] {
      var front, last := streams[..|streams| - 1], streams[|streams| - 1];
      forall s | s in front ensures Sound(s) { assert s in streams; }
      assert last in streams;
      StreamsAreRead(front);
      StreamIsRead(Browse(front), last);
      if last.frames == [] { assert AllPayloads(front) + [] == AllPayloads(front); }
    }
  }

  /** The browser sends back the last id it received exactly when the header was kept. */
  lemma {:induction false} HeaderIsLastReceivedIff(streams: seq<Stream>)
    requires forall s | s in streams :: Sound(s)
    ensures Browse(streams).lastEventId == LastId(AllPayloads(streams), "") <==> HeaderKept(streams)
  {
    StreamsAreRead(streams);
    if !HeaderKept(streams) {
      UnkeptMeansReceived(streams);
      AllPayloadsHaveIds(streams);
    }
  }
}
