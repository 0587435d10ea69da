/** A browser's event source over any number of connections, while the log grows. */
module Reconnects {
  import opened Wrappers
  import opened Decimals
  import opened EventStreams
  import SseWire

  const BATCH_LIMIT: nat := 200

  datatype Server = Closed | Open(cursor: nat, pending: seq<Event>)

  /** What a connection carries; it opens with the retry frame. */
  datatype Item = Opening | Beat(cursor: nat) | Carry(event: Event)

  /** One connection as the browser had it: the cursor it resumed at, its complete items, and a part of one more. */
  datatype Stream = Stream(resumedAt: nat, items: seq<Item>, rest: string)

  /** `past` and `now`: all connections, the last one apart; `wire`: sent on it and not yet complete at the browser. */
  datatype World = World(
    runId: nat, start: nat, log: seq<Event>, server: Server, wire: seq<Item>, past: seq<Stream>, now: Stream)
  {
    function Streams(): seq<Stream> { past + [now] }

    /** Every event the browser ever dispatched. */
    function Received(): seq<Event> { AllEvents(Streams()) }

    /** The events the browser asked for. */
    function Wanted(): seq<Event> { After(log, start) }
  }

  datatype Action = Append(event: Event) | Connect | Emit | HeartBeat | Poll | Receive | Disconnect(cut: nat)

  function FrameOf(i: Item): SseWire.Frame {
    match i
    case Opening => SseWire.Retry
    case Beat(cursor) => SseWire.Heartbeat(cursor)
    case Carry(e) => SseWire.Message(e.sequence, e.payload)
  }

  function FramesOf(items: seq<Item>): seq<SseWire.Frame> {
    seq(|items|, i requires 0 <= i < |items| => FrameOf(items[i]))
  }

  function EventsOf(items: seq<Item>): seq<Event> {
    if items == [] then []
    else EventsOf(items[..|items| - 1]) + if items[|items| - 1].Carry? then [items[|items| - 1].event] else []
  }

  function AllEvents(streams: seq<Stream>): seq<Event> {
    if streams == [] then [] else AllEvents(streams[..|streams| - 1]) + EventsOf(streams[|streams| - 1].items)
  }

  function OnWire(streams: seq<Stream>): seq<SseWire.Stream> {
    seq(|streams|, i requires 0 <= i < |streams| => SseWire.Stream(FramesOf(streams[i].items), streams[i].rest))
  }

  /** The `Last-Event-ID` header, as the browser has it from everything it read. */
  function LastEventId(streams: seq<Stream>): Option<string> {
    var id := SseWire.Browse(OnWire(streams)).lastEventId;
    if id == "" then None else Some(id)
  }

  function StepAppend(w: World, e: Event): World {
    if e.runId == w.runId && SseWire.NoLineEnd(e.payload) && LastOr(w.log, 0) < e.sequence <= MAX_SEQUENCE_CURSOR
    then w.(log := w.log + [e]) else w
  }

  /** The request with its header; a stream is opened only on a valid first batch. */
  function StepConnect(w: World): World {
    var resolved := ResolveEventCursor(w.start, LastEventId(w.Streams()));
    if w.server.Open? || resolved.Err? then w
    else
      var initial := Read(w.log, resolved.value, BATCH_LIMIT);
      if !ValidBatch(initial, w.runId, resolved.value) then w
      else w.(server := Open(resolved.value, initial), wire := [Opening], past := w.Streams(), now := Stream(resolved.value, [], ""))
  }

  function StepEmit(w: World): World {
    if w.server.Closed? || w.server.pending == [] then w
    else
      var e := w.server.pending[0];
      if e.sequence <= w.server.cursor || !Encodable(e) then w.(server := Closed)
      else w.(server := Open(e.sequence, w.server.pending[1..]), wire := w.wire + [Carry(e)])
  }

  function StepHeartBeat(w: World): World {
    if w.server.Closed? || w.server.pending != [] then w else w.(wire := w.wire + [Beat(w.server.cursor)])
  }

  function StepPoll(w: World): World {
    if w.server.Closed? || w.server.pending != [] then w
    else
      var batch := Read(w.log, w.server.cursor, BATCH_LIMIT);
      if ValidBatch(batch, w.runId, w.server.cursor) then w.(server := w.server.(pending := batch)) else w.(server := Closed)
  }

  function StepReceive(w: World): World {
    if w.wire == [] then w else w.(wire := w.wire[1..], now := w.now.(items := w.now.items + [w.wire[0]]))
  }

  /** The connection is lost; of the next item the first `cut` characters may have come through. */
  function StepDisconnect(w: World, cut: nat): World {
    var lost := if w.wire == [] then "" else SseWire.FrameText(FrameOf(w.wire[0]));
    w.(server := Closed, wire := [], now := w.now.(rest := if cut < |lost| then lost[..cut] else w.now.rest))
  }

  function Apply(w: World, a: Action): World {
    match a
    case Append(e) => StepAppend(w, e)
    case Connect => StepConnect(w)
    case Emit => StepEmit(w)
    case HeartBeat => StepHeartBeat(w)
    case Poll => StepPoll(w)
    case Receive => StepReceive(w)
    case Disconnect(cut) => StepDisconnect(w, cut)
  }

  function Run(w: World, actions: seq<Action>): World {
    if actions == [] then w else Apply(Run(w, actions[..|actions| - 1]), actions[|actions| - 1])
  }

  predicate Start(w: World) {
    w.log == [] && w.server.Closed? && w.wire == [] && w.past == [] && w.now == Stream(w.start, [], "")
    && w.start <= MAX_SEQUENCE_CURSOR
  }

  // ----- what the browser sends back

  /** Nothing received yet, or the last connection that completed anything completed an event. */
  ghost predicate HeaderKept(streams: seq<Stream>) {
    streams == [] ||
    var front, last := streams[..|streams| - 1], streams[|streams| - 1];
    if last.items == [] then HeaderKept(front) else EventsOf(last.items) != [] || AllEvents(front) == []
  }

  function Told(events: seq<Event>): seq<SseWire.Dispatched> {
    seq(|events|, i requires 0 <= i < |events| => SseWire.Dispatched(events[i].payload, Decimal(events[i].sequence)))
  }

  ghost predicate Tellable(events: seq<Event>) {
    forall e | e in events :: Encodable(e) && SseWire.NoLineEnd(e.payload)
  }

  ghost predicate Legible(s: Stream) { Tellable(EventsOf(s.items)) && SseWire.IsCut(s.rest) }

  lemma {:induction false} ItemsAreTold(items: seq<Item>)
    requires Tellable(EventsOf(items))
    ensures SseWire.Payloads(FramesOf(items)) == Told(EventsOf(items))
    ensures forall f | f in FramesOf(items) :: SseWire.Clean(f)
  {
    if items != [] {
      var front, last := items[..|items| - 1], items[|items| - 1];
      assert forall e | e in EventsOf(front) :: e in EventsOf(items);
      ItemsAreTold(front);
      assert FramesOf(items) == FramesOf(front) + [FrameOf(last)];
      assert FramesOf(items)[..|items| - 1] == FramesOf(front);
      if last.Carry? { assert last.event in EventsOf(items); }
    }
  }

  lemma {:induction false} OnWireStep(streams: seq<Stream>)
    requires streams != []
    ensures var front, last := streams[..|streams| - 1], streams[|streams| - 1];
            && OnWire(streams)[..|streams| - 1] == OnWire(front)
            && OnWire(streams)[|streams| - 1] == SseWire.Stream(FramesOf(last.items), last.rest)
  {
  }

  lemma {:induction false} LegibleIsSound(streams: seq<Stream>)
    requires forall s | s in streams :: Legible(s)
    ensures forall s | s in OnWire(streams) :: SseWire.Sound(s)
  {
    forall i | 0 <= i < |streams| ensures SseWire.Sound(OnWire(streams)[i]) {
      assert streams[i] in streams;
      ItemsAreTold(streams[i].items);
    }
  }

  lemma {:induction false} ToldOfConcat(a: seq<Event>, b: seq<Event>)
    ensures Told(a + b) == Told(a) + Told(b)
  {
  }

  lemma {:induction false} StreamsAreTold(streams: seq<Stream>)
    requires forall s | s in streams :: Legible(s)
    ensures SseWire.AllPayloads(OnWire(streams)) == Told(AllEvents(streams))
  {
    if streams != [] {
      var front, last := streams[..|streams| - 1], streams[|streams| - 1];
      forall s | s in front ensures Legible(s) { assert s in streams; }
      assert last in streams;
      StreamsAreTold(front);
      ItemsAreTold(last.items);
      OnWireStep(streams);
      ToldOfConcat(AllEvents(front), EventsOf(last.items));
    }
  }

  lemma {:induction false} KeptAlike(streams: seq<Stream>)
    requires forall s | s in streams :: Legible(s)
    ensures SseWire.HeaderKept(OnWire(streams)) <==> HeaderKept(streams)
  {
    if streams != [] {
      var front, last := streams[..|streams| - 1], streams[|streams| - 1];
      forall s | s in front ensures Legible(s) { assert s in streams; }
      assert last in streams;
      KeptAlike(front);
      StreamsAreTold(front);
      ItemsAreTold(last.items);
      OnWireStep(streams);
    }
  }

  lemma {:induction false} UnkeptMeansReceived(streams: seq<Stream>)
    requires !HeaderKept(streams)
    ensures AllEvents(streams) != []
  {
    if streams[|streams| - 1].items == [] { UnkeptMeansReceived(streams[..|streams| - 1]); }
  }

  /** Where the next connection resumes: behind the last event received, or, with the header lost, at the start again. */
  ghost function ResumesAt(streams: seq<Stream>, start: nat): nat {
    if HeaderKept(streams) then LastOr(AllEvents(streams), start) else start
  }

  lemma {:induction false} LastTold(events: seq<Event>)
    ensures SseWire.LastId(Told(events), "") == if events == [] then "" else Decimal(LastOr(events, 0))
  {
  }

  lemma {:induction false} HeaderIs(streams: seq<Stream>)
    requires forall s | s in streams :: Legible(s)
    ensures LastEventId(streams) ==
            if HeaderKept(streams) && AllEvents(streams) != [] then Some(Decimal(LastOr(AllEvents(streams), 0))) else None
  {
    var wire := OnWire(streams);
    LegibleIsSound(streams);
    StreamsAreTold(streams);
    KeptAlike(streams);
    SseWire.StreamsAreRead(wire);
    LastTold(AllEvents(streams));
    assert SseWire.Browse(wire).lastEventId == if HeaderKept(streams) then SseWire.LastId(Told(AllEvents(streams)), "") else "";
  }

  /** The browser sends back the id of the last event received exactly when the header was kept; otherwise it sends none. */
  lemma {:induction false} HeaderIsLastReceivedIff(streams: seq<Stream>)
    requires forall s | s in streams :: Legible(s)
    ensures LastEventId(streams) == (if AllEvents(streams) == [] then None else Some(Decimal(LastOr(AllEvents(streams), 0)))) <==>
            HeaderKept(streams)
    ensures !HeaderKept(streams) ==> LastEventId(streams) == None
  {
    HeaderIs(streams);
    if !HeaderKept(streams) { UnkeptMeansReceived(streams); }
  }

  lemma {:induction false} ConnectionResumes(streams: seq<Stream>, start: nat)
    requires (forall s | s in streams :: Legible(s)) && start <= MAX_SEQUENCE_CURSOR
    requires forall e | e in AllEvents(streams) :: start < e.sequence <= MAX_SEQUENCE_CURSOR
    ensures ResolveEventCursor(start, LastEventId(streams)) == Ok(ResumesAt(streams, start))
  {
    HeaderIs(streams);
    var events := AllEvents(streams);
    if events != [] {
      assert events[|events| - 1] in events;
      ResumeIsRoundTrip(start, events[|events| - 1].sequence);
    }
  }

  // ----- the invariant

  /** A connection brought a gapless front part of the log beyond the cursor it resumed at. */
  ghost predicate StreamOk(log: seq<Event>, start: nat, before: seq<Stream>, s: Stream) {
    s.resumedAt == ResumesAt(before, start) && EventsOf(s.items) <= After(log, s.resumedAt) && Legible(s)
  }

  ghost predicate StreamsOk(log: seq<Event>, start: nat, streams: seq<Stream>) {
    streams == [] ||
    var front, last := streams[..|streams| - 1], streams[|streams| - 1];
    StreamsOk(log, start, front) && StreamOk(log, start, front, last)
  }

  ghost predicate LogOk(log: seq<Event>, runId: nat) {
    ValidLog(log, runId) && forall e | e in log :: SseWire.NoLineEnd(e.payload)
  }

  /** Sent, then pending: one gapless front part of what the connection is for. */
  ghost predicate Flows(log: seq<Event>, runId: nat, resumedAt: nat, sent: seq<Event>, server: Server) {
    && sent <= After(log, resumedAt) && Tellable(sent)
    && (server.Open? ==>
          && sent + server.pending <= After(log, resumedAt)
          && server.cursor == LastOr(sent, resumedAt)
          && ValidBatch(server.pending, runId, server.cursor))
  }

  ghost predicate Inv(w: World) {
    && w.start <= MAX_SEQUENCE_CURSOR && LogOk(w.log, w.runId)
    && StreamsOk(w.log, w.start, w.past) && StreamOk(w.log, w.start, w.past, w.now)
    && Flows(w.log, w.runId, w.now.resumedAt, Sent(w), w.server)
  }

  /** The events sent on the current connection. */
  ghost function Sent(w: World): seq<Event> { EventsOf(w.now.items + w.wire) }

  lemma {:induction false} EventsOfConcat(a: seq<Item>, b: seq<Item>)
    ensures EventsOf(a + b) == EventsOf(a) + EventsOf(b)
  {
    if b == [] {
      assert a + b == a;
    } else {
      EventsOfConcat(a, b[..|b| - 1]);
      assert (a + b)[..|a + b| - 1] == a + b[..|b| - 1];
    }
  }

  lemma {:induction false} StreamsOkAppend(log: seq<Event>, start: nat, past: seq<Stream>, now: Stream)
    ensures StreamsOk(log, start, past + [now]) <==> StreamsOk(log, start, past) && StreamOk(log, start, past, now)
  {
    assert (past + [now])[..|past|] == past;
  }

  lemma {:induction false} WantedGrows(log: seq<Event>, runId: nat, e: Event, cursor: nat)
    requires ValidLog(log + [e], runId)
    ensures After(log, cursor) <= After(log + [e], cursor)
  {
    var longer := log + [e];
    assert ValidLog(log, runId) by {
      forall i | 0 <= i < |log| ensures log[i].runId == runId && 1 <= log[i].sequence <= MAX_SEQUENCE_CURSOR { assert longer[i] == log[i]; }
      forall i, j | 0 <= i < j < |log| ensures log[i].sequence < log[j].sequence { assert longer[i] == log[i] && longer[j] == log[j]; }
    }
    PassedIsExact(log, runId, cursor);
    PassedIsExact(longer, runId, cursor);
    var p := Passed(log, cursor);
    if p < |log| {
      assert longer[p] == log[p];
      PassedIsUnique(longer, runId, cursor, p);
    }
  }

  lemma {:induction false} StreamsOkGrow(log: seq<Event>, runId: nat, e: Event, start: nat, streams: seq<Stream>)
    requires ValidLog(log + [e], runId) && StreamsOk(log, start, streams)
    ensures StreamsOk(log + [e], start, streams)
  {
    if streams != [] {
      StreamsOkGrow(log, runId, e, start, streams[..|streams| - 1]);
      WantedGrows(log, runId, e, streams[|streams| - 1].resumedAt);
    }
  }

  /** Whatever was received is in the log beyond the start cursor, in every connection. */
  lemma {:induction false} ReceivedIsLogged(log: seq<Event>, runId: nat, start: nat, streams: seq<Stream>)
    requires ValidLog(log, runId) && StreamsOk(log, start, streams)
    ensures forall e | e in AllEvents(streams) :: e in After(log, start) && e in log && start < e.sequence <= MAX_SEQUENCE_CURSOR
    ensures forall s | s in streams :: Legible(s)
    ensures Tellable(AllEvents(streams)) && ResumesAt(streams, start) >= start
  {
    if streams != [] {
      var front, last := streams[..|streams| - 1], streams[|streams| - 1];
      ReceivedIsLogged(log, runId, start, front);
      forall e | e in EventsOf(last.items) ensures e in After(log, start) && e in log && start < e.sequence <= MAX_SEQUENCE_CURSOR {
        FrontIsLogged(log, runId, start, last.resumedAt, EventsOf(last.items), e);
      }
      forall s | s in streams ensures Legible(s) { assert s in front || s == last; }
    }
    var events := AllEvents(streams);
    if events != [] { assert events[|events| - 1] in events; }
  }

  lemma {:induction false} FrontIsLogged(log: seq<Event>, runId: nat, start: nat, cursor: nat, front: seq<Event>, e: Event)
    requires ValidLog(log, runId) && start <= cursor && front <= After(log, cursor) && e in front
    ensures e in After(log, start) && e in log && start < e.sequence <= MAX_SEQUENCE_CURSOR
  {
    PassedIsExact(log, runId, start);
    PassedIsExact(log, runId, cursor);
    var i :| 0 <= i < |front| && front[i] == e;
    var n := Passed(log, cursor) + i;
    assert front[i] == After(log, cursor)[i] == log[n];
    assert After(log, start)[n - Passed(log, start)] == e;
  }

  function CursorAt(log: seq<Event>, start: nat, k: nat): nat
    requires k <= |After(log, start)|
  {
    if k == 0 then start else log[Passed(log, start) + k - 1].sequence
  }

  /** The cursor behind the first `k` events after `start` reads on from there. */
  lemma {:induction false} ReadsOn(log: seq<Event>, runId: nat, start: nat, k: nat, limit: nat)
    requires ValidLog(log, runId) && k <= |After(log, start)|
    ensures After(log, CursorAt(log, start, k)) == After(log, start)[k..]
    ensures After(log, start)[..k] + Read(log, CursorAt(log, start, k), limit) <= After(log, start)
  {
    CursorHasPassed(log, runId, start, k);
    assert log[Passed(log, start) + k..] == After(log, start)[k..];
  }

  lemma {:induction false} CursorHasPassed(log: seq<Event>, runId: nat, start: nat, k: nat)
    requires ValidLog(log, runId) && k <= |After(log, start)|
    ensures Passed(log, CursorAt(log, start, k)) == Passed(log, start) + k
  {
    PassedIsExact(log, runId, start);
    PassedIsUnique(log, runId, CursorAt(log, start, k), Passed(log, start) + k);
  }

  /** Reading beyond the last event of a front part continues it without gap. */
  lemma {:induction false} ReadContinues(log: seq<Event>, runId: nat, start: nat, front: seq<Event>, limit: nat)
    requires ValidLog(log, runId) && front <= After(log, start)
    ensures After(log, LastOr(front, start)) == After(log, start)[|front|..]
    ensures front + Read(log, LastOr(front, start), limit) <= After(log, start)
  {
    assert front == After(log, start)[..|front|];
    assert LastOr(front, start) == CursorAt(log, start, |front|);
    ReadsOn(log, runId, start, |front|, limit);
  }

  // ----- every step keeps it

  lemma NothingIsCut()
    ensures SseWire.IsCut("")
  {
    assert SseWire.CutOf("", SseWire.Retry, 0) by { assert |SseWire.FrameText(SseWire.Retry)| > 0; }
  }

  lemma {:induction false} FlowStarts(log: seq<Event>, runId: nat, cursor: nat)
    requires ValidLog(log, runId) && ValidBatch(Read(log, cursor, BATCH_LIMIT), runId, cursor)
    ensures Flows(log, runId, cursor, [], Open(cursor, Read(log, cursor, BATCH_LIMIT)))
  {
    var initial := Read(log, cursor, BATCH_LIMIT);
    assert [] + initial == initial;
  }

  lemma {:induction false} OpeningIsSound(log: seq<Event>, runId: nat, start: nat, streams: seq<Stream>)
    requires ValidLog(log, runId)
    requires var cursor := ResumesAt(streams, start); ValidBatch(Read(log, cursor, BATCH_LIMIT), runId, cursor)
    ensures var cursor := ResumesAt(streams, start);
            && StreamOk(log, start, streams, Stream(cursor, [], ""))
            && Flows(log, runId, cursor, EventsOf([] + [Opening]), Open(cursor, Read(log, cursor, BATCH_LIMIT)))
  {
    NothingIsCut();
    FlowStarts(log, runId, ResumesAt(streams, start));
    assert [] + [Opening] == [Opening] && [Opening][..0] == [];
  }

  lemma {:induction false} ConnectKeepsInv(w: World)
    requires Inv(w)
    ensures Inv(StepConnect(w))
  {
    if w.server.Closed? {
      var w', streams := StepConnect(w), w.Streams();
      StreamsOkAppend(w.log, w.start, w.past, w.now);
      ReceivedIsLogged(w.log, w.runId, w.start, streams);
      ConnectionResumes(streams, w.start);
      if w' != w { OpeningIsSound(w.log, w.runId, w.start, streams); }
    }
  }

  lemma {:induction false} TellableAt(log: seq<Event>, runId: nat, cursor: nat, e: Event)
    requires LogOk(log, runId) && e in After(log, cursor)
    ensures SseWire.NoLineEnd(e.payload)
  {
    var i :| 0 <= i < |After(log, cursor)| && After(log, cursor)[i] == e;
    assert log[Passed(log, cursor) + i] == e;
  }

  lemma {:induction false} NextOfFront(sent: seq<Event>, pending: seq<Event>, wanted: seq<Event>)
    requires pending != [] && sent + pending <= wanted
    ensures sent + [pending[0]] <= wanted && sent + [pending[0]] + pending[1..] <= wanted && pending[0] in wanted
  {
    var all := sent + pending;
    assert all[|sent|] == pending[0] == wanted[|sent|];
    assert sent + [pending[0]] + pending[1..] == all;
    assert sent + [pending[0]] == all[..|sent| + 1];
  }

  lemma {:induction false} FlowEmits(log: seq<Event>, runId: nat, resumedAt: nat, sent: seq<Event>, server: Server)
    requires LogOk(log, runId) && Flows(log, runId, resumedAt, sent, server)
    requires server.Open? && server.pending != [] && Encodable(server.pending[0])
    ensures Flows(log, runId, resumedAt, sent + [server.pending[0]], Open(server.pending[0].sequence, server.pending[1..]))
  {
    NextOfFront(sent, server.pending, After(log, resumedAt));
    TellableAt(log, runId, resumedAt, server.pending[0]);
  }

  lemma {:induction false} SentOneMore(items: seq<Item>, wire: seq<Item>, item: Item)
    ensures EventsOf(items + (wire + [item])) == EventsOf(items + wire) + if item.Carry? then [item.event] else []
  {
    var all := items + wire;
    assert items + (wire + [item]) == all + [item];
    assert (all + [item])[..|all|] == all;
  }

  lemma {:induction false} EmitKeepsInv(w: World)
    requires Inv(w)
    ensures Inv(StepEmit(w))
  {
    if w.server.Open? && w.server.pending != [] && Encodable(w.server.pending[0]) {
      SentOneMore(w.now.items, w.wire, Carry(w.server.pending[0]));
      FlowEmits(w.log, w.runId, w.now.resumedAt, Sent(w), w.server);
    }
  }

  lemma {:induction false} HeartBeatKeepsInv(w: World)
    requires Inv(w)
    ensures Inv(StepHeartBeat(w))
  {
    if w.server.Open? {
      SentOneMore(w.now.items, w.wire, Beat(w.server.cursor));
      assert Sent(w) + [] == Sent(w);
    }
  }

  lemma {:induction false} FlowPolls(log: seq<Event>, runId: nat, resumedAt: nat, sent: seq<Event>, server: Server)
    requires ValidLog(log, runId) && Flows(log, runId, resumedAt, sent, server) && server.Open? && server.pending == []
    requires ValidBatch(Read(log, server.cursor, BATCH_LIMIT), runId, server.cursor)
    ensures Flows(log, runId, resumedAt, sent, server.(pending := Read(log, server.cursor, BATCH_LIMIT)))
  {
    ReadContinues(log, runId, resumedAt, sent, BATCH_LIMIT);
  }

  lemma {:induction false} PollKeepsInv(w: World)
    requires Inv(w)
    ensures Inv(StepPoll(w))
  {
    if w.server.Open? && w.server.pending == [] {
      if ValidBatch(Read(w.log, w.server.cursor, BATCH_LIMIT), w.runId, w.server.cursor) {
        FlowPolls(w.log, w.runId, w.now.resumedAt, Sent(w), w.server);
      }
    }
  }

  /** Of what was sent, a front part is complete at the browser. */
  lemma {:induction false} CompleteIsFront(log: seq<Event>, runId: nat, resumedAt: nat, items: seq<Item>, wire: seq<Item>, server: Server)
    requires Flows(log, runId, resumedAt, EventsOf(items + wire), server)
    ensures EventsOf(items) <= EventsOf(items + wire) && Tellable(EventsOf(items))
    ensures Flows(log, runId, resumedAt, EventsOf(items), Closed)
  {
    EventsOfConcat(items, wire);
    assert forall e | e in EventsOf(items) :: e in EventsOf(items + wire);
  }

  lemma {:induction false} ReceiveKeepsInv(w: World)
    requires Inv(w)
    ensures Inv(StepReceive(w))
  {
    if w.wire != [] {
      var w' := StepReceive(w);
      MovedItem(w.now.items, w.wire);
      CompleteIsFront(w.log, w.runId, w.now.resumedAt, w'.now.items, w'.wire, w.server);
      NowChanges(w, w');
    }
  }

  lemma {:induction false} MovedItem(items: seq<Item>, wire: seq<Item>)
    requires wire != []
    ensures items + [wire[0]] + wire[1..] == items + wire
  {
  }

  lemma {:induction false} NowChanges(w: World, w': World)
    requires Inv(w) && w' == w.(server := w'.server, wire := w'.wire, now := w'.now) && w'.now.resumedAt == w.now.resumedAt
    requires EventsOf(w'.now.items) <= After(w.log, w.now.resumedAt) && Legible(w'.now)
    requires Flows(w.log, w.runId, w.now.resumedAt, Sent(w'), w'.server)
    ensures Inv(w')
  {
  }

  lemma {:induction false} LogGrows(log: seq<Event>, runId: nat, e: Event)
    requires LogOk(log, runId) && e.runId == runId && SseWire.NoLineEnd(e.payload) && LastOr(log, 0) < e.sequence <= MAX_SEQUENCE_CURSOR
    ensures LogOk(log + [e], runId)
  {
  }

  lemma {:induction false} FlowGrows(log: seq<Event>, runId: nat, e: Event, resumedAt: nat, sent: seq<Event>, server: Server)
    requires LogOk(log + [e], runId) && Flows(log, runId, resumedAt, sent, server)
    ensures Flows(log + [e], runId, resumedAt, sent, server)
  {
    WantedGrows(log, runId, e, resumedAt);
  }

  lemma {:induction false} AppendKeepsInv(w: World, e: Event)
    requires Inv(w)
    ensures Inv(StepAppend(w, e))
  {
    if StepAppend(w, e) != w {
      LogGrows(w.log, w.runId, e);
      StreamsOkGrow(w.log, w.runId, e, w.start, w.past);
      WantedGrows(w.log, w.runId, e, w.now.resumedAt);
      FlowGrows(w.log, w.runId, e, w.now.resumedAt, Sent(w), w.server);
    }
  }

  lemma {:induction false} LostIsCut(items: seq<Item>, wire: seq<Item>, cut: nat)
    requires wire != [] && Tellable(EventsOf(items + wire)) && cut < |SseWire.FrameText(FrameOf(wire[0]))|
    ensures SseWire.IsCut(SseWire.FrameText(FrameOf(wire[0]))[..cut])
  {
    var f := FrameOf(wire[0]);
    if wire[0].Carry? {
      var more := items + [wire[0]];
      assert more + wire[1..] == items + wire;
      EventsOfConcat(more, wire[1..]);
      assert more[..|items|] == items;
      assert EventsOf(more)[|EventsOf(items)|] == wire[0].event;
      assert EventsOf(items + wire)[|EventsOf(items)|] == wire[0].event;
    }
    assert SseWire.CutOf(SseWire.FrameText(f)[..cut], f, cut);
  }

  lemma {:induction false} DisconnectKeepsFlows(w: World, cut: nat)
    requires Inv(w)
    ensures var w' := StepDisconnect(w, cut); Flows(w'.log, w'.runId, w'.now.resumedAt, Sent(w'), w'.server)
  {
    CompleteIsFront(w.log, w.runId, w.now.resumedAt, w.now.items, w.wire, w.server);
    assert w.now.items + [] == w.now.items;
  }

  lemma {:induction false} DisconnectKeepsStream(w: World, cut: nat)
    requires Inv(w)
    ensures var w' := StepDisconnect(w, cut); StreamOk(w'.log, w'.start, w'.past, w'.now)
  {
    CompleteIsFront(w.log, w.runId, w.now.resumedAt, w.now.items, w.wire, w.server);
    if w.wire != [] && cut < |SseWire.FrameText(FrameOf(w.wire[0]))| { LostIsCut(w.now.items, w.wire, cut); }
  }

  lemma {:induction false} DisconnectKeepsInv(w: World, cut: nat)
    requires Inv(w)
    ensures Inv(StepDisconnect(w, cut))
  {
    DisconnectKeepsFlows(w, cut);
    DisconnectKeepsStream(w, cut);
  }

  lemma {:induction false} StepKeepsStart(w: World, a: Action)
    ensures Apply(w, a).start == w.start && Apply(w, a).runId == w.runId
  {
  }

  lemma {:induction false} StepKeepsInv(w: World, a: Action)
    requires Inv(w)
    ensures Inv(Apply(w, a))
  {
    match a
    case Append(e) => AppendKeepsInv(w, e);
    case Connect => ConnectKeepsInv(w);
    case Emit => EmitKeepsInv(w);
    case HeartBeat => HeartBeatKeepsInv(w);
    case Poll => PollKeepsInv(w);
    case Receive => ReceiveKeepsInv(w);
    case Disconnect(cut) => DisconnectKeepsInv(w, cut);
  }

  lemma {:induction false} StartIsSound(w: World)
    requires Start(w)
    ensures Inv(w)
  {
    assert w.now.items + w.wire == [];
    NothingIsCut();
  }

  /** Every run keeps the invariant, for the run and start cursor it began with. */
  lemma {:induction false} EveryReachableWorldIsSound(w: World, actions: seq<Action>)
    requires Start(w)
    ensures Inv(Run(w, actions)) && Run(w, actions).start == w.start && Run(w, actions).runId == w.runId
  {
    if actions == [] {
      StartIsSound(w);
    } else {
      EveryReachableWorldIsSound(w, actions[..|actions| - 1]);
      StepKeepsInv(Run(w, actions[..|actions| - 1]), actions[|actions| - 1]);
      StepKeepsStart(Run(w, actions[..|actions| - 1]), actions[|actions| - 1]);
    }
  }

  // ----- what the browser got

  /** Every connection that brought an event resumed behind the last event received before it. */
  ghost predicate Resumed(streams: seq<Stream>) {
    streams == [] ||
    var front, last := streams[..|streams| - 1], streams[|streams| - 1];
    Resumed(front) && (EventsOf(last.items) == [] || HeaderKept(front))
  }

  lemma {:induction false} JoinFronts(a: seq<Event>, b: seq<Event>, wanted: seq<Event>)
    requires a <= wanted && b <= wanted[|a|..]
    ensures a + b <= wanted
  {
  }

  lemma {:induction false} ReplayIsNoFront(log: seq<Event>, runId: nat, start: nat, a: seq<Event>, b: seq<Event>)
    requires ValidLog(log, runId) && a != [] && b != [] && a <= After(log, start) && b <= After(log, start)
    ensures !(a + b <= After(log, start))
  {
    var wanted, p := After(log, start), Passed(log, start);
    assert (a + b)[|a|] == b[0] == wanted[0] == log[p];
    if |a| < |wanted| { assert wanted[|a|] == log[p + |a|] && log[p].sequence < log[p + |a|].sequence; }
  }

  /** What was received over all connections is a gapless front part of what was wanted exactly when all resumed. */
  lemma {:induction false} ExactlyOnceIff(log: seq<Event>, runId: nat, start: nat, streams: seq<Stream>)
    requires ValidLog(log, runId) && StreamsOk(log, start, streams)
    ensures AllEvents(streams) <= After(log, start) <==> Resumed(streams)
  {
    if streams != [] {
      var front, last := streams[..|streams| - 1], streams[|streams| - 1];
      var before, events := AllEvents(front), EventsOf(last.items);
      ExactlyOnceIff(log, runId, start, front);
      assert before <= before + events;
      if Resumed(front) {
        if events == [] {
          assert before + events == before;
        } else if HeaderKept(front) {
          ReadContinues(log, runId, start, before, 0);
          JoinFronts(before, events, After(log, start));
        } else {
          UnkeptMeansReceived(front);
          ReplayIsNoFront(log, runId, start, before, events);
        }
      }
    }
  }

  lemma {:induction false} FrontIsIncreasing(log: seq<Event>, runId: nat, start: nat, front: seq<Event>)
    requires ValidLog(log, runId) && front <= After(log, start)
    ensures forall i, j :: 0 <= i < j < |front| ==> front[i].sequence < front[j].sequence
  {
    var p := Passed(log, start);
    forall i | 0 <= i < |front| ensures front[i] == log[p + i] { assert front[i] == After(log, start)[i]; }
  }

  /**
    * Exactly once and in order: what was received is the log from the start cursor on, up to some point, if and only if
    * no connection brought events after the header had been lost. Whatever happens, every event received is wanted.
    */
  lemma {:induction false} DeliveredExactlyOnce(w: World, actions: seq<Action>)
    requires Start(w)
    ensures var w' := Run(w, actions);
            && (w'.Received() <= After(w'.log, w.start) <==> Resumed(w'.Streams()))
            && (Resumed(w'.Streams()) ==>
                  forall i, j :: 0 <= i < j < |w'.Received()| ==> w'.Received()[i].sequence < w'.Received()[j].sequence)
            && (forall e | e in w'.Received() :: e in w'.log && e.sequence > w.start && Encodable(e))
  {
    EveryReachableWorldIsSound(w, actions);
    var w' := Run(w, actions);
    StreamsOkAppend(w'.log, w'.start, w'.past, w'.now);
    ExactlyOnceIff(w'.log, w'.runId, w'.start, w'.Streams());
    ReceivedIsLogged(w'.log, w'.runId, w'.start, w'.Streams());
    if Resumed(w'.Streams()) { FrontIsIncreasing(w'.log, w'.runId, w'.start, w'.Received()); }
  }

  /** Where the next connection resumes lies inside what was received. */
  lemma {:induction false} ResumesInside(log: seq<Event>, runId: nat, start: nat, streams: seq<Stream>, k: nat)
    requires ValidLog(log, runId) && k <= |After(log, start)| && forall e | e in AllEvents(streams) :: e in After(log, start)[..k]
    ensures var cursor := ResumesAt(streams, start); Passed(log, start) <= Passed(log, cursor) <= Passed(log, start) + k
  {
    var events := AllEvents(streams);
    if HeaderKept(streams) && events != [] {
      var e := events[|events| - 1];
      assert e in events;
      var j :| 0 <= j < k && After(log, start)[j] == e;
      CursorHasPassed(log, runId, start, j + 1);
    }
  }

  lemma {:induction false} WidenFront(wanted: seq<Event>, k: nat, s: nat, n: nat, e: Event)
    requires s <= k <= |wanted| && s + n <= |wanted|
    ensures e in wanted[..if k < s + n then s + n else k] <==> e in wanted[..k] || e in wanted[s..s + n]
  {
    var m := if k < s + n then s + n else k;
    if e in wanted[..m] {
      var i :| 0 <= i < m && wanted[i] == e;
      if i < k { assert wanted[..k][i] == e; } else { assert wanted[s..s + n][i - s] == e; }
    }
    if e in wanted[..k] {
      var i :| 0 <= i < k && wanted[i] == e;
      assert wanted[..m][i] == e;
    }
    if e in wanted[s..s + n] {
      var i :| s <= i < s + n && wanted[i] == e;
      assert wanted[..m][i] == e;
    }
  }

  lemma {:induction false} Covers(wanted: seq<Event>, received: seq<Event>, events: seq<Event>, before: nat, s: nat) returns (k: nat)
    requires s <= before <= |wanted| && events <= wanted[s..] && forall e :: e in received <==> e in wanted[..before]
    ensures s + |events| <= k <= |wanted| && forall e :: e in received + events <==> e in wanted[..k]
  {
    var n := |events|;
    assert events == wanted[s..s + n];
    k := if before < s + n then s + n else before;
    forall e ensures e in received + events <==> e in wanted[..k] {
      WidenFront(wanted, before, s, n, e);
    }
  }

  /** With or without replays, nothing is skipped: the events received are those of a front part of what was wanted. */
  lemma {:induction false} NothingIsSkipped(log: seq<Event>, runId: nat, start: nat, streams: seq<Stream>) returns (k: nat)
    requires ValidLog(log, runId) && StreamsOk(log, start, streams)
    ensures k <= |After(log, start)| && forall e :: e in AllEvents(streams) <==> e in After(log, start)[..k]
    ensures streams != [] ==>
              var last := streams[|streams| - 1]; Passed(log, last.resumedAt) + |EventsOf(last.items)| <= Passed(log, start) + k
  {
    if streams == [] {
      k := 0;
    } else {
      var front, last := streams[..|streams| - 1], streams[|streams| - 1];
      var before := NothingIsSkipped(log, runId, start, front);
      ResumesInside(log, runId, start, front, before);
      var s := Passed(log, last.resumedAt) - Passed(log, start);
      assert After(log, last.resumedAt) == After(log, start)[s..];
      k := Covers(After(log, start), AllEvents(front), EventsOf(last.items), before, s);
    }
  }

  /** Nothing pending, nothing on the wire, nothing more to read. */
  ghost predicate IsIdle(w: World) {
    w.server.Open? && w.server.pending == [] && w.wire == [] && Read(w.log, w.server.cursor, BATCH_LIMIT) == []
  }

  lemma {:induction false} IdleHasAll(w: World)
    requires Inv(w) && IsIdle(w)
    ensures EventsOf(w.now.items) == After(w.log, w.now.resumedAt)
  {
    assert w.now.items + w.wire == w.now.items;
    ReadContinues(w.log, w.runId, w.now.resumedAt, Sent(w), BATCH_LIMIT);
    assert After(w.log, w.now.resumedAt)[|Sent(w)|..] == [];
  }

  lemma {:induction false} AllOfLastIsAll(log: seq<Event>, runId: nat, start: nat, streams: seq<Stream>, last: Stream)
    requires ValidLog(log, runId) && StreamsOk(log, start, streams) && streams != [] && last == streams[|streams| - 1]
    requires EventsOf(last.items) == After(log, last.resumedAt)
    ensures forall e | e in After(log, start) :: e in AllEvents(streams)
  {
    var wanted := After(log, start);
    var k := NothingIsSkipped(log, runId, start, streams);
    assert k == |wanted|;
    forall e | e in wanted ensures e in AllEvents(streams) {
      assert e in wanted[..k] by { assert wanted[..k] == wanted; }
    }
  }

  /** An idle open connection with nothing more to read: everything wanted was received, exactly once if all resumed. */
  lemma {:induction false} IdleMeansComplete(w: World, actions: seq<Action>)
    requires Start(w) && IsIdle(Run(w, actions))
    ensures var w' := Run(w, actions);
            && (forall e | e in w'.Wanted() :: e in w'.Received())
            && (Resumed(w'.Streams()) ==> w'.Received() == w'.Wanted())
  {
    var w' := Run(w, actions);
    EveryReachableWorldIsSound(w, actions);
    IdleHasAll(w');
    StreamsOkAppend(w'.log, w'.start, w'.past, w'.now);
    AllOfLastIsAll(w'.log, w'.runId, w'.start, w'.Streams(), w'.now);
    if Resumed(w'.Streams()) {
      ExactlyOnceIff(w'.log, w'.runId, w'.start, w'.Streams());
      if w'.Received() != w'.Wanted() { ShorterMisses(w'.Received(), w'.Wanted(), w'.log, w'.runId, w'.start); }
    }
  }

  lemma {:induction false} ShorterMisses(received: seq<Event>, wanted: seq<Event>, log: seq<Event>, runId: nat, start: nat)
    requires ValidLog(log, runId) && wanted == After(log, start) && received <= wanted && received != wanted
    ensures exists e :: e in wanted && e !in received
  {
    var n := |received|;
    FrontIsIncreasing(log, runId, start, wanted);
    forall i | 0 <= i < n ensures received[i] != wanted[n] { assert wanted[i].sequence < wanted[n].sequence; }
    assert wanted[n] in wanted && wanted[n] !in received;
  }

  /** Nothing leaves a batch before the whole batch is validated. */
  lemma {:induction false} PendingIsValidated(w: World, actions: seq<Action>)
    requires Start(w)
    ensures var w' := Run(w, actions);
            w'.server.Open? ==> ValidBatch(w'.server.pending, w'.runId, w'.server.cursor)
  {
    EveryReachableWorldIsSound(w, actions);
  }

  // ----- one connection left alone

  function Emits(w: World, n: nat): World
    decreases n
  {
    if n == 0 then w else Emits(StepEmit(w), n - 1)
  }

  lemma {:induction false} ClosedEmitsNothing(w: World, n: nat)
    requires w.server.Closed?
    ensures Emits(w, n) == w
    decreases n
  {
    if n > 0 { ClosedEmitsNothing(w, n - 1); }
  }

  function Carried(events: seq<Event>): seq<Item> {
    seq(|events|, i requires 0 <= i < |events| => Carry(events[i]))
  }

  /** One `RuntimeEventStream.SendPending` is a run of `Emit` steps: same events, same cursor, same ending. */
  lemma {:induction false} EmitsAreSendPending(w: World)
    requires w.server.Open? && ValidBatch(w.server.pending, w.runId, w.server.cursor)
    ensures var sent := w.server.pending[..EncodablePrefix(w.server.pending)];
            Emits(w, |w.server.pending|) ==
              w.(wire := w.wire + Carried(sent),
                 server := if sent == w.server.pending then Open(LastOr(sent, w.server.cursor), []) else Closed)
    decreases |w.server.pending|
  {
    var pending := w.server.pending;
    if pending == [] {
      assert w.wire + Carried([]) == w.wire;
    } else {
      var w' := StepEmit(w);
      if Encodable(pending[0]) {
        var k := EncodablePrefix(pending[1..]);
        EmitsAreSendPending(w');
        assert pending[..k + 1] == [pending[0]] + pending[1..][..k];
        assert w.wire + [Carry(pending[0])] + Carried(pending[1..][..k]) == w.wire + Carried(pending[..k + 1]);
        assert pending == [pending[0]] + pending[1..];
      } else {
        ClosedEmitsNothing(w', |pending| - 1);
        assert w.wire + Carried([]) == w.wire;
      }
    }
  }

  /** An open connection's own next move; growth of the log, loss and reconnects come from outside. */
  function NextAction(w: World): Action {
    if w.wire != [] then Receive else if w.server.Open? && w.server.pending != [] then Emit else Poll
  }

  function Next(w: World): World {
    if w.wire != [] then StepReceive(w) else if w.server.Open? && w.server.pending != [] then StepEmit(w) else StepPoll(w)
  }

  function Quiet(w: World, steps: nat): World
    decreases steps
  {
    if steps == 0 then w else Quiet(Next(w), steps - 1)
  }

  /** Three moves for each event to read, two for each one pending, one for each item on the wire. */
  ghost function Outstanding(w: World): int {
    3 * |After(w.log, w.now.resumedAt)| - 3 * |Sent(w)| + |w.wire| - if w.server.Open? then |w.server.pending| else 0
  }

  ghost predicate AllEncodable(events: seq<Event>) {
    forall e | e in events :: Encodable(e)
  }

  /** What is left of the log for this connection can all be sent. */
  ghost predicate Sendable(w: World) {
    && LogOk(w.log, w.runId) && w.server.Open? && AllEncodable(After(w.log, w.now.resumedAt))
    && Flows(w.log, w.runId, w.now.resumedAt, Sent(w), w.server)
  }

  /** The same connection, with less outstanding. */
  ghost predicate Closer(w: World, w': World) {
    && Sendable(w') && Outstanding(w') < Outstanding(w)
    && w'.log == w.log && w'.past == w.past && w'.start == w.start && w'.now.resumedAt == w.now.resumedAt
  }

  lemma {:induction false} OutstandingIsNatural(w: World)
    requires Sendable(w)
    ensures Outstanding(w) >= 0
    ensures Outstanding(w) == 0 ==> EventsOf(w.now.items) == After(w.log, w.now.resumedAt)
  {
    var sent, wanted := Sent(w), After(w.log, w.now.resumedAt);
    assert |sent + w.server.pending| <= |wanted|;
    if Outstanding(w) == 0 {
      assert w.now.items + w.wire == w.now.items;
      assert sent == wanted;
    }
  }

  lemma {:induction false} ReceiveProgress(w: World)
    requires Sendable(w) && w.wire != []
    ensures Closer(w, StepReceive(w))
  {
    MovedItem(w.now.items, w.wire);
  }

  lemma {:induction false} EmitProgress(w: World)
    requires Sendable(w) && w.server.pending != []
    ensures Closer(w, StepEmit(w))
  {
    var e := w.server.pending[0];
    NextOfFront(Sent(w), w.server.pending, After(w.log, w.now.resumedAt));
    FlowEmits(w.log, w.runId, w.now.resumedAt, Sent(w), w.server);
    SentOneMore(w.now.items, w.wire, Carry(e));
  }

  lemma {:induction false} ReadIsValid(log: seq<Event>, runId: nat, cursor: nat, limit: nat)
    requires ValidLog(log, runId) && AllEncodable(After(log, cursor))
    ensures ValidBatch(Read(log, cursor, limit), runId, cursor)
  {
    PassedIsExact(log, runId, cursor);
    var batch, p := Read(log, cursor, limit), Passed(log, cursor);
    forall i | 0 <= i < |batch| ensures batch[i] == log[p + i] && Encodable(batch[i]) {
      assert After(log, cursor)[i] in After(log, cursor);
    }
  }

  lemma {:induction false} PollProgress(w: World)
    requires Sendable(w) && w.server.pending == [] && w.wire == [] && Outstanding(w) > 0
    ensures Closer(w, StepPoll(w))
  {
    ReadContinues(w.log, w.runId, w.now.resumedAt, Sent(w), BATCH_LIMIT);
    forall e | e in After(w.log, w.server.cursor) ensures Encodable(e) {
      assert e in After(w.log, w.now.resumedAt);
    }
    ReadIsValid(w.log, w.runId, w.server.cursor, BATCH_LIMIT);
    FlowPolls(w.log, w.runId, w.now.resumedAt, Sent(w), w.server);
  }

  lemma {:induction false} OpenConnectionsProgress(w: World)
    requires Sendable(w) && Outstanding(w) > 0
    ensures Closer(w, Next(w))
  {
    if w.wire != [] {
      ReceiveProgress(w);
    } else if w.server.pending != [] {
      EmitProgress(w);
    } else {
      PollProgress(w);
    }
  }

  /** The connection of `w` in `w'`, with everything it is for received. */
  ghost predicate Delivered(w: World, w': World) {
    && w'.log == w.log && w'.past == w.past && w'.start == w.start
    && EventsOf(w'.now.items) == After(w.log, w.now.resumedAt)
  }

  /** A connection left alone on an encodable log ends with everything it is for received. */
  lemma {:induction false} QuietConnectionsDeliverAll(w: World) returns (steps: nat)
    requires Sendable(w)
    ensures steps <= Outstanding(w) && Delivered(w, Quiet(w, steps))
    decreases Outstanding(w), 1
  {
    OutstandingIsNatural(w);
    steps := 0;
    if Outstanding(w) > 0 {
      OpenConnectionsProgress(w);
      var rest := QuietFrom(w, Next(w));
      steps := rest + 1;
      QuietStep(w, rest);
    }
  }

  lemma {:induction false} QuietStep(w: World, rest: nat)
    ensures Quiet(w, rest + 1) == Quiet(Next(w), rest)
  {
  }

  lemma {:induction false} QuietFrom(w: World, w': World) returns (rest: nat)
    requires Closer(w, w') && Outstanding(w) > 0
    ensures rest < Outstanding(w) && Delivered(w, Quiet(w', rest))
    decreases Outstanding(w), 0
  {
    OutstandingIsNatural(w');
    rest := QuietConnectionsDeliverAll(w');
  }

  // ----- which logs can be received

  lemma {:induction false} RunConcat(w: World, a: seq<Action>, b: seq<Action>)
    ensures Run(w, a + b) == Run(Run(w, a), b)
  {
    if b == [] {
      assert a + b == a;
    } else {
      RunConcat(w, a, b[..|b| - 1]);
      assert (a + b)[..|a + b| - 1] == a + b[..|b| - 1];
    }
  }

  lemma {:induction false} RunOne(w: World, a: Action)
    ensures Run(w, [a]) == Apply(w, a)
  {
    assert [a][..0] == [];
  }

  function QuietScript(w: World, steps: nat): seq<Action>
    decreases steps
  {
    if steps == 0 then [] else [NextAction(w)] + QuietScript(Next(w), steps - 1)
  }

  lemma NextIsApplied(w: World)
    ensures Apply(w, NextAction(w)) == Next(w)
  {
  }

  lemma {:induction false} RunStarts(w: World, a: Action, rest: seq<Action>, next: World)
    requires Apply(w, a) == next
    ensures Run(w, [a] + rest) == Run(next, rest)
  {
    RunConcat(w, [a], rest);
    RunOne(w, a);
  }

  lemma {:induction false} QuietIsRun(w: World, steps: nat)
    ensures Run(w, QuietScript(w, steps)) == Quiet(w, steps)
    decreases steps
  {
    if steps > 0 {
      NextIsApplied(w);
      QuietIsRun(Next(w), steps - 1);
      RunStarts(w, NextAction(w), QuietScript(Next(w), steps - 1), Next(w));
    }
  }

  function Appends(log: seq<Event>): seq<Action> {
    seq(|log|, i requires 0 <= i < |log| => Append(log[i]))
  }

  lemma {:induction false} FrontIsOk(log: seq<Event>, runId: nat)
    requires LogOk(log, runId) && log != []
    ensures var front, e := log[..|log| - 1], log[|log| - 1];
            LogOk(front, runId) && e.runId == runId && SseWire.NoLineEnd(e.payload) && LastOr(front, 0) < e.sequence <= MAX_SEQUENCE_CURSOR
  {
    var front := log[..|log| - 1];
    assert forall i :: 0 <= i < |front| ==> front[i] == log[i];
    assert forall x | x in front :: x in log;
    assert log[|log| - 1] in log;
  }

  lemma {:induction false} LogCanBeWritten(w: World, log: seq<Event>)
    requires Start(w) && LogOk(log, w.runId)
    ensures Run(w, Appends(log)) == w.(log := log)
  {
    if log != [] {
      var front, e := log[..|log| - 1], log[|log| - 1];
      FrontIsOk(log, w.runId);
      LogCanBeWritten(w, front);
      assert Appends(log)[..|log| - 1] == Appends(front);
      assert front + [e] == log;
    }
  }

  ghost predicate Receives(w: World, log: seq<Event>, actions: seq<Action>) {
    Run(w, actions).log == log && Run(w, actions).Received() == After(log, w.start)
  }

  /** A start world whose log is written: one connection, left alone, receives all of it. */
  lemma {:induction false} EncodableLogIsReceived(w: World, log: seq<Event>) returns (actions: seq<Action>)
    requires Start(w) && LogOk(log, w.runId) && AllEncodable(After(log, w.start))
    ensures Receives(w, log, actions)
  {
    var written := w.(log := log);
    LogCanBeWritten(w, log);
    EveryReachableWorldIsSound(w, Appends(log));
    FirstConnection(written);
    ConnectKeepsInv(written);
    var steps := QuietConnectionsDeliverAll(StepConnect(written));
    ReceivedOnFirst(Quiet(StepConnect(written), steps), written);
    actions := ThreeLegs(w, written, Appends(log), steps);
  }

  lemma {:induction false} ThreeLegs(w: World, written: World, first: seq<Action>, steps: nat) returns (actions: seq<Action>)
    requires Run(w, first) == written
    ensures Run(w, actions) == Quiet(StepConnect(written), steps)
  {
    var script := QuietScript(StepConnect(written), steps);
    actions := first + [Connect] + script;
    RunConcat(w, first + [Connect], script);
    RunConcat(w, first, [Connect]);
    RunOne(written, Connect);
    QuietIsRun(StepConnect(written), steps);
  }

  lemma {:induction false} FirstConnection(w: World)
    requires ValidLog(w.log, w.runId) && w.start <= MAX_SEQUENCE_CURSOR && AllEncodable(After(w.log, w.start))
    requires w.past == [] && w.now == Stream(w.start, [], "") && w.server.Closed?
    ensures var w' := StepConnect(w);
            w'.server.Open? && w'.past == [w.now] && w'.now.resumedAt == w.start && w'.log == w.log && w'.start == w.start
  {
    NothingIsCut();
    assert w.Streams() == [w.now] && [w.now][..0] == [] && AllEvents([w.now]) == [];
    ConnectionResumes([w.now], w.start);
    ReadIsValid(w.log, w.runId, w.start, BATCH_LIMIT);
  }

  lemma {:induction false} ReceivedOnFirst(w: World, before: World)
    requires w.past == [before.now] && before.now.items == []
    ensures w.Received() == EventsOf(w.now.items)
  {
    assert [before.now][..0] == [];
    assert AllEvents(w.past) == [];
    assert w.Streams()[..1] == w.past && w.Streams()[1] == w.now;
    assert AllEvents(w.Streams()) == AllEvents(w.past) + EventsOf(w.now.items);
  }

  /**
    * A log can be received in full if and only if every event beyond the start cursor can be encoded: batches are
    * validated for run, order and attributes only, and an event too large ends every stream that reaches it.
    */
  lemma {:induction false} FullyReceivableIff(w: World, log: seq<Event>)
    requires Start(w) && LogOk(log, w.runId)
    ensures (exists actions :: Receives(w, log, actions)) <==> AllEncodable(After(log, w.start))
  {
    if AllEncodable(After(log, w.start)) {
      var actions := EncodableLogIsReceived(w, log);
    }
    forall actions | Receives(w, log, actions) ensures AllEncodable(After(log, w.start)) {
      DeliveredExactlyOnce(w, actions);
    }
  }

  // ----- a run that replays

  /** A world with one event in its log. */
  ghost predicate OneEvent(w: World, e: Event) {
    && w.log == [e] && w.runId == e.runId && w.start < e.sequence <= MAX_SEQUENCE_CURSOR
    && Encodable(e) && SseWire.NoLineEnd(e.payload)
  }

  lemma {:induction false} ReadOne(e: Event, cursor: nat)
    ensures Read([e], cursor, BATCH_LIMIT) == if e.sequence <= cursor then [] else [e]
  {
    assert [e][..0] == [] && [e][0..] == [e] && [e][1..] == [];
  }

  const DELIVER := [Connect, Receive, Emit, Receive]

  /** Without a usable header, a connection brings the event. */
  lemma {:induction false} DeliversOne(w: World, e: Event)
    requires OneEvent(w, e) && w.server.Closed? && ResolveEventCursor(w.start, LastEventId(w.Streams())) == Ok(w.start)
    ensures Run(w, DELIVER) ==
            w.(server := Open(e.sequence, []), wire := [], past := w.Streams(), now := Stream(w.start, [Opening, Carry(e)], ""))
  {
    ReadOne(e, w.start);
    var w1 := StepConnect(w);
    assert w1 == w.(server := Open(w.start, [e]), wire := [Opening], past := w.Streams(), now := Stream(w.start, [], ""));
    var w2 := StepReceive(w1);
    assert [Opening][1..] == [] && [] + [Opening] == [Opening];
    var w3 := StepEmit(w2);
    assert [e][1..] == [] && [] + [Carry(e)] == [Carry(e)];
    var w4 := StepReceive(w3);
    assert [Carry(e)][1..] == [] && [Opening] + [Carry(e)] == [Opening, Carry(e)];
    RunFour(w, Connect, Receive, Emit, Receive);
  }

  lemma {:induction false} RunFour(w: World, a: Action, b: Action, c: Action, d: Action)
    ensures Run(w, [a, b, c, d]) == Apply(Apply(Apply(Apply(w, a), b), c), d)
  {
    RunTwo(w, a, b);
    RunTwo(Run(w, [a, b]), c, d);
    RunConcat(w, [a, b], [c, d]);
    assert [a, b] + [c, d] == [a, b, c, d];
  }

  lemma {:induction false} RunTwo(w: World, a: Action, b: Action)
    ensures Run(w, [a, b]) == Apply(Apply(w, a), b)
  {
    RunOne(w, a);
    RunOne(Run(w, [a]), b);
    RunConcat(w, [a], [b]);
    assert [a] + [b] == [a, b];
  }

  const IDLE := [Connect, Receive]

  /** Behind the event, a connection brings the retry frame alone. */
  lemma {:induction false} IdlesOnce(w: World, e: Event)
    requires OneEvent(w, e) && w.server.Closed? && ResolveEventCursor(w.start, LastEventId(w.Streams())) == Ok(e.sequence)
    ensures Run(w, IDLE) ==
            w.(server := Open(e.sequence, []), wire := [], past := w.Streams(), now := Stream(e.sequence, [Opening], ""))
  {
    ReadOne(e, e.sequence);
    var w1 := StepConnect(w);
    assert w1 == w.(server := Open(e.sequence, []), wire := [Opening], past := w.Streams(), now := Stream(e.sequence, [], ""));
    var w2 := StepReceive(w1);
    assert [Opening][1..] == [] && [] + [Opening] == [Opening];
    RunTwo(w, Connect, Receive);
  }

  const REPLAY := DELIVER + [Disconnect(0)] + IDLE + [Disconnect(0)] + DELIVER

  lemma {:induction false} RunReplay(w: World)
    ensures Run(w, REPLAY) ==
            Run(StepDisconnect(Run(StepDisconnect(Run(w, DELIVER), 0), IDLE), 0), DELIVER)
  {
    RunConcat(w, DELIVER + [Disconnect(0)] + IDLE + [Disconnect(0)], DELIVER);
    RunConcat(w, DELIVER + [Disconnect(0)] + IDLE, [Disconnect(0)]);
    RunConcat(w, DELIVER + [Disconnect(0)], IDLE);
    RunConcat(w, DELIVER, [Disconnect(0)]);
    RunOne(Run(w, DELIVER), Disconnect(0));
    RunOne(Run(w, DELIVER + [Disconnect(0)] + IDLE), Disconnect(0));
  }

  lemma {:induction false} ReplayEvents(none: Stream, one: Stream, idle: Stream, e: Event)
    requires none.items == [] && one.items == [Opening, Carry(e)] && idle.items == [Opening]
    ensures AllEvents([none]) == [] && AllEvents([none, one]) == [e] && AllEvents([none, one, idle]) == [e]
    ensures AllEvents([none, one, idle, one]) == [e, e]
    ensures HeaderKept([none, one]) && !HeaderKept([none, one, idle])
  {
    assert [Opening][..0] == [] && [Opening, Carry(e)][..1] == [Opening];
    assert EventsOf([Opening]) == [] && EventsOf([Opening, Carry(e)]) == [e];
    assert [none][..0] == [] && [none, one][..1] == [none];
    assert [none, one, idle][..2] == [none, one] && [none, one, idle, one][..3] == [none, one, idle];
  }

  /** The three histories of the replay, and the header after each. */
  lemma {:induction false} ReplayHeaders(start: nat, e: Event)
    requires Encodable(e) && SseWire.NoLineEnd(e.payload)
    ensures var none, one, idle := Stream(start, [], ""), Stream(start, [Opening, Carry(e)], ""), Stream(e.sequence, [Opening], "");
            && LastEventId([none]) == None
            && LastEventId([none, one]) == Some(Decimal(e.sequence))
            && LastEventId([none, one, idle]) == None
            && AllEvents([none, one, idle, one]) == [e, e]
  {
    var none, one, idle := Stream(start, [], ""), Stream(start, [Opening, Carry(e)], ""), Stream(e.sequence, [Opening], "");
    NothingIsCut();
    ReplayEvents(none, one, idle, e);
    assert [Opening][..0] == [] && [Opening, Carry(e)][..1] == [Opening];
    HeaderIs([none]);
    HeaderIs([none, one]);
    HeaderIs([none, one, idle]);
  }

  lemma {:induction false} ReplayFrom(w: World, e: Event)
    requires OneEvent(w, e) && w.server.Closed? && w.wire == [] && w.past == [] && w.now == Stream(w.start, [], "")
    ensures Run(w, REPLAY).Received() == [e, e]
  {
    var none, one, idle := w.now, Stream(w.start, [Opening, Carry(e)], ""), Stream(e.sequence, [Opening], "");
    ReplayHeaders(w.start, e);
    ResumeIsRoundTrip(w.start, e.sequence);
    RunReplay(w);
    assert w.Streams() == [none];
    DeliversOne(w, e);
    var w1 := StepDisconnect(Run(w, DELIVER), 0);
    assert w1.Streams() == [none, one];
    IdlesOnce(w1, e);
    var w2 := StepDisconnect(Run(w1, IDLE), 0);
    assert w2.Streams() == [none, one, idle];
    DeliversOne(w2, e);
    assert Run(w2, DELIVER).Streams() == [none, one, idle, one];
  }

  /**
    * A connection that drops after its retry frame and before an event leaves the browser without an id to send: the next
    * connection starts over, and what was received before comes again.
    */
  lemma {:induction false} LostHeaderReplays(w: World, e: Event)
    requires Start(w) && e.runId == w.runId && w.start < e.sequence <= MAX_SEQUENCE_CURSOR
    requires Encodable(e) && SseWire.NoLineEnd(e.payload)
    ensures Run(w, [Append(e)] + REPLAY).Received() == [e, e]
    ensures !Resumed(Run(w, [Append(e)] + REPLAY).Streams())
  {
    RunOne(w, Append(e));
    assert [] + [e] == [e];
    ReplayFrom(StepAppend(w, e), e);
    RunConcat(w, [Append(e)], REPLAY);
    DeliveredExactlyOnce(w, [Append(e)] + REPLAY);
    var w' := Run(w, [Append(e)] + REPLAY);
    assert w'.Received()[0] == w'.Received()[1] == e;
  }
}
