/** `backend/app/api/sse.py`: cursor-driven streaming of an append-only event log, across reconnects. */
module EventStreams {
  import opened Wrappers
  import opened Tokens
  import opened Decimals

  const MAX_SEQUENCE_CURSOR: nat := 0x7FFF_FFFF_FFFF_FFFF
  const MAX_SSE_EVENT_BYTES: nat := 32_768

  /** JSON attributes; keys are given trimmed and in lower case. */
  datatype Json = Object(entries: seq<(string, Json)>) | Array(items: seq<Json>) | Scalar

  datatype EventLevel = Info | Warning | Error

  datatype EventKind = RunStarted | RunFinalized | LeaseAcquired | LeaseTakenOver | LeaseHeartbeat | LeaseReleased | EvidenceRecorded

  datatype Event = Event(runId: nat, sequence: nat, level: EventLevel, kind: EventKind, attributes: Json, payload: string)

  datatype StreamError = WrongRun | NotMonotonic | UnsafeAttributes | TooLarge

  // ----- attributes

  const SENSITIVE: set<string> :=
    {"access_token", "api_key", "authorization", "bearer_token", "password", "refresh_token", "run_token", "secret", "siliconflow_api_key"}

  predicate Sensitive(key: string) {
    key in SENSITIVE || (|key| >= 8 && key[|key| - 8..] == "_api_key")
  }

  /** Nine names, and every name that ends in `_api_key`. */
  lemma {:induction false} SensitiveIff(key: string)
    ensures Sensitive(key) <==>
            || key == "access_token" || key == "authorization" || key == "bearer_token" || key == "password" || key == "api_key"
            || key == "refresh_token" || key == "run_token" || key == "secret" || exists p :: key == p + "_api_key"
  {
    if |key| >= 8 && key[|key| - 8..] == "_api_key" { assert key == key[..|key| - 8] + "_api_key"; }
    assert "siliconflow_api_key" == "siliconflow" + "_api_key";
  }

  /** `_assert_browser_safe_attributes` does not raise. */
  predicate BrowserSafe(v: Json) {
    match v
    case Object(entries) => forall e | e in entries :: !Sensitive(e.0) && BrowserSafe(e.1)
    case Array(items) => forall item | item in items :: BrowserSafe(item)
    case Scalar => true
  }

  function Children(v: Json): seq<Json> {
    match v
    case Object(entries) => seq(|entries|, i requires 0 <= i < |entries| => entries[i].1)
    case Array(items) => items
    case Scalar => []
  }

  /** The value reached by following child positions from `v`. */
  function At(v: Json, path: seq<nat>): Option<Json> {
    if path == [] then Some(v)
    else if path[0] < |Children(v)| then At(Children(v)[path[0]], path[1..])
    else None
  }

  ghost predicate HasSensitiveKeyAt(v: Json, path: seq<nat>) {
    var w := At(v, path);
    w.Some? && w.value.Object? && exists e :: e in w.value.entries && Sensitive(e.0)
  }

  lemma {:induction false} SafeHasNoSensitivePath(v: Json, path: seq<nat>)
    requires BrowserSafe(v)
    ensures !HasSensitiveKeyAt(v, path)
    decreases |path|
  {
    if path != [] && path[0] < |Children(v)| {
      SafeHasNoSensitivePath(Children(v)[path[0]], path[1..]);
    }
  }

  lemma {:induction false} UnsafeHasSensitivePath(v: Json) returns (path: seq<nat>)
    requires !BrowserSafe(v)
    ensures HasSensitiveKeyAt(v, path)
    decreases v
  {
    match v
    case Object(entries) =>
      var e :| e in entries && (Sensitive(e.0) || !BrowserSafe(e.1));
      if Sensitive(e.0) {
        path := [];
      } else {
        var i :| 0 <= i < |entries| && entries[i] == e;
        var rest := UnsafeHasSensitivePath(entries[i].1);
        path := [i] + rest;
        assert path[1..] == rest && Children(v)[i] == entries[i].1;
      }
    case Array(items) =>
      var i :| 0 <= i < |items| && !BrowserSafe(items[i]);
      var rest := UnsafeHasSensitivePath(items[i]);
      path := [i] + rest;
      assert path[1..] == rest && Children(v)[i] == items[i];
    case Scalar =>
  }

  /** The recursive check rejects exactly the values with a sensitive key at some depth. */
  lemma {:induction false} SafetyIsExact(v: Json)
    ensures BrowserSafe(v) <==> forall path :: !HasSensitiveKeyAt(v, path)
  {
    if BrowserSafe(v) {
      forall path ensures !HasSensitiveKeyAt(v, path) { SafeHasNoSensitivePath(v, path); }
    } else {
      var path := UnsafeHasSensitivePath(v);
    }
  }

  // ----- the log and the reader

  ghost predicate ValidLog(log: seq<Event>, runId: nat) {
    && (forall i :: 0 <= i < |log| ==> log[i].runId == runId && 1 <= log[i].sequence <= MAX_SEQUENCE_CURSOR)
    && (forall i, j :: 0 <= i < j < |log| ==> log[i].sequence < log[j].sequence)
  }

  /** How many events of an ordered log the cursor has passed. */
  function Passed(log: seq<Event>, cursor: nat): (n: nat)
    ensures n <= |log|
  {
    if log == [] || log[|log| - 1].sequence <= cursor then |log| else Passed(log[..|log| - 1], cursor)
  }

  function After(log: seq<Event>, cursor: nat): seq<Event> { log[Passed(log, cursor)..] }

  /** `list_runtime_events`: the first `limit` events of the run beyond the cursor, in order. */
  function Read(log: seq<Event>, cursor: nat, limit: nat): seq<Event> {
    var rest := After(log, cursor);
    if |rest| <= limit then rest else rest[..limit]
  }

  lemma {:induction false} PassedIsExact(log: seq<Event>, runId: nat, cursor: nat)
    requires ValidLog(log, runId)
    ensures forall i :: 0 <= i < |log| ==> (i < Passed(log, cursor) <==> log[i].sequence <= cursor)
  {
    if log != [] && log[|log| - 1].sequence > cursor {
      PassedIsExact(log[..|log| - 1], runId, cursor);
      assert forall i :: 0 <= i < |log| - 1 ==> log[i] == log[..|log| - 1][i];
    }
  }

  lemma {:induction false} PassedIsUnique(log: seq<Event>, runId: nat, cursor: nat, n: nat)
    requires ValidLog(log, runId) && n <= |log|
    requires forall i :: 0 <= i < n ==> log[i].sequence <= cursor
    requires forall i :: n <= i < |log| ==> cursor < log[i].sequence
    ensures Passed(log, cursor) == n
  {
    PassedIsExact(log, runId, cursor);
    var p := Passed(log, cursor);
    assert n < |log| ==> (n < p <==> log[n].sequence <= cursor);
    assert p < |log| ==> (p < p <==> log[p].sequence <= cursor);
  }

  function LastOr(events: seq<Event>, cursor: nat): nat {
    if events == [] then cursor else events[|events| - 1].sequence
  }

  /** A cursor left behind the first `n` events has passed exactly those. */
  lemma {:induction false} CursorBehindPrefix(log: seq<Event>, runId: nat, n: nat)
    requires ValidLog(log, runId) && n <= |log|
    ensures Passed(log, LastOr(log[..n], 0)) == n
  {
    var cursor := LastOr(log[..n], 0);
    PassedIsUnique(log, runId, cursor, n);
  }

  // ----- `validate_runtime_event_batch`

  predicate ValidBatch(events: seq<Event>, runId: nat, after: nat) {
    && (forall i :: 0 <= i < |events| ==> events[i].runId == runId && after < events[i].sequence && BrowserSafe(events[i].attributes))
    && (forall i, j :: 0 <= i < j < |events| ==> events[i].sequence < events[j].sequence)
  }

  /** Everything before event `k` is in order, and event `k` is refused for `error`, checked run first, then order. */
  ghost predicate RefusedAt(events: seq<Event>, runId: nat, after: nat, k: nat, error: StreamError) {
    && k < |events| && ValidBatch(events[..k], runId, after)
    && var e, cursor := events[k], if k == 0 then after else events[k - 1].sequence;
       match error
       case WrongRun => e.runId != runId
       case NotMonotonic => e.runId == runId && e.sequence <= cursor
       case UnsafeAttributes => e.runId == runId && e.sequence > cursor && !BrowserSafe(e.attributes)
       case TooLarge => false
  }

  method ValidateRuntimeEventBatch(events: seq<Event>, runId: nat, afterSequence: nat) returns (r: Result<nat, StreamError>)
    ensures r.Ok? <==> ValidBatch(events, runId, afterSequence)
    ensures r.Ok? ==> r.value == if events == [] then afterSequence else events[|events| - 1].sequence
    ensures r.Err? ==> exists k: nat :: RefusedAt(events, runId, afterSequence, k, r.error)
  {
    var cursor := afterSequence;
    for k := 0 to |events|
      invariant ValidBatch(events[..k], runId, afterSequence)
      invariant cursor == if k == 0 then afterSequence else events[k - 1].sequence
    {
      var event := events[k];
      ghost var error := if event.runId != runId then WrongRun else if event.sequence <= cursor then NotMonotonic else UnsafeAttributes;
      assert event.runId != runId || event.sequence <= cursor || !BrowserSafe(event.attributes) ==>
               RefusedAt(events, runId, afterSequence, k, error);
      if event.runId != runId { return Err(WrongRun); }
      if event.sequence <= cursor { return Err(NotMonotonic); }
      if !BrowserSafe(event.attributes) { return Err(UnsafeAttributes); }
      cursor := event.sequence;
    }
    assert events[..|events|] == events;
    return Ok(cursor);
  }

  /** `encode_runtime_event` does not raise. */
  predicate Encodable(e: Event) {
    BrowserSafe(e.attributes) && ContextWindowUnits(e.payload) <= MAX_SSE_EVENT_BYTES
  }

  /** An event can be sent when no key anywhere in it is sensitive and its text takes at most 32,768 bytes. */
  lemma {:induction false} EncodableIff(e: Event)
    ensures Encodable(e) <==> (forall path :: !HasSensitiveKeyAt(e.attributes, path)) && |Encode(e.payload)| <= 32_768
  {
    SafetyIsExact(e.attributes);
  }

  // ----- `resolve_event_cursor`

  datatype CursorError = AfterOutOfRange | NotADecimal | IdOutOfRange

  function ResolveEventCursor(afterSequence: int, lastEventId: Option<string>): Result<nat, CursorError> {
    if afterSequence < 0 || afterSequence > MAX_SEQUENCE_CURSOR then Err(AfterOutOfRange)
    else if lastEventId.None? || Strip(lastEventId.value) == "" then Ok(afterSequence)
    else
      var raw := Strip(lastEventId.value);
      if !(forall i :: 0 <= i < |raw| ==> IsDigit(raw[i])) then Err(NotADecimal)
      else if ParseDecimal(raw) > MAX_SEQUENCE_CURSOR then Err(IdOutOfRange)
      else Ok(if afterSequence < ParseDecimal(raw) then ParseDecimal(raw) else afterSequence)
  }

  /** The id sent on the wire, handed back on reconnect, resumes behind that event. */
  lemma {:induction false} ResumeIsRoundTrip(afterSequence: nat, sequence: nat)
    requires afterSequence <= MAX_SEQUENCE_CURSOR && sequence <= MAX_SEQUENCE_CURSOR
    ensures ResolveEventCursor(afterSequence, Some(Decimal(sequence))) ==
            Ok(if afterSequence < sequence then sequence else afterSequence)
  {
    ParseInvertsDecimal(sequence);
  }

  /** What a header resolves to, told by the text between its white space. */
  lemma {:induction false} HeaderIsResolved(afterSequence: nat, before: string, text: string, after: string)
    requires afterSequence <= MAX_SEQUENCE_CURSOR && AllSpace(before) && AllSpace(after) && Trimmed(text)
    ensures var r := ResolveEventCursor(afterSequence, Some(before + text + after));
            && (text == "" ==> r == Ok(afterSequence))
            && ((exists i :: 0 <= i < |text| && !IsDigit(text[i])) ==> r == Err(NotADecimal))
            && (text != "" && (forall i :: 0 <= i < |text| ==> IsDigit(text[i])) ==>
                  && (r == Err(IdOutOfRange) <==> ParseDecimal(text) > MAX_SEQUENCE_CURSOR)
                  && (r != Err(IdOutOfRange) ==>
                        && r.Ok? && r.value >= afterSequence && r.value >= ParseDecimal(text)
                        && (r.value == afterSequence || r.value == ParseDecimal(text))))
  {
    StripIsExact(before, text, after);
  }

  // ----- one connection of the generator

  /** How many leading events can be encoded. */
  function EncodablePrefix(events: seq<Event>): (n: nat)
    ensures n <= |events|
  {
    if events == [] || !Encodable(events[0]) then 0 else 1 + EncodablePrefix(events[1..])
  }

  /** The front part that goes out ends at the first event that cannot be encoded, or with the batch. */
  lemma {:induction false} EncodablePrefixIsExact(events: seq<Event>, n: nat)
    requires n <= |events|
    ensures EncodablePrefix(events) == n <==>
            (forall i :: 0 <= i < n ==> Encodable(events[i])) && (n < |events| ==> !Encodable(events[n]))
  {
    if events != [] && Encodable(events[0]) {
      if n > 0 {
        EncodablePrefixIsExact(events[1..], n - 1);
        assert forall i :: 0 < i < |events| ==> events[i] == events[1..][i - 1];
        if forall i :: 0 <= i < n - 1 ==> Encodable(events[1..][i]) {
          forall i | 0 <= i < n ensures Encodable(events[i]) { if i > 0 { assert Encodable(events[1..][i - 1]); } }
        }
      }
    }
  }

  const SMALL_EVENT := Event(1, 1, Info, RunStarted, Scalar, "{}")
  const OVERSIZE_EVENT := Event(1, 2, Info, RunFinalized, Scalar, seq(32_769, _ => 'x'))

  /** A valid batch whose first event goes out and whose second is over the bound: the stream ends midway. */
  lemma {:induction false} OversizeEventSplitsItsBatch()
    ensures ValidBatch([SMALL_EVENT, OVERSIZE_EVENT], 1, 0) && EncodablePrefix([SMALL_EVENT, OVERSIZE_EVENT]) == 1
  {
    CharsAtMostUnits("{}");
    CharsAtMostUnits(OVERSIZE_EVENT.payload);
    var batch := [SMALL_EVENT, OVERSIZE_EVENT];
    assert batch[1..] == [OVERSIZE_EVENT];
  }

  class RuntimeEventStream {
    const runId: nat
    const batchLimit: nat
    var cursor: nat
    var pending: seq<Event>

    /** What waits to be sent has been validated as a whole against the cursor. */
    ghost predicate Valid()
      reads this
    {
      1 <= batchLimit <= 1000 && ValidBatch(pending, runId, cursor)
    }

    constructor (runId: nat, afterSequence: nat, initial: seq<Event>, batchLimit: nat)
      requires 1 <= batchLimit <= 1000 && ValidBatch(initial, runId, afterSequence)
      ensures Valid() && this.runId == runId && this.batchLimit == batchLimit && cursor == afterSequence && pending == initial
    {
      this.runId, this.batchLimit, cursor, pending := runId, batchLimit, afterSequence, initial;
    }

    /** The checks before the first byte is sent. */
    static method Open(runId: nat, afterSequence: nat, initial: seq<Event>, batchLimit: nat) returns (r: Option<RuntimeEventStream>)
      ensures r.Some? <==> 1 <= batchLimit <= 1000 && ValidBatch(initial, runId, afterSequence)
      ensures r.Some? ==> fresh(r.value) && r.value.Valid() && r.value.cursor == afterSequence && r.value.pending == initial
    {
      if batchLimit < 1 || batchLimit > 1000 { return None; }
      var validated := ValidateRuntimeEventBatch(initial, runId, afterSequence);
      if validated.Err? { return None; }
      var stream := new RuntimeEventStream(runId, afterSequence, initial, batchLimit);
      return Some(stream);
    }

    /** One turn with a pending batch: the events go out in order; only one too large stops it midway. */
    method SendPending() returns (sent: seq<Event>, error: Option<StreamError>)
      requires Valid()
      modifies this
      ensures sent == old(pending)[..EncodablePrefix(old(pending))]
      ensures error.None? <==> sent == old(pending)
      ensures error.Some? ==> error == Some(TooLarge)
      ensures cursor == if sent == [] then old(cursor) else sent[|sent| - 1].sequence
      ensures error.None? ==> pending == [] && Valid()
    {
      sent := [];
      var batch := pending;
      for k := 0 to |batch|
        invariant sent == batch[..k] && k + EncodablePrefix(batch[k..]) == EncodablePrefix(batch)
        invariant cursor == if k == 0 then old(cursor) else batch[k - 1].sequence
      {
        var event := batch[k];
        assert batch[k..][0] == event && batch[k..][1..] == batch[k + 1..];
        if event.sequence <= cursor { return sent, Some(NotMonotonic); }
        if !BrowserSafe(event.attributes) { return sent, Some(UnsafeAttributes); }
        if ContextWindowUnits(event.payload) > MAX_SSE_EVENT_BYTES { return sent, Some(TooLarge); }
        sent := sent + [event];
        cursor := event.sequence;
      }
      assert batch[|batch|..] == [] && batch[..|batch|] == batch;
      pending := [];
      error := None;
    }

    /** One turn without: read beyond the cursor and validate before anything is sent. */
    method Poll(log: seq<Event>) returns (error: Option<StreamError>)
      requires Valid() && pending == []
      modifies this`pending
      ensures error.None? <==> ValidBatch(Read(log, cursor, batchLimit), runId, cursor)
      ensures error.None? ==> Valid() && pending == Read(log, cursor, batchLimit)
      ensures error.Some? ==> pending == [] && exists k: nat :: RefusedAt(Read(log, cursor, batchLimit), runId, cursor, k, error.value)
    {
      var batch := Read(log, cursor, batchLimit);
      var validated := ValidateRuntimeEventBatch(batch, runId, cursor);
      if validated.Err? { return Some(validated.error); }
      pending := batch;
      error := None;
    }
  }
}
