/** Paged reading of a run's event history (`service.py`) and its reduction to counters (`metrics.py`). */
module Metrics {
  import opened Wrappers
  import opened EventStreams

  const METRIC_EVENT_PAGE_SIZE: nat := 1000
  const MAX_METRIC_EVENT_SCAN: nat := 10_000

  datatype MetricsError = ScanLimitExceeded | ForeignRun | NotContiguous

  datatype Aggregate = Aggregate(
    totalEvents: nat, warningEvents: nat, errorEvents: nat,
    leaseAcquisitions: nat, leaseTakeovers: nat, leaseReleases: nat, latestSequence: nat)
  {
    /** `RuntimeEventAggregate.validate_aggregate`. */
    predicate Valid() {
      && warningEvents <= totalEvents && errorEvents <= totalEvents
      && leaseAcquisitions <= totalEvents && leaseTakeovers <= totalEvents && leaseReleases <= totalEvents
      && latestSequence == totalEvents
    }
  }

  // ----- paging

  /** The log as each read finds it: it only ever grows at its end. */
  ghost predicate AppendOnly(logAt: nat -> seq<Event>, runId: nat) {
    && (forall i: nat :: ValidAt(logAt, runId, i))
    && (forall i: nat, j: nat :: i <= j ==> GrownBetween(logAt, i, j))
  }

  ghost predicate ValidAt(logAt: nat -> seq<Event>, runId: nat, i: nat) { ValidLog(logAt(i), runId) }

  ghost predicate GrownBetween(logAt: nat -> seq<Event>, i: nat, j: nat) { logAt(i) <= logAt(j) }

  /** A page read by query `i` behind what the query before had seen. */
  lemma PageFollows(logAt: nat -> seq<Event>, runId: nat, i: nat, seen: seq<Event>, limit: nat)
    requires AppendOnly(logAt, runId) && seen <= logAt(if i == 0 then 0 else i - 1)
    ensures var page := Read(logAt(i), LastOr(seen, 0), limit);
            && seen + page <= logAt(i) && |page| <= limit
            && (|page| < limit ==> seen + page == logAt(i))
  {
    assert ValidAt(logAt, runId, i) && GrownBetween(logAt, if i == 0 then 0 else i - 1, i);
    PageContinues(logAt(i), runId, seen, limit);
  }

  /** Reading a page behind the first `n` events gives the next ones, and all of them when the page is not full. */
  lemma PageContinues(log: seq<Event>, runId: nat, seen: seq<Event>, limit: nat)
    requires ValidLog(log, runId) && seen <= log
    ensures var page := Read(log, LastOr(seen, 0), limit);
            && seen + page <= log && |page| <= limit
            && (|page| < limit ==> seen + page == log)
  {
    CursorBehindPrefix(log, runId, |seen|);
    assert log[..|seen|] == seen;
    assert After(log, LastOr(seen, 0)) == log[|seen|..];
  }

  /** `queries` is the number of store queries; the verdict is about the log as the last of them found it. */
  method ScanHistory(ghost runId: nat, logAt: nat -> seq<Event>) returns (r: Result<seq<Event>, MetricsError>, queries: nat)
    requires AppendOnly(logAt, runId)
    ensures 1 <= queries <= MAX_METRIC_EVENT_SCAN / METRIC_EVENT_PAGE_SIZE + 1
    ensures r.Ok? <==> |logAt(queries - 1)| <= MAX_METRIC_EVENT_SCAN
    ensures r.Ok? ==> r.value == logAt(queries - 1)
    ensures r.Err? ==> r.error == ScanLimitExceeded
  {
    var events, cursor := [], 0;
    queries := 0;
    var more := true;
    while more && |events| < MAX_METRIC_EVENT_SCAN
      invariant more ==> |events| == METRIC_EVENT_PAGE_SIZE * queries
      invariant 0 <= queries <= MAX_METRIC_EVENT_SCAN / METRIC_EVENT_PAGE_SIZE && |events| <= MAX_METRIC_EVENT_SCAN
      invariant queries > 0 || more
      invariant events <= logAt(if queries == 0 then 0 else queries - 1) && cursor == LastOr(events, 0)
      invariant !more ==> events == logAt(queries - 1) && |events| < MAX_METRIC_EVENT_SCAN
      decreases more, MAX_METRIC_EVENT_SCAN - |events|
    {
      var remaining := MAX_METRIC_EVENT_SCAN - |events|;
      var pageLimit := if METRIC_EVENT_PAGE_SIZE < remaining then METRIC_EVENT_PAGE_SIZE else remaining;
      var batch := Read(logAt(queries), cursor, pageLimit);
      PageFollows(logAt, runId, queries, events, pageLimit);
      queries := queries + 1;
      if batch == [] {
        more := false;
        assert events + [] == events;
      } else {
        events := events + batch;
        cursor := batch[|batch| - 1].sequence;
        more := |batch| == pageLimit;
      }
    }
    if |events| == MAX_METRIC_EVENT_SCAN {
      var overflow := Read(logAt(queries), cursor, 1);
      PageFollows(logAt, runId, queries, events, 1);
      queries := queries + 1;
      if overflow != [] { return Err(ScanLimitExceeded), queries; }
      assert events + [] == events;
    }
    return Ok(events), queries;
  }

  // ----- aggregation

  ghost predicate Contiguous(runId: nat, events: seq<Event>) {
    forall i :: 0 <= i < |events| ==> events[i].runId == runId && events[i].sequence == i + 1
  }

  ghost function Count(events: seq<Event>, p: Event -> bool): nat {
    if events == [] then 0 else Count(events[..|events| - 1], p) + if p(events[|events| - 1]) then 1 else 0
  }

  /** The counters a history ought to give. */
  ghost function Counters(events: seq<Event>): Aggregate {
    Aggregate(|events|,
              Count(events, (e: Event) => e.level == Warning), Count(events, (e: Event) => e.level == Error),
              Count(events, (e: Event) => e.kind == LeaseAcquired), Count(events, (e: Event) => e.kind == LeaseTakenOver),
              Count(events, (e: Event) => e.kind == LeaseReleased), LastOr(events, 0))
  }

  /** The positions of the events that qualify. */
  ghost function Positions(events: seq<Event>, p: Event -> bool): set<int> {
    set i | 0 <= i < |events| && p(events[i])
  }

  /** Counting over the list is the number of positions that qualify. */
  lemma {:induction false} CountIsNumber(events: seq<Event>, p: Event -> bool)
    ensures Count(events, p) == |Positions(events, p)|
  {
    if events == [] {
      assert Positions(events, p) == {};
    } else {
      var n := |events| - 1;
      CountIsNumber(events[..n], p);
      assert Positions(events, p) == Positions(events[..n], p) + if p(events[n]) then {n} else {};
    }
  }

  lemma CountersStep(events: seq<Event>, k: nat)
    requires k < |events|
    ensures var e, c, c' := events[k], Counters(events[..k]), Counters(events[..k + 1]);
            c' == Aggregate(k + 1,
                            c.warningEvents + if e.level == Warning then 1 else 0, c.errorEvents + if e.level == Error then 1 else 0,
                            c.leaseAcquisitions + if e.kind == LeaseAcquired then 1 else 0,
                            c.leaseTakeovers + if e.kind == LeaseTakenOver then 1 else 0,
                            c.leaseReleases + if e.kind == LeaseReleased then 1 else 0, e.sequence)
  {
    assert events[..k + 1][..k] == events[..k];
  }

  lemma {:induction false} CountIsBounded(events: seq<Event>, p: Event -> bool)
    ensures Count(events, p) <= |events|
  {
    if events != [] { CountIsBounded(events[..|events| - 1], p); }
  }

  /** Event `k` is the first that is not the next one of this run, and `error` says in what. */
  ghost predicate RefusedAt(runId: nat, events: seq<Event>, k: nat, error: MetricsError) {
    && k < |events| && Contiguous(runId, events[..k])
    && match error
       case ForeignRun => events[k].runId != runId
       case NotContiguous => events[k].runId == runId && events[k].sequence != k + 1
       case ScanLimitExceeded => false
  }

  method AggregateRuntimeEvents(runId: nat, events: seq<Event>) returns (r: Result<Aggregate, MetricsError>)
    ensures r.Ok? <==> Contiguous(runId, events)
    ensures r.Ok? ==> r.value == Counters(events) && r.value.Valid()
    ensures r.Err? ==> exists k: nat :: RefusedAt(runId, events, k, r.error)
  {
    var warnings, errors, acquisitions, takeovers, releases, expected := 0, 0, 0, 0, 0, 1;
    for k := 0 to |events|
      invariant expected == k + 1 && Contiguous(runId, events[..k])
      invariant Counters(events[..k]) == Aggregate(k, warnings, errors, acquisitions, takeovers, releases, k)
    {
      var event := events[k];
      assert event.runId != runId ==> RefusedAt(runId, events, k, ForeignRun);
      assert event.runId == runId && event.sequence != expected ==> RefusedAt(runId, events, k, NotContiguous);
      if event.runId != runId { return Err(ForeignRun); }
      if event.sequence != expected { return Err(NotContiguous); }
      CountersStep(events, k);
      expected := expected + 1;
      if event.level == Warning { warnings := warnings + 1; } else if event.level == Error { errors := errors + 1; }
      if event.kind == LeaseAcquired { acquisitions := acquisitions + 1; }
      else if event.kind == LeaseTakenOver { takeovers := takeovers + 1; }
      else if event.kind == LeaseReleased { releases := releases + 1; }
    }
    assert events[..|events|] == events;
    var latest := if events == [] then 0 else events[|events| - 1].sequence;
    var aggregate := Aggregate(|events|, warnings, errors, acquisitions, takeovers, releases, latest);
    CountIsBounded(events, (e: Event) => e.level == Warning);
    CountIsBounded(events, (e: Event) => e.level == Error);
    CountIsBounded(events, (e: Event) => e.kind == LeaseAcquired);
    CountIsBounded(events, (e: Event) => e.kind == LeaseTakenOver);
    CountIsBounded(events, (e: Event) => e.kind == LeaseReleased);
    assert aggregate.Valid();
    return Ok(aggregate);
  }

  /** An ordered log of one run is accepted exactly when its last sequence number is its length. */
  lemma {:induction false} ContiguousIffLastIsLength(log: seq<Event>, runId: nat)
    requires ValidLog(log, runId)
    ensures |log| <= LastOr(log, 0)
    ensures Contiguous(runId, log) <==> LastOr(log, 0) == |log|
  {
    if log != [] {
      var front := log[..|log| - 1];
      ContiguousIffLastIsLength(front, runId);
      if front != [] { assert front[|front| - 1].sequence < log[|log| - 1].sequence; }
      if LastOr(log, 0) == |log| {
        forall i | 0 <= i < |log| ensures log[i].runId == runId && log[i].sequence == i + 1 {
          if i < |front| { assert front[i] == log[i]; }
        }
      }
    }
  }

  /** The whole of `get_run_metrics` up to the counters. */
  method RunMetrics(runId: nat, logAt: nat -> seq<Event>) returns (r: Result<Aggregate, MetricsError>, queries: nat)
    requires AppendOnly(logAt, runId)
    ensures 1 <= queries <= MAX_METRIC_EVENT_SCAN / METRIC_EVENT_PAGE_SIZE + 1
    ensures r.Ok? <==> |logAt(queries - 1)| <= MAX_METRIC_EVENT_SCAN && LastOr(logAt(queries - 1), 0) == |logAt(queries - 1)|
    ensures r.Ok? ==> r.value == Counters(logAt(queries - 1)) && r.value.Valid()
    ensures r == Err(ScanLimitExceeded) <==> |logAt(queries - 1)| > MAX_METRIC_EVENT_SCAN
  {
    var events;
    events, queries := ScanHistory(runId, logAt);
    if events.Err? { return Err(events.error), queries; }
    assert ValidAt(logAt, runId, queries - 1);
    ContiguousIffLastIsLength(events.value, runId);
    r := AggregateRuntimeEvents(runId, events.value);
  }
}
