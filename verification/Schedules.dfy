/** Every way of working through a graph: tasks start when ready, several at a time, and succeed or fail. */
module Schedules {
  import opened Ids
  import opened Graphs
  import opened Kahn
  import opened DagQueries

  datatype Progress = Progress(completed: set<Id>, failed: set<Id>, running: set<Id>) {
    function Resolved(): set<Id> { completed + failed }
    function Touched(): set<Id> { completed + failed + running }
  }

  const Initial := Progress({}, {}, {})

  ghost predicate Starts(g: Graph, p: Progress, x: Id, p': Progress) {
    && x in ReadySet(g, p.completed, p.failed) && x !in p.running
    && p' == p.(running := p.running + {x})
  }

  ghost predicate Finishes(p: Progress, x: Id, ok: bool, p': Progress) {
    && x in p.running
    && p' == if ok then Progress(p.completed + {x}, p.failed, p.running - {x})
             else Progress(p.completed, p.failed + {x}, p.running - {x})
  }

  ghost predicate SomeStart(g: Graph, p: Progress, p': Progress) {
    exists x :: Starts(g, p, x, p')
  }

  ghost predicate SomeFinish(p: Progress, p': Progress) {
    exists x, ok :: Finishes(p, x, ok, p')
  }

  ghost predicate Step(g: Graph, p: Progress, p': Progress) {
    SomeStart(g, p, p') || SomeFinish(p, p')
  }

  ghost predicate Stuck(g: Graph, p: Progress) {
    forall p' :: !Step(g, p, p')
  }

  ghost predicate IsRun(g: Graph, run: seq<Progress>) {
    && run != [] && run[0] == Initial
    && forall i :: 0 <= i < |run| - 1 ==> Step(g, run[i], run[i + 1])
  }

  /** A task is only ever touched once all its dependencies are completed. */
  ghost predicate Sound(g: Graph, p: Progress) {
    && p.Touched() <= g.Keys
    && p.completed * p.failed == {} && p.completed * p.running == {} && p.failed * p.running == {}
    && forall x :: x in p.Touched() ==> g[x] <= p.completed
  }

  lemma StepKeepsSound(g: Graph, p: Progress, p': Progress)
    requires Sound(g, p) && Step(g, p, p')
    ensures Sound(g, p')
  {
  }

  lemma {:induction false} RunIsSound(g: Graph, run: seq<Progress>)
    requires IsRun(g, run)
    ensures forall p :: p in run ==> Sound(g, p)
  {
    if |run| > 1 {
      var n := |run| - 1;
      RunIsSound(g, run[..n]);
      assert run[..n][n - 1] == run[n - 1] && run == run[..n] + [run[n]];
      assert Step(g, run[n - 1], run[n - 1 + 1]);
      StepKeepsSound(g, run[n - 1], run[n]);
    }
  }

  /** Nothing touched is downstream of a task that is not completed. */
  lemma {:induction false} UpstreamOfTouched(g: Graph, p: Progress, q: seq<Id>, a: Id, x: Id)
    requires Sound(g, p) && PathFrom(g, q, a, x) && x in p.Touched()
    ensures a in p.completed
    decreases |q|
  {
    var d := q[|q| - 2];
    assert DependsOn(g, q[|q| - 2 + 1], d);
    if |q| > 2 {
      assert PathFrom(g, q[..|q| - 1], a, d);
      UpstreamOfTouched(g, p, q[..|q| - 1], a, d);
    }
  }

  lemma TouchedIsNotBlocked(g: Graph, p: Progress, x: Id)
    requires Sound(g, p) && x in p.Touched()
    ensures !Blocked(g, p.failed, x)
  {
    forall f | f in p.failed ensures !Downstream(g, f, x) {
      assert f !in p.completed by { assert f !in p.completed * p.failed; }
      if Downstream(g, f, x) {
        var q :| PathFrom(g, q, f, x);
        UpstreamOfTouched(g, p, q, f, x);
      }
    }
  }

  /** At every point of every run the queries accept, and nothing started or completed is blocked. */
  lemma QueriesNeverRaise(g: Graph, run: seq<Progress>, p: Progress)
    requires IsRun(g, run) && p in run
    ensures Accepts(g, p.completed, p.failed)
    ensures p.Touched() * BlockedSet(g, p.failed) == {}
  {
    RunIsSound(g, run);
    forall x | x in p.Touched() ensures x !in BlockedSet(g, p.failed) { TouchedIsNotBlocked(g, p, x); }
  }

  lemma {:induction false} FirstOutside(g: Graph, o: seq<Id>, s: set<Id>) returns (x: Id)
    requires Topological(g, o) && !(g.Keys <= s)
    ensures x in g && x !in s && g[x] <= s
  {
    var y :| y in g && y !in s;
    assert y in SetOf(o);
    var k :| 0 <= k < |o| && o[k] == y;
    var n := 0;
    while o[n] in s
      invariant n <= k && forall i :: 0 <= i < n ==> o[i] in s
      decreases k - n
    {
      n := n + 1;
    }
    x := o[n];
    assert x in SetOf(o);
    forall d | d in g[x] ensures d in s { assert d in SetOf(o[..n]); }
  }

  /** While anything is unresolved, something is ready: no schedule gets stuck. */
  lemma SomethingIsReady(g: Graph, p: Progress)
    requires Closed(g) && !Cyclic(g) && Sound(g, p)
    requires p.Resolved() + BlockedSet(g, p.failed) != g.Keys
    ensures ReadySet(g, p.completed, p.failed) != {}
  {
    OrderIsCompleteIffAcyclic(g);
    var settled := p.Resolved() + BlockedSet(g, p.failed);
    var x := FirstOutside(g, Order(g), settled);
    forall d | d in g[x] ensures d in p.completed {
      assert DependsOn(g, x, d);
      if d in p.failed || Blocked(g, p.failed, d) { BlockedExtends(g, p.failed, d, x); }
    }
    assert x in ReadySet(g, p.completed, p.failed);
  }

  lemma StartCounts(g: Graph, p: Progress, x: Id, p': Progress)
    requires Starts(g, p, x, p')
    ensures p'.Resolved() == p.Resolved() && |p'.Touched()| == |p.Touched()| + 1
  {
    assert x !in p.Touched();
    assert p'.Touched() == p.Touched() + {x};
  }

  /** Starting touches one more task; finishing resolves one more. */
  lemma StepCounts(g: Graph, p: Progress, p': Progress)
    requires Sound(g, p) && Step(g, p, p')
    ensures |p'.Touched()| + |p'.Resolved()| == |p.Touched()| + |p.Resolved()| + 1
  {
    if SomeStart(g, p, p') {
      var x :| Starts(g, p, x, p');
      StartCounts(g, p, x, p');
    } else {
      var x, ok :| Finishes(p, x, ok, p');
    }
  }

  lemma {:induction false} RunCountsSteps(g: Graph, run: seq<Progress>)
    requires IsRun(g, run)
    ensures |run| - 1 == |run[|run| - 1].Touched()| + |run[|run| - 1].Resolved()|
  {
    if |run| > 1 {
      LastStepOfRun(g, run);
      RunCountsSteps(g, run[..|run| - 1]);
      StepCounts(g, run[|run| - 2], run[|run| - 1]);
    }
  }

  lemma LastStepOfRun(g: Graph, run: seq<Progress>)
    requires IsRun(g, run) && |run| > 1
    ensures var n := |run| - 1;
            && IsRun(g, run[..n]) && run[..n][n - 1] == run[n - 1]
            && Sound(g, run[n - 1]) && Step(g, run[n - 1], run[n])
  {
    var n := |run| - 1;
    RunIsSound(g, run);
    assert run[n - 1] in run;
    assert Step(g, run[n - 1], run[n - 1 + 1]);
    forall i | 0 <= i < n - 1 ensures Step(g, run[..n][i], run[..n][i + 1]) { assert Step(g, run[i], run[i + 1]); }
  }

  /** Each task starts once and finishes once at most, so a run of n tasks has at most 2n steps. */
  lemma RunTerminates(g: Graph, run: seq<Progress>)
    requires IsRun(g, run)
    ensures |run| - 1 <= 2 * |g.Keys|
    ensures |run[|run| - 1].Resolved()| <= |g.Keys|
  {
    RunCountsSteps(g, run);
    RunIsSound(g, run);
    var last := run[|run| - 1];
    assert last in run;
    SubsetCardinality(last.Touched(), g.Keys);
    SubsetCardinality(last.Resolved(), g.Keys);
  }

  lemma UnsettledCanStep(g: Graph, p: Progress)
    requires Closed(g) && !Cyclic(g) && Sound(g, p)
    requires p.running != {} || p.Resolved() + BlockedSet(g, p.failed) != g.Keys
    ensures !Stuck(g, p)
  {
    if x :| x in p.running {
      var p' := Progress(p.completed + {x}, p.failed, p.running - {x});
      assert Finishes(p, x, true, p');
      assert Step(g, p, p');
    } else {
      SomethingIsReady(g, p);
      var x :| x in ReadySet(g, p.completed, p.failed);
      var p' := p.(running := p.running + {x});
      assert Starts(g, p, x, p');
      assert Step(g, p, p');
    }
  }

  /** A run that cannot go on has settled everything, each task exactly one way. */
  lemma RunEndsSettled(g: Graph, run: seq<Progress>)
    requires Closed(g) && !Cyclic(g) && IsRun(g, run)
    requires Stuck(g, run[|run| - 1])
    ensures var last := run[|run| - 1];
            && last.running == {}
            && last.completed + last.failed + BlockedSet(g, last.failed) == g.Keys
            && last.completed * last.failed == {} && last.Resolved() * BlockedSet(g, last.failed) == {}
  {
    var last := run[|run| - 1];
    assert last in run;
    RunIsSound(g, run);
    QueriesNeverRaise(g, run, last);
    if last.running != {} || last.Resolved() + BlockedSet(g, last.failed) != g.Keys {
      UnsettledCanStep(g, last);
    }
  }

  /** A task never runs or finishes once it is blocked, and never becomes blocked once it runs. */
  lemma StartedIsNeverBlockedLater(g: Graph, run: seq<Progress>, i: nat, j: nat, x: Id)
    requires IsRun(g, run) && i <= j < |run| && x in run[i].Touched()
    ensures x in run[j].Touched() && x !in BlockedSet(g, run[j].failed)
    decreases j - i
  {
    if i < j {
      assert Step(g, run[i], run[i + 1]);
      StartedIsNeverBlockedLater(g, run, i + 1, j, x);
    } else {
      RunIsSound(g, run);
      assert run[i] in run;
      TouchedIsNotBlocked(g, run[i], x);
    }
  }
}
