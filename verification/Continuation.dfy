/** `_remaining_session_dag` in `backend/app/api/autonomous.py`: what is left after some tasks are done. */
module Continuation {
  import opened Wrappers
  import opened Ids
  import opened Graphs
  import opened Kahn
  import opened TaskDags
  import opened DagQueries
  import opened Schedules

  function Without(deps: seq<Id>, completed: set<Id>): seq<Id> {
    if deps == [] then [] else
      (if deps[0] in completed then [] else [deps[0]]) + Without(deps[1..], completed)
  }

  function Pending(tasks: seq<TaskNode>, completed: set<Id>): seq<TaskNode> {
    if tasks == [] then [] else
      (if tasks[0].taskId in completed then []
       else [tasks[0].(dependsOn := Without(tasks[0].dependsOn, completed))])
      + Pending(tasks[1..], completed)
  }

  /** The same residue on the graph: completed tasks and the edges from them are gone. */
  ghost function Residual(g: Graph, completed: set<Id>): Graph {
    map x | x in g && x !in completed :: g[x] - completed
  }

  lemma {:induction false} WithoutHolds(deps: seq<Id>, completed: set<Id>)
    ensures SetOf(Without(deps, completed)) == SetOf(deps) - completed
    ensures NoDup(deps) ==> NoDup(Without(deps, completed))
  {
    if deps != [] {
      WithoutHolds(deps[1..], completed);
      assert deps == [deps[0]] + deps[1..];
      assert SetOf(deps) == {deps[0]} + SetOf(deps[1..]);
      var first := if deps[0] in completed then [] else [deps[0]];
      var rest := Without(deps[1..], completed);
      assert SetOf(first + rest) == SetOf(first) + SetOf(rest);
      if NoDup(deps) {
        assert NoDup(deps[1..]) by {
          forall i, j | 0 <= i < j < |deps[1..]| ensures deps[1..][i] != deps[1..][j] {
            assert deps[i + 1] != deps[j + 1];
          }
        }
        forall i | 0 <= i < |deps[1..]| ensures deps[1..][i] != deps[0] { assert deps[i + 1] != deps[0]; }
        assert deps[0] !in SetOf(rest);
      }
    }
  }

  lemma {:induction false} PendingIds(tasks: seq<TaskNode>, completed: set<Id>)
    ensures TaskIds(Pending(tasks, completed)) == Without(TaskIds(tasks), completed)
  {
    if tasks != [] {
      PendingIds(tasks[1..], completed);
      assert TaskIds(tasks)[1..] == TaskIds(tasks[1..]);
      var first := if tasks[0].taskId in completed then []
                   else [tasks[0].(dependsOn := Without(tasks[0].dependsOn, completed))];
      var rest := Pending(tasks[1..], completed);
      assert TaskIds(first + rest) == TaskIds(first) + TaskIds(rest);
    }
  }

  ghost predicate Trimmed(tasks: seq<TaskNode>, completed: set<Id>, m: TaskNode, n: TaskNode) {
    m in tasks && m.taskId !in completed && n == m.(dependsOn := Without(m.dependsOn, completed))
  }

  lemma {:induction false} PendingOrigin(tasks: seq<TaskNode>, completed: set<Id>, n: TaskNode) returns (m: TaskNode)
    requires n in Pending(tasks, completed)
    ensures Trimmed(tasks, completed, m, n)
  {
    var rest := Pending(tasks[1..], completed);
    if n in rest {
      m := PendingOrigin(tasks[1..], completed, n);
    } else {
      m := tasks[0];
    }
  }

  lemma {:induction false} PendingNodeIsSound(tasks: seq<TaskNode>, completed: set<Id>, n: TaskNode)
    requires Consistent(tasks) && n in Pending(tasks, completed)
    ensures n.Valid() && SetOf(n.dependsOn) <= SetOf(TaskIds(tasks)) - completed
    ensures n.taskId in GraphOf(tasks) && SetOf(n.dependsOn) == GraphOf(tasks)[n.taskId] - completed
  {
    var m := PendingOrigin(tasks, completed, n);
    WithoutHolds(m.dependsOn, completed);
    assert n.taskId in n.dependsOn ==> n.taskId in SetOf(n.dependsOn);
    ConsistentGraph(tasks);
    var k :| 0 <= k < |tasks| && tasks[k] == m;
    assert GraphOf(tasks)[tasks[k].taskId] == SetOf(m.dependsOn);
  }

  lemma {:induction false} PendingIsConsistent(tasks: seq<TaskNode>, completed: set<Id>)
    requires Consistent(tasks)
    ensures Consistent(Pending(tasks, completed))
    ensures SetOf(TaskIds(Pending(tasks, completed))) == SetOf(TaskIds(tasks)) - completed
  {
    PendingIds(tasks, completed);
    WithoutHolds(TaskIds(tasks), completed);
    forall n | n in Pending(tasks, completed) ensures n.Valid() && SetOf(n.dependsOn) <= SetOf(TaskIds(Pending(tasks, completed))) {
      PendingNodeIsSound(tasks, completed, n);
    }
  }

  /** Removing completed tasks commutes with taking the graph. */
  lemma {:induction false} PendingIsResidual(tasks: seq<TaskNode>, completed: set<Id>)
    requires Consistent(tasks)
    ensures GraphOf(Pending(tasks, completed)) == Residual(GraphOf(tasks), completed)
  {
    var rest := Pending(tasks, completed);
    PendingIsConsistent(tasks, completed);
    ConsistentGraph(tasks);
    ConsistentGraph(rest);
    forall x | x in GraphOf(rest) ensures GraphOf(rest)[x] == GraphOf(tasks)[x] - completed {
      assert x in SetOf(TaskIds(rest));
      var i :| 0 <= i < |TaskIds(rest)| && TaskIds(rest)[i] == x;
      PendingNodeIsSound(tasks, completed, rest[i]);
    }
  }

  lemma ResidualPath(g: Graph, completed: set<Id>, p: seq<Id>, a: Id, x: Id)
    requires PathFrom(Residual(g, completed), p, a, x)
    ensures PathFrom(g, p, a, x) && forall y :: y in p ==> y !in completed
  {
    var h := Residual(g, completed);
    forall i | 0 <= i < |p| - 1 ensures DependsOn(g, p[i + 1], p[i]) {
      assert DependsOn(h, p[i + 1], p[i]);
    }
    forall i | 0 <= i < |p| ensures p[i] !in completed {
      if i > 0 {
        assert DependsOn(h, p[i - 1 + 1], p[i - 1]);
      } else {
        assert DependsOn(h, p[0 + 1], p[0]);
      }
    }
  }

  lemma ResidualIsAcyclic(g: Graph, completed: set<Id>)
    requires !Cyclic(g)
    ensures !Cyclic(Residual(g, completed))
  {
    forall x ensures !Downstream(Residual(g, completed), x, x) {
      forall p ensures !PathFrom(Residual(g, completed), p, x, x) {
        if PathFrom(Residual(g, completed), p, x, x) {
          ResidualPath(g, completed, p, x, x);
          assert Downstream(g, x, x);
        }
      }
    }
  }

  lemma {:induction false} NothingPending(tasks: seq<TaskNode>, completed: set<Id>)
    requires Consistent(tasks)
    ensures Pending(tasks, completed) == [] <==> SetOf(TaskIds(tasks)) <= completed
  {
    var rest := Pending(tasks, completed);
    PendingIsConsistent(tasks, completed);
    if rest != [] {
      assert TaskIds(rest)[0] in SetOf(TaskIds(rest));
    } else {
      assert SetOf(TaskIds(rest)) == {};
      assert forall x | x in SetOf(TaskIds(tasks)) && x !in completed :: x in SetOf(TaskIds(rest));
    }
  }

  /** The continuation of a valid graph is valid, whatever set is called completed. */
  lemma {:induction false} ContinuationIsValid(tasks: seq<TaskNode>, completed: set<Id>)
    requires TaskDAG(tasks).Valid() && Pending(tasks, completed) != []
    ensures TaskDAG(Pending(tasks, completed)).Valid()
  {
    PendingIsConsistent(tasks, completed);
    PendingIsResidual(tasks, completed);
    ResidualIsAcyclic(GraphOf(tasks), completed);
  }

  /** The continuation exists exactly while something is pending; building it never raises. */
  method RemainingSessionDag(dag: TaskDAG, completed: set<Id>) returns (r: Option<TaskDAG>)
    requires dag.Valid()
    ensures r.None? <==> dag.Ids() <= completed
    ensures r.Some? ==> r.value.Valid() && r.value.Graph() == Residual(dag.Graph(), completed)
  {
    var pending := Pending(dag.tasks, completed);
    NothingPending(dag.tasks, completed);
    if pending == [] { return None; }
    ContinuationIsValid(dag.tasks, completed);
    PendingIsResidual(dag.tasks, completed);
    PendingIsConsistent(dag.tasks, completed);
    var built := Validate(pending);
    return Some(built.value);
  }

  // ----- scheduling on the residual graph

  /** A residual path is an original path that avoids the completed tasks. */
  lemma PathAvoidingCompleted(g: Graph, completed: set<Id>, p: seq<Id>, a: Id, x: Id)
    requires PathFrom(g, p, a, x) && forall y :: y in p ==> y !in completed
    ensures PathFrom(Residual(g, completed), p, a, x)
  {
    forall i | 0 <= i < |p| - 1 ensures DependsOn(Residual(g, completed), p[i + 1], p[i]) {
      assert DependsOn(g, p[i + 1], p[i]) && p[i] in p && p[i + 1] in p;
    }
  }

  lemma PathIsUnblockedUpTo(g: Graph, failed: set<Id>, p: seq<Id>, f: Id, x: Id, i: nat)
    requires PathFrom(g, p, f, x) && f in failed && i < |p|
    ensures p[i] in failed || p[i] in BlockedSet(g, failed)
  {
    if i > 0 && p[i] !in failed {
      assert PathFrom(g, p[0..i + 1], f, p[i]);
      assert Downstream(g, f, p[i]);
      assert DependsOn(g, p[i - 1 + 1], p[i - 1]);
    }
  }

  /** No completed task downstream of a failure means that blocking never passes through one. */
  lemma ResidualBlocks(g: Graph, done: set<Id>, failed: set<Id>)
    requires failed * done == {} && done * BlockedSet(g, failed) == {}
    ensures BlockedSet(Residual(g, done), failed) == BlockedSet(g, failed)
  {
    var h := Residual(g, done);
    forall x | x in BlockedSet(g, failed) ensures x in BlockedSet(h, failed) {
      var f :| f in failed && Downstream(g, f, x);
      var p :| PathFrom(g, p, f, x);
      forall y | y in p ensures y !in done {
        var i :| 0 <= i < |p| && p[i] == y;
        PathIsUnblockedUpTo(g, failed, p, f, x, i);
        assert y !in done * BlockedSet(g, failed) && y !in failed * done;
      }
      PathAvoidingCompleted(g, done, p, f, x);
      assert Downstream(h, f, x);
      DownstreamIsKnown(h, f, x);
    }
    forall x | x in BlockedSet(h, failed) ensures x in BlockedSet(g, failed) {
      var f :| f in failed && Downstream(h, f, x);
      var p :| PathFrom(h, p, f, x);
      ResidualPath(g, done, p, f, x);
      assert Downstream(g, f, x);
    }
  }

  /** Continuation preserves scheduling: whatever the full graph accepts, the residual one answers alike. */
  lemma ContinuationPreservesScheduling(g: Graph, done: set<Id>, completed: set<Id>, failed: set<Id>)
    requires Closed(g) && completed <= g.Keys - done && failed <= g.Keys - done
    requires Accepts(g, done + completed, failed)
    ensures Accepts(Residual(g, done), completed, failed)
    ensures BlockedSet(Residual(g, done), failed) == BlockedSet(g, failed)
    ensures ReadySet(Residual(g, done), completed, failed) == ReadySet(g, done + completed, failed)
  {
    assert failed * done == {} && done * BlockedSet(g, failed) == {} by {
      forall x | x in done ensures x !in failed && x !in BlockedSet(g, failed) {
        assert x !in (done + completed) * failed && x !in (done + completed) * BlockedSet(g, failed);
      }
    }
    ResidualBlocks(g, done, failed);
    var h := Residual(g, done);
    forall x | x in completed ensures x !in failed && x !in BlockedSet(g, failed) {
      assert x !in (done + completed) * failed && x !in (done + completed) * BlockedSet(g, failed);
    }
    forall x | x in h ensures h[x] <= completed <==> g[x] <= done + completed {}
  }

  ghost predicate DependencyClosed(g: Graph, done: set<Id>) {
    done <= g.Keys && forall x | x in done :: g[x] <= done
  }

  ghost predicate AgreesOn(g: Graph, done: set<Id>, completed: set<Id>, failed: set<Id>) {
    Accepts(Residual(g, done), completed, failed) <==> Accepts(g, done + completed, failed)
  }

  /** The two graphs accept the same later evidence for all evidence exactly when `done` is closed. */
  ghost predicate AgreesAlways(g: Graph, done: set<Id>) {
    forall completed, failed :: completed <= g.Keys - done && failed <= g.Keys - done ==>
      AgreesOn(g, done, completed, failed)
  }

  lemma {:induction false} ClosedIsUpstreamClosed(g: Graph, done: set<Id>, p: seq<Id>, a: Id, x: Id)
    requires DependencyClosed(g, done) && PathFrom(g, p, a, x) && x in done
    ensures a in done
    decreases |p|
  {
    var d := p[|p| - 2];
    assert DependsOn(g, p[|p| - 2 + 1], d);
    if |p| > 2 {
      assert PathFrom(g, p[..|p| - 1], a, d);
      ClosedIsUpstreamClosed(g, done, p[..|p| - 1], a, d);
    }
  }

  lemma ClosedNeverBlocked(g: Graph, done: set<Id>, failed: set<Id>)
    requires DependencyClosed(g, done) && failed <= g.Keys - done
    ensures done * BlockedSet(g, failed) == {} && failed * done == {}
  {
    forall x, f | x in done && f in failed ensures !Downstream(g, f, x) {
      if Downstream(g, f, x) {
        var p :| PathFrom(g, p, f, x);
        ClosedIsUpstreamClosed(g, done, p, f, x);
      }
    }
  }

  lemma ResidualAcceptanceIsExact(g: Graph, done: set<Id>)
    requires Closed(g) && done <= g.Keys
    ensures AgreesAlways(g, done) <==> DependencyClosed(g, done)
  {
    var h := Residual(g, done);
    if DependencyClosed(g, done) {
      forall completed, failed | completed <= g.Keys - done && failed <= g.Keys - done
        ensures AgreesOn(g, done, completed, failed)
      {
        ClosedNeverBlocked(g, done, failed);
        ResidualBlocks(g, done, failed);
        assert (done + completed) * failed == completed * failed;
        assert (done + completed) * BlockedSet(g, failed) == completed * BlockedSet(g, failed);
      }
    } else {
      var x :| x in done && !(g[x] <= done);
      var d :| d in g[x] && d !in done;
      assert DependsOn(g, x, d);
      EdgeIsDownstream(g, d, x);
      assert x in BlockedSet(g, {d});
      assert x in (done + {}) * BlockedSet(g, {d});
      assert Accepts(h, {}, {d});
      assert !AgreesOn(g, done, {}, {d});
    }
  }

  /** Calling a task completed whose dependency is not: after that fails, only the continuation goes on. */
  lemma AcceptanceMayDiffer(g: Graph)
    requires g == map["a" := {}, "b" := {"a"}]
    ensures Accepts(Residual(g, {"b"}), {}, {"a"}) && !Accepts(g, {"b"} + {}, {"a"})
  {
    assert DependsOn(g, "b", "a");
    EdgeIsDownstream(g, "a", "b");
    assert "b" in {"b"} * BlockedSet(g, {"a"});
  }

  /** What a run has completed is always closed, so a continuation of a real run is faithful. */
  lemma RunsCompleteClosedSets(g: Graph, run: seq<Progress>, p: Progress)
    requires Closed(g) && IsRun(g, run) && p in run
    ensures DependencyClosed(g, p.completed) && AgreesAlways(g, p.completed)
  {
    RunIsSound(g, run);
    assert DependencyClosed(g, p.completed);
    ResidualAcceptanceIsExact(g, p.completed);
  }

  /** Continuing a continuation is continuing once with everything done so far. */
  lemma ContinuationsCompose(g: Graph, done: set<Id>, more: set<Id>)
    ensures Residual(Residual(g, done), more) == Residual(g, done + more)
  {
    var a, b := Residual(Residual(g, done), more), Residual(g, done + more);
    forall x | x in a ensures x in b && a[x] == b[x] {
      assert g[x] - done - more == g[x] - (done + more);
    }
  }

  // ----- the listed order

  lemma {:induction false} GreedyReachedFromPrefix(g: Graph, done: seq<Id>, n: nat)
    requires |done| <= n <= |Greedy(g, done)|
    ensures Greedy(g, Greedy(g, done)[..n]) == Greedy(g, done)
    decreases n - |done|
  {
    var o := Greedy(g, done);
    var ready := Available(g, SetOf(done));
    assert done <= o;
    if n == |done| {
      assert o[..n] == done;
    } else {
      assert o == Greedy(g, done + [Least(ready)]);
      GreedyReachedFromPrefix(g, done + [Least(ready)], n);
    }
  }

  lemma {:induction false} GreedyStep(g: Graph, done: seq<Id>, x: Id)
    requires IsLeast(x, Available(g, SetOf(done)))
    ensures Greedy(g, done) == Greedy(g, done + [x])
  {
    LeastIsUnique(x, Least(Available(g, SetOf(done))), Available(g, SetOf(done)));
  }

  /** Some dependency of `o[j]` is neither completed nor listed before `o[i]`. */
  ghost predicate Held(g: Graph, o: seq<Id>, done: set<Id>, i: nat, j: nat)
    requires i < j < |o| && o[j] in g
  {
    exists d :: d in g[o[j]] && d !in done && d !in o[..i]
  }

  /** Whoever is listed behind a larger pending id is held there by a dependency that is still pending. */
  ghost predicate KeepsListing(g: Graph, o: seq<Id>, done: set<Id>)
    requires SetOf(o) <= g.Keys
  {
    forall i: nat, j: nat :: i < j < |o| && o[i] !in done && o[j] !in done && Less(o[j], o[i]) ==> Held(g, o, done, i, j)
  }

  /** The part of the first `n` listed that is still pending. */
  ghost function PendingFront(g: Graph, o: seq<Id>, done: set<Id>, n: nat): seq<Id>
    requires n <= |o|
  {
    Filter(o[..n], g.Keys - done)
  }

  lemma PendingFrontStep(g: Graph, o: seq<Id>, done: set<Id>, n: nat)
    requires n < |o|
    ensures PendingFront(g, o, done, n + 1) == PendingFront(g, o, done, n) + if o[n] in g.Keys - done then [o[n]] else []
  {
    assert o[..n + 1] == o[..n] + [o[n]];
    FilterAppend(o[..n], o[n], g.Keys - done);
  }

  lemma {:induction false} PendingFrontIsPrefix(g: Graph, o: seq<Id>, done: set<Id>, n: nat)
    requires n <= |o|
    ensures PendingFront(g, o, done, n) <= Filter(o, g.Keys - done)
    decreases |o| - n
  {
    if n == |o| {
      assert o[..n] == o;
    } else {
      PendingFrontStep(g, o, done, n);
      PendingFrontIsPrefix(g, o, done, n + 1);
    }
  }

  lemma PendingFrontHolds(g: Graph, o: seq<Id>, done: set<Id>, n: nat)
    requires n <= |o| && SetOf(o) <= g.Keys
    ensures forall d :: d in PendingFront(g, o, done, n) <==> d in o[..n] && d !in done
  {
    FilterHolds(o[..n], g.Keys - done);
    forall d ensures d in PendingFront(g, o, done, n) <==> d in o[..n] && d !in done {
      assert d in SetOf(PendingFront(g, o, done, n)) <==> d in SetOf(o[..n]) * (g.Keys - done);
      assert d in o[..n] ==> d in SetOf(o);
    }
  }

  /** Behind the pending part of `o[..n]`, a pending task is available exactly when nothing else holds it back. */
  lemma AvailableBehind(g: Graph, o: seq<Id>, done: set<Id>, n: nat, j: nat)
    requires Topological(g, o) && done <= g.Keys && n <= j < |o| && o[j] !in done
    ensures o[j] in Available(Residual(g, done), SetOf(PendingFront(g, o, done, n))) <==>
            forall d | d in g[o[j]] :: d in done || d in o[..n]
  {
    var h, front := Residual(g, done), PendingFront(g, o, done, n);
    PendingFrontHolds(g, o, done, n);
    assert o[j] in SetOf(o) && o[j] !in o[..n];
    assert h[o[j]] == g[o[j]] - done;
    assert h[o[j]] <= SetOf(front) <==> forall d | d in h[o[j]] :: d in front;
  }

  /** What is available behind a front part is pending and listed behind it. */
  lemma AvailableIsBehind(g: Graph, o: seq<Id>, done: set<Id>, n: nat, y: Id) returns (j: nat)
    requires Topological(g, o) && done <= g.Keys && n < |o|
    requires y in Available(Residual(g, done), SetOf(PendingFront(g, o, done, n)))
    ensures n <= j < |o| && o[j] == y && y !in done
  {
    PendingFrontHolds(g, o, done, n);
    forall k | 0 <= k < n ensures o[k] in o[..n] { assert o[..n][k] == o[k]; }
    assert y in SetOf(o) && y !in done && y !in o[..n];
    j :| 0 <= j < |o| && o[j] == y;
  }

  lemma PendingIsLeast(g: Graph, o: seq<Id>, done: set<Id>, n: nat)
    requires Topological(g, o) && done <= g.Keys && n < |o| && o[n] !in done && KeepsListing(g, o, done)
    ensures IsLeast(o[n], Available(Residual(g, done), SetOf(PendingFront(g, o, done, n))))
  {
    var h, front := Residual(g, done), PendingFront(g, o, done, n);
    assert g[o[n]] <= SetOf(o[..n]);
    AvailableBehind(g, o, done, n, n);
    forall j: nat | n < j < |o| && o[j] !in done && Less(o[j], o[n]) ensures o[j] !in Available(h, SetOf(front)) {
      assert Held(g, o, done, n, j);
      AvailableBehind(g, o, done, n, j);
    }
    forall y | y in Available(h, SetOf(front)) ensures o[n] == y || Less(o[n], y) {
      var j := AvailableIsBehind(g, o, done, n, y);
      LessTrichotomy(y, o[n]);
    }
  }

  lemma {:induction false} ListingIsGreedy(g: Graph, o: seq<Id>, done: set<Id>, n: nat)
    requires Topological(g, o) && done <= g.Keys && n <= |o| && KeepsListing(g, o, done)
    ensures Order(Residual(g, done)) == Greedy(Residual(g, done), PendingFront(g, o, done, n))
  {
    if n == 0 {
      assert o[..0] == [];
    } else {
      ListingIsGreedy(g, o, done, n - 1);
      PendingFrontStep(g, o, done, n - 1);
      if o[n - 1] in done {
        assert PendingFront(g, o, done, n - 1) + [] == PendingFront(g, o, done, n - 1);
      } else {
        PendingIsLeast(g, o, done, n - 1);
        GreedyStep(Residual(g, done), PendingFront(g, o, done, n - 1), o[n - 1]);
      }
    }
  }

  /** Sufficient: nothing pending is held back by completed tasks alone. */
  lemma {:induction false} KeptListingIsOrder(g: Graph, o: seq<Id>, done: set<Id>)
    requires Topological(g, o) && done <= g.Keys && KeepsListing(g, o, done)
    ensures Order(Residual(g, done)) == Filter(o, g.Keys - done)
  {
    ListingIsGreedy(g, o, done, |o|);
    assert o[..|o|] == o;
    FilterHolds(o, g.Keys - done);
    assert Available(Residual(g, done), SetOf(Filter(o, g.Keys - done))) == {};
  }

  /** Necessary: a task no longer held back is listed earlier. */
  lemma {:induction false} OrderKeepsListing(g: Graph, o: seq<Id>, done: set<Id>, i: nat, j: nat)
    requires Topological(g, o) && done <= g.Keys && Order(Residual(g, done)) == Filter(o, g.Keys - done)
    requires i < j < |o| && o[i] !in done && o[j] !in done && Less(o[j], o[i])
    ensures Held(g, o, done, i, j)
  {
    var h, front := Residual(g, done), PendingFront(g, o, done, i);
    PendingFrontIsPrefix(g, o, done, i);
    PendingFrontStep(g, o, done, i);
    PendingFrontIsPrefix(g, o, done, i + 1);
    GreedyReachedFromPrefix(h, [], |front|);
    assert Order(h)[..|front|] == front && Order(h)[|front|] == o[i];
    NextIsLeast(h, front, o[i]);
    AvailableBehind(g, o, done, i, j);
    LessTrichotomy(o[i], o[j]);
  }

  lemma {:induction false} NextIsLeast(h: Graph, front: seq<Id>, x: Id)
    requires |front| < |Greedy(h, front)| && Greedy(h, front)[|front|] == x
    ensures IsLeast(x, Available(h, SetOf(front)))
  {
    var ready := Available(h, SetOf(front));
    assert front + [Least(ready)] <= Greedy(h, front);
  }

  /** The continuation lists the pending tasks in their old order exactly when the completed ones alone held nobody back. */
  lemma {:induction false} OrderIsKeptIff(g: Graph, done: set<Id>)
    requires Closed(g) && !Cyclic(g) && done <= g.Keys
    ensures SetOf(Order(g)) == g.Keys
    ensures Order(Residual(g, done)) == Filter(Order(g), g.Keys - done) <==> KeepsListing(g, Order(g), done)
  {
    var o := Order(g);
    OrderIsCompleteIffAcyclic(g);
    if KeepsListing(g, o, done) { KeptListingIsOrder(g, o, done); }
    if Order(Residual(g, done)) == Filter(o, g.Keys - done) {
      forall i: nat, j: nat | i < j < |o| && o[i] !in done && o[j] !in done && Less(o[j], o[i]) ensures Held(g, o, done, i, j) {
        OrderKeepsListing(g, o, done, i, j);
      }
    }
  }

  lemma {:induction false} FilterAll(o: seq<Id>, s: set<Id>)
    requires forall x | x in o :: x in s
    ensures Filter(o, s) == o
  {
    if o != [] {
      forall x | x in o[1..] ensures x in s { assert x in o; }
      FilterAll(o[1..], s);
    }
  }

  lemma {:induction false} FilterNone(o: seq<Id>, s: set<Id>)
    requires forall x | x in o :: x !in s
    ensures Filter(o, s) == []
  {
    if o != [] {
      forall x | x in o[1..] ensures x !in s { assert x in o; }
      FilterNone(o[1..], s);
    }
  }

  lemma {:induction false} FilterConcat(a: seq<Id>, b: seq<Id>, s: set<Id>)
    ensures Filter(a + b, s) == Filter(a, s) + Filter(b, s)
  {
    if a == [] {
      assert a + b == b;
    } else {
      FilterConcat(a[1..], b, s);
      assert (a + b)[1..] == a[1..] + b;
    }
  }

  lemma {:induction false} RestIsPending(o: seq<Id>, n: nat, keys: set<Id>)
    requires NoDup(o) && SetOf(o) == keys && n <= |o|
    ensures Filter(o, keys - SetOf(o[..n])) == o[n..]
  {
    var pending := keys - SetOf(o[..n]);
    forall x | x in o[n..] ensures x in pending {
      var i :| n <= i < |o| && o[i] == x;
      assert x in SetOf(o);
    }
    FilterAll(o[n..], pending);
    FilterNone(o[..n], pending);
    assert o == o[..n] + o[n..];
    FilterConcat(o[..n], o[n..], pending);
  }

  /** The order itself keeps its listing: nothing completed is the case of an unchanged graph. */
  lemma OrderKeepsItself(g: Graph)
    requires Closed(g) && !Cyclic(g)
    ensures SetOf(Order(g)) == g.Keys && KeepsListing(g, Order(g), {})
  {
    OrderIsCompleteIffAcyclic(g);
    assert forall x | x in g :: g[x] - {} == g[x];
    assert Residual(g, {}) == g;
    forall x | x in Order(g) ensures x in g.Keys - {} { assert x in SetOf(Order(g)); }
    FilterAll(Order(g), g.Keys - {});
    OrderIsKeptIff(g, {});
  }

  /** A completed front part holds nobody back. */
  lemma FrontKeepsListing(g: Graph, o: seq<Id>, n: nat)
    requires SetOf(o) <= g.Keys && n <= |o| && KeepsListing(g, o, {})
    ensures KeepsListing(g, o, SetOf(o[..n]))
  {
    var done := SetOf(o[..n]);
    forall k | 0 <= k < n ensures o[k] in done { assert o[..n][k] == o[k]; }
    forall i: nat, j: nat | i < j < |o| && o[i] !in done && o[j] !in done && Less(o[j], o[i]) ensures Held(g, o, done, i, j) {
      assert Held(g, o, {}, i, j);
      assert o[..n] == o[..i][..n];
    }
  }

  /** In particular: when the completed tasks are the front of the order, the rest is listed unchanged. */
  lemma OrderAfterPrefix(g: Graph, n: nat)
    requires Closed(g) && !Cyclic(g) && n <= |Order(g)|
    ensures Order(Residual(g, SetOf(Order(g)[..n]))) == Order(g)[n..]
  {
    var o := Order(g);
    OrderIsCompleteIffAcyclic(g);
    OrderKeepsItself(g);
    FrontKeepsListing(g, o, n);
    assert SetOf(o[..n]) <= SetOf(o);
    OrderIsKeptIff(g, SetOf(o[..n]));
    RestIsPending(o, n, g.Keys);
  }

  lemma ExampleOrder(g: Graph)
    requires g == map["a" := {"c"}, "b" := {}, "c" := {}]
    ensures Order(g) == ["b", "c", "a"]
  {
    assert g.Keys == {"a", "b", "c"} && g["a"] == {"c"} && g["b"] == {} && g["c"] == {};
    assert SetOf<Id>([]) == {} && Available(g, {}) == {"b", "c"};
    GreedyStep(g, [], "b");
    assert [] + ["b"] == ["b"] && SetOf(["b"]) == {"b"} && Available(g, {"b"}) == {"c"};
    GreedyStep(g, ["b"], "c");
    assert ["b"] + ["c"] == ["b", "c"] && SetOf(["b", "c"]) == {"b", "c"} && Available(g, {"b", "c"}) == {"a"};
    GreedyStep(g, ["b", "c"], "a");
    assert ["b", "c"] + ["a"] == ["b", "c", "a"];
    assert SetOf(["b", "c", "a"]) == {"a", "b", "c"} && Available(g, {"a", "b", "c"}) == {};
  }

  lemma ExampleResidualOrder(g: Graph)
    requires g == map["a" := {"c"}, "b" := {}, "c" := {}]
    ensures Residual(g, {"c"}).Keys == {"a", "b"} && Order(Residual(g, {"c"})) == ["a", "b"]
  {
    var h := Residual(g, {"c"});
    assert h.Keys == {"a", "b"} && h["a"] == {} && h["b"] == {};
    assert SetOf<Id>([]) == {} && Available(h, {}) == {"a", "b"};
    GreedyStep(h, [], "a");
    assert [] + ["a"] == ["a"] && SetOf(["a"]) == {"a"} && Available(h, {"a"}) == {"b"};
    GreedyStep(h, ["a"], "b");
    assert ["a"] + ["b"] == ["a", "b"] && SetOf(["a", "b"]) == {"a", "b"} && Available(h, {"a", "b"}) == {};
  }

  /** Otherwise the continuation may list the same tasks in another order. */
  lemma OrderMayChange(g: Graph)
    requires g == map["a" := {"c"}, "b" := {}, "c" := {}]
    ensures Filter(Order(g), Residual(g, {"c"}).Keys) != Order(Residual(g, {"c"}))
  {
    ExampleOrder(g);
    ExampleResidualOrder(g);
    assert Filter(["b", "c", "a"], {"a", "b"}) == ["b", "a"] by {
      assert ["b", "c", "a"][1..] == ["c", "a"] && ["c", "a"][1..] == ["a"] && ["a"][1..] == [];
    }
  }
}
