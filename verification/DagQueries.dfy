/** `TaskDAG.blocked_task_ids` and `TaskDAG.ready_task_ids`. */
module DagQueries {
  import opened Wrappers
  import opened Ids
  import opened Graphs
  import opened Kahn
  import opened TaskDags

  /** Transitively dependent on a failed task, without having failed itself. */
  ghost predicate Blocked(g: Graph, failed: set<Id>, x: Id) {
    x !in failed && exists f :: f in failed && Downstream(g, f, x)
  }

  ghost function BlockedSet(g: Graph, failed: set<Id>): set<Id> {
    set x | x in g && Blocked(g, failed, x)
  }

  ghost function ReadySet(g: Graph, completed: set<Id>, failed: set<Id>): set<Id> {
    set x | x in g && x !in completed && x !in failed && x !in BlockedSet(g, failed) && g[x] <= completed
  }

  /** The completed and failed sets for which `ready_task_ids` does not raise. */
  ghost predicate Accepts(g: Graph, completed: set<Id>, failed: set<Id>) {
    && completed <= g.Keys && failed <= g.Keys
    && completed * failed == {} && completed * BlockedSet(g, failed) == {}
  }

  function Filter(o: seq<Id>, s: set<Id>): seq<Id> {
    if o == [] then [] else (if o[0] in s then [o[0]] else []) + Filter(o[1..], s)
  }

  lemma {:induction false} FilterHolds(o: seq<Id>, s: set<Id>)
    ensures SetOf(Filter(o, s)) == SetOf(o) * s
  {
    if o != [] {
      FilterHolds(o[1..], s);
      assert SetOf(o) == {o[0]} + SetOf(o[1..]) by { assert o == [o[0]] + o[1..]; }
      var first := if o[0] in s then [o[0]] else [];
      assert SetOf(first + Filter(o[1..], s)) == SetOf(first) + SetOf(Filter(o[1..], s));
    }
  }

  lemma {:induction false} FilterAppend(o: seq<Id>, x: Id, s: set<Id>)
    ensures Filter(o + [x], s) == Filter(o, s) + if x in s then [x] else []
  {
    if o == [] {
      assert [x][1..] == [];
    } else {
      FilterAppend(o[1..], x, s);
      assert (o + [x])[1..] == o[1..] + [x];
    }
  }

  lemma DownstreamIsKnown(g: Graph, a: Id, x: Id)
    requires Downstream(g, a, x)
    ensures x in g
  {
    var _ := DownstreamLastEdge(g, a, x);
  }

  /** A set that contains `a` and with every task also its dependents contains everything downstream. */
  ghost predicate ClosedUnderDependents(g: Graph, s: set<Id>) {
    forall d, x :: d in s && DependsOn(g, x, d) ==> x in s
  }

  lemma {:induction false} ClosedCatchesPath(g: Graph, s: set<Id>, p: seq<Id>, a: Id, x: Id)
    requires ClosedUnderDependents(g, s) && a in s && PathFrom(g, p, a, x)
    ensures x in s
    decreases |p|
  {
    var d := p[|p| - 2];
    assert DependsOn(g, p[|p| - 2 + 1], d);
    if |p| > 2 {
      assert PathFrom(g, p[..|p| - 1], a, d);
      ClosedCatchesPath(g, s, p[..|p| - 1], a, d);
    }
  }

  lemma BlockedExtends(g: Graph, failed: set<Id>, d: Id, x: Id)
    requires d in failed || Blocked(g, failed, d)
    requires DependsOn(g, x, d) && x !in failed
    ensures Blocked(g, failed, x)
  {
    EdgeIsDownstream(g, d, x);
    if d !in failed {
      var f :| f in failed && Downstream(g, f, d);
      DownstreamTransitive(g, f, d, x);
    }
  }

  /** What the breadth-first search has found is all there is once its queue is empty. */
  lemma SearchIsComplete(g: Graph, failed: set<Id>, blocked: set<Id>)
    requires ClosedUnderDependents(g, failed + blocked) && blocked <= BlockedSet(g, failed)
    ensures blocked == BlockedSet(g, failed)
  {
    forall x | x in BlockedSet(g, failed) ensures x in blocked {
      var f :| f in failed && Downstream(g, f, x);
      var p :| PathFrom(g, p, f, x);
      ClosedCatchesPath(g, failed + blocked, p, f, x);
    }
  }

  /** Everything found so far is processed, except what still waits in the queue. */
  ghost predicate Processed(g: Graph, found: set<Id>, queue: seq<Id>) {
    forall d, x :: d in found && d !in queue && DependsOn(g, x, d) ==> x in found
  }

  /** One turn of the search: the dependents of `d` not yet known are blocked and queued. */
  method VisitDependents(ghost g: Graph, waiting: seq<Id>, failed: set<Id>, blocked: set<Id>, queue: seq<Id>)
    returns (blocked': set<Id>, queue': seq<Id>)
    ensures blocked' == blocked + (SetOf(waiting) - failed)
    ensures queue <= queue' && SetOf(queue') == SetOf(queue) + (blocked' - blocked)
    ensures blocked' == blocked ==> queue' == queue
  {
    blocked', queue' := blocked, queue;
    for k := 0 to |waiting|
      invariant blocked' == blocked + (SetOf(waiting[..k]) - failed)
      invariant queue <= queue' && SetOf(queue') == SetOf(queue) + (blocked' - blocked)
      invariant blocked' == blocked ==> queue' == queue
    {
      var dependent := waiting[k];
      assert waiting[..k + 1] == waiting[..k] + [dependent];
      SetOfAppend(waiting[..k], dependent);
      if dependent in failed || dependent in blocked' { continue; }
      blocked' := blocked' + {dependent};
      SetOfAppend(queue', dependent);
      queue' := queue' + [dependent];
    }
    assert waiting[..|waiting|] == waiting;
  }

  lemma QueueStaysProcessed(g: Graph, failed: set<Id>, before: set<Id>, blocked: set<Id>, queue: seq<Id>, queue': seq<Id>, waiting: set<Id>)
    requires queue != [] && Processed(g, failed + before, queue)
    requires forall x :: x in waiting <==> DependsOn(g, x, queue[0])
    requires blocked == before + (waiting - failed)
    requires SetOf(queue') == SetOf(queue[1..]) + (blocked - before)
    ensures Processed(g, failed + blocked, queue')
  {
    assert queue == [queue[0]] + queue[1..];
    forall d, x | d in failed + blocked && d !in queue' && DependsOn(g, x, d) ensures x in failed + blocked {
      assert d !in SetOf(queue');
      if d != queue[0] {
        assert d !in queue;
        assert d in failed + before;
      }
    }
  }

  /** One turn keeps what is found blocked, and either finds more or shortens the queue. */
  lemma SearchStep(g: Graph, failed: set<Id>, before: set<Id>, blocked: set<Id>, queue: seq<Id>, queue': seq<Id>, waiting: set<Id>)
    requires queue != [] && Processed(g, failed + before, queue)
    requires SetOf(queue) <= failed + before && before <= BlockedSet(g, failed)
    requires forall x :: x in waiting <==> DependsOn(g, x, queue[0])
    requires blocked == before + (waiting - failed)
    requires SetOf(queue') == SetOf(queue[1..]) + (blocked - before)
    ensures blocked <= BlockedSet(g, failed) && SetOf(queue') <= failed + blocked
    ensures Processed(g, failed + blocked, queue')
    ensures blocked == before || |g.Keys - blocked| < |g.Keys - before|
  {
    QueueStaysProcessed(g, failed, before, blocked, queue, queue', waiting);
    assert queue[0] in SetOf(queue);
    forall x | x in blocked ensures x in BlockedSet(g, failed) {
      if x !in before { BlockedExtends(g, failed, queue[0], x); }
    }
    assert SetOf(queue[1..]) <= SetOf(queue);
    SubsetCardinality(g.Keys - blocked, g.Keys - before);
    if |g.Keys - blocked| == |g.Keys - before| {
      forall x | x in blocked ensures x in before { assert x in g.Keys - before <==> x in g.Keys - blocked; }
    }
  }

  method SearchBlocked(ghost g: Graph, dependents: map<Id, set<Id>>, failed: set<Id>) returns (blocked: set<Id>)
    requires dependents.Keys == g.Keys && failed <= g.Keys
    requires forall d, x :: d in dependents ==> (x in dependents[d] <==> DependsOn(g, x, d))
    ensures blocked == BlockedSet(g, failed)
  {
    blocked := {};
    var queue := SortedIds(failed);
    while queue != []
      invariant blocked <= BlockedSet(g, failed)
      invariant SetOf(queue) <= failed + blocked
      invariant Processed(g, failed + blocked, queue)
      decreases |g.Keys - blocked|, |queue|
    {
      var failedOrBlocked := queue[0];
      assert failedOrBlocked in SetOf(queue);
      var waiting := SortedIds(dependents[failedOrBlocked]);
      ghost var before, queueBefore := blocked, queue;
      blocked, queue := VisitDependents(g, waiting, failed, blocked, queue[1..]);
      SearchStep(g, failed, before, blocked, queueBefore, queue, dependents[failedOrBlocked]);
    }
    SearchIsComplete(g, failed, blocked);
  }

  /** Every task transitively downstream of a failed one, and no other, in topological order. */
  method BlockedTaskIds(dag: TaskDAG, failed: set<Id>) returns (r: Result<seq<Id>, QueryError>)
    requires dag.Valid()
    ensures r == Err(UnknownFailedIds) <==> !(failed <= dag.Ids())
    ensures r.Err? ==> r == Err(UnknownFailedIds)
    ensures r.Ok? ==> SetOf(r.value) == BlockedSet(dag.Graph(), failed)
    ensures r.Ok? ==> r.value == Filter(Order(dag.Graph()), BlockedSet(dag.Graph(), failed))
  {
    ConsistentGraph(dag.tasks);
    if !(failed <= dag.Ids()) { return Err(UnknownFailedIds); }
    var dependents := Dependents(dag.tasks);
    var blocked := SearchBlocked(dag.Graph(), dependents, failed);
    var order := TopologicalOrder(dag.tasks);
    FilterHolds(order.value, blocked);
    return Ok(Filter(order.value, blocked));
  }

  method ReadyTaskIds(dag: TaskDAG, completed: set<Id>, failed: set<Id>) returns (r: Result<seq<Id>, QueryError>)
    requires dag.Valid()
    ensures r.Ok? <==> Accepts(dag.Graph(), completed, failed)
    ensures r.Ok? ==> SetOf(r.value) == ReadySet(dag.Graph(), completed, failed)
    ensures r.Ok? ==> r.value == Filter(Order(dag.Graph()), ReadySet(dag.Graph(), completed, failed))
    ensures r == Err(UnknownCompletedIds) <==> !(completed <= dag.Ids())
    ensures r == Err(UnknownFailedIds) <==> completed <= dag.Ids() && !(failed <= dag.Ids())
    ensures r.Err? && r.error.CompletedAndFailed? ==> r.error.overlap == completed * failed != {}
    ensures r.Err? && r.error.CompletedDownstreamOfFailed? ==>
              completed * failed == {} && r.error.inconsistent == completed * BlockedSet(dag.Graph(), failed) != {}
  {
    ConsistentGraph(dag.tasks);
    if !(completed <= dag.Ids()) { return Err(UnknownCompletedIds); }
    if !(failed <= dag.Ids()) { return Err(UnknownFailedIds); }
    var overlap := completed * failed;
    if overlap != {} { return Err(CompletedAndFailed(overlap)); }
    var blockedIds := BlockedTaskIds(dag, failed);
    var order := TopologicalOrder(dag.tasks);
    r := SelectReady(dag.Graph(), NodesById(dag.tasks), order.value, completed, failed, SetOf(blockedIds.value));
  }

  /** The part of `ready_task_ids` after the blocked set is known. */
  method SelectReady(ghost g: Graph, nodes: map<Id, TaskNode>, order: seq<Id>,
                     completed: set<Id>, failed: set<Id>, blocked: set<Id>)
    returns (r: Result<seq<Id>, QueryError>)
    requires nodes.Keys == g.Keys && forall x :: x in g ==> SetOf(nodes[x].dependsOn) == g[x]
    requires SetOf(order) == g.Keys && blocked == BlockedSet(g, failed)
    requires completed <= g.Keys && failed <= g.Keys && completed * failed == {}
    ensures r.Ok? <==> Accepts(g, completed, failed)
    ensures r.Ok? ==> r.value == Filter(order, ReadySet(g, completed, failed))
    ensures r.Ok? ==> SetOf(r.value) == ReadySet(g, completed, failed)
    ensures r.Err? ==> r.error == CompletedDownstreamOfFailed(completed * BlockedSet(g, failed))
    ensures r.Err? ==> completed * BlockedSet(g, failed) != {}
  {
    var inconsistent := completed * blocked;
    if inconsistent != {} { return Err(CompletedDownstreamOfFailed(inconsistent)); }
    ghost var readySet := ReadySet(g, completed, failed);
    var ready := [];
    for k := 0 to |order|
      invariant ready == Filter(order[..k], readySet)
    {
      var taskId := order[k];
      assert taskId in SetOf(order);
      assert order[..k + 1] == order[..k] + [taskId];
      FilterAppend(order[..k], taskId, readySet);
      if taskId in completed || taskId in failed || taskId in blocked { continue; }
      if SetOf(nodes[taskId].dependsOn) <= completed {
        ready := ready + [taskId];
      }
    }
    assert order[..|order|] == order;
    FilterHolds(order, readySet);
    assert SetOf(order) * readySet == readySet;
    return Ok(ready);
  }
}
