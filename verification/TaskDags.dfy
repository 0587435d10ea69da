/** `backend/app/models/dag.py`: validated task graphs and their scheduling queries. */
module TaskDags {
  import opened Wrappers
  import opened Ids
  import opened Graphs
  import opened Kahn

  datatype NodeError = DuplicateDependencies | SelfDependency

  datatype TaskNode = TaskNode(taskId: Id, dependsOn: seq<Id>) {
    ghost predicate Valid() {
      NoDup(dependsOn) && taskId !in dependsOn
    }
  }

  datatype DagError =
    | NoTasks
    | DuplicateTaskIds
    | UnknownDependencies(missing: seq<Id>)
    | DependencyCycle(unresolved: seq<Id>)

  datatype QueryError =
    | UnknownCompletedIds
    | UnknownFailedIds
    | CompletedAndFailed(overlap: set<Id>)
    | CompletedDownstreamOfFailed(inconsistent: set<Id>)

  datatype TaskDAG = TaskDAG(tasks: seq<TaskNode>) {
    ghost predicate Valid() {
      tasks != [] && Consistent(tasks) && !Cyclic(Graph())
    }

    function Graph(): Graph { GraphOf(tasks) }

    function Ids(): set<Id> { SetOf(TaskIds(tasks)) }
  }

  function TaskIds(tasks: seq<TaskNode>): seq<Id> {
    seq(|tasks|, i requires 0 <= i < |tasks| => tasks[i].taskId)
  }

  /** A dictionary comprehension: a later entry replaces an earlier one. */
  function NodesById(tasks: seq<TaskNode>): map<Id, TaskNode> {
    if tasks == [] then map[]
    else NodesById(tasks[..|tasks| - 1])[tasks[|tasks| - 1].taskId := tasks[|tasks| - 1]]
  }

  function GraphOf(tasks: seq<TaskNode>): Graph {
    var nodes := NodesById(tasks);
    map x | x in nodes :: SetOf(nodes[x].dependsOn)
  }

  /** Valid nodes, no id twice, no unknown dependency. */
  ghost predicate Consistent(tasks: seq<TaskNode>) {
    && (forall n | n in tasks :: n.Valid())
    && NoDup(TaskIds(tasks))
    && (forall n | n in tasks :: SetOf(n.dependsOn) <= SetOf(TaskIds(tasks)))
  }

  lemma {:induction false} NodesByIdHoldsTheTasks(tasks: seq<TaskNode>)
    ensures NodesById(tasks).Keys == SetOf(TaskIds(tasks))
    ensures forall x :: x in NodesById(tasks) ==> NodesById(tasks)[x] in tasks && NodesById(tasks)[x].taskId == x
  {
    if tasks != [] {
      var n := |tasks| - 1;
      NodesByIdHoldsTheTasks(tasks[..n]);
      assert TaskIds(tasks) == TaskIds(tasks[..n]) + [tasks[n].taskId];
    }
  }

  /** Without duplicates every task is found under its id. */
  lemma {:induction false} EveryTaskIsFound(tasks: seq<TaskNode>, i: nat)
    requires NoDup(TaskIds(tasks)) && i < |tasks|
    ensures tasks[i].taskId in NodesById(tasks) && NodesById(tasks)[tasks[i].taskId] == tasks[i]
  {
    var n := |tasks| - 1;
    if i < n {
      assert TaskIds(tasks) == TaskIds(tasks[..n]) + [tasks[n].taskId];
      assert TaskIds(tasks)[i] != TaskIds(tasks)[n];
      forall j, k | 0 <= j < k < n ensures TaskIds(tasks[..n])[j] != TaskIds(tasks[..n])[k] {
        assert TaskIds(tasks)[j] != TaskIds(tasks)[k];
      }
      EveryTaskIsFound(tasks[..n], i);
    }
  }

  lemma {:induction false} ConsistentGraph(tasks: seq<TaskNode>)
    requires Consistent(tasks)
    ensures Closed(GraphOf(tasks)) && GraphOf(tasks).Keys == SetOf(TaskIds(tasks)) == NodesById(tasks).Keys
    ensures forall i :: 0 <= i < |tasks| ==>
              tasks[i].taskId in GraphOf(tasks) && GraphOf(tasks)[tasks[i].taskId] == SetOf(tasks[i].dependsOn)
    ensures forall x :: x in GraphOf(tasks) ==> |NodesById(tasks)[x].dependsOn| == |GraphOf(tasks)[x]|
    ensures forall x :: x in GraphOf(tasks) ==> x !in GraphOf(tasks)[x]
  {
    NodesByIdHoldsTheTasks(tasks);
    forall i | 0 <= i < |tasks| ensures tasks[i].taskId in NodesById(tasks) && NodesById(tasks)[tasks[i].taskId] == tasks[i] {
      EveryTaskIsFound(tasks, i);
    }
    forall x | x in GraphOf(tasks)
      ensures |NodesById(tasks)[x].dependsOn| == |GraphOf(tasks)[x]|
    {
      CardinalityOfSetOf(NodesById(tasks)[x].dependsOn);
    }
  }

  /** The graph, and with it every query, does not depend on the order in which tasks are listed. */
  lemma ListingOrderIsIrrelevant(tasks: seq<TaskNode>, tasks': seq<TaskNode>)
    requires Consistent(tasks) && Consistent(tasks') && multiset(tasks) == multiset(tasks')
    ensures GraphOf(tasks) == GraphOf(tasks')
  {
    SameNodes(tasks, tasks');
    SameNodes(tasks', tasks);
  }

  lemma {:induction false} SameNodes(tasks: seq<TaskNode>, tasks': seq<TaskNode>)
    requires NoDup(TaskIds(tasks')) && multiset(tasks) == multiset(tasks')
    ensures forall x | x in NodesById(tasks) :: x in NodesById(tasks') && NodesById(tasks')[x] == NodesById(tasks)[x]
  {
    NodesByIdHoldsTheTasks(tasks);
    forall x | x in NodesById(tasks) ensures x in NodesById(tasks') && NodesById(tasks')[x] == NodesById(tasks)[x] {
      var n := NodesById(tasks)[x];
      assert n in multiset(tasks');
      var i: nat :| i < |tasks'| && tasks'[i] == n;
      EveryTaskIsFound(tasks', i);
    }
  }

  // ----- construction

  method MakeNode(taskId: Id, dependsOn: seq<Id>) returns (r: Result<TaskNode, NodeError>)
    ensures r.Ok? <==> TaskNode(taskId, dependsOn).Valid()
    ensures r.Ok? ==> r.value == TaskNode(taskId, dependsOn)
    ensures r == Err(DuplicateDependencies) <==> !NoDup(dependsOn)
  {
    CardinalityOfSetOf(dependsOn);
    if |dependsOn| != |SetOf(dependsOn)| { return Err(DuplicateDependencies); }
    if taskId in dependsOn { return Err(SelfDependency); }
    return Ok(TaskNode(taskId, dependsOn));
  }

  /** Accepts exactly the valid graphs, and names the first defect in the order it checks them. */
  method Validate(tasks: seq<TaskNode>) returns (r: Result<TaskDAG, DagError>)
    requires forall n | n in tasks :: n.Valid()
    ensures r.Ok? <==> TaskDAG(tasks).Valid()
    ensures r.Ok? ==> r.value == TaskDAG(tasks)
    ensures r == Err(NoTasks) <==> tasks == []
    ensures r == Err(DuplicateTaskIds) <==> !NoDup(TaskIds(tasks))
    ensures r.Err? && r.error.UnknownDependencies? ==>
              !Consistent(tasks) && Ascending(r.error.missing) && r.error.missing != [] &&
              forall d :: d in r.error.missing <==> d !in TaskIds(tasks) && exists n :: n in tasks && d in n.dependsOn
    ensures r.Err? && r.error.DependencyCycle? <==> tasks != [] && Consistent(tasks) && Cyclic(GraphOf(tasks))
    ensures r.Err? && r.error.DependencyCycle? ==>
              forall x :: x in r.error.unresolved <==> x in GraphOf(tasks) && Tangled(GraphOf(tasks), x)
  {
    if tasks == [] { return Err(NoTasks); }
    var taskIds := TaskIds(tasks);
    CardinalityOfSetOf(taskIds);
    if |taskIds| != |SetOf(taskIds)| { return Err(DuplicateTaskIds); }
    var missing := set n, d | n in tasks && d in n.dependsOn && d !in SetOf(taskIds) :: d;
    if missing != {} {
      var listed := SortedIds(missing);
      forall d ensures d in listed <==> d !in TaskIds(tasks) && exists n :: n in tasks && d in n.dependsOn {
        assert d in listed <==> d in SetOf(listed);
        assert d in SetOf(taskIds) <==> d in taskIds;
      }
      ghost var d :| d in missing;
      ghost var n :| n in tasks && d in n.dependsOn && d !in SetOf(taskIds);
      assert d in SetOf(n.dependsOn);
      return Err(UnknownDependencies(listed));
    }
    assert Consistent(tasks) by {
      forall n, d | n in tasks && d in SetOf(n.dependsOn) ensures d in SetOf(taskIds) { assert d !in missing; }
    }
    var order := TopologicalOrder(tasks);
    if order.Err? { return Err(DependencyCycle(order.error)); }
    return Ok(TaskDAG(tasks));
  }

  ghost function DependentsAmong(tasks: seq<TaskNode>, n: nat, d: Id): set<Id>
    requires n <= |tasks|
  {
    set k | 0 <= k < n && d in tasks[k].dependsOn :: tasks[k].taskId
  }

  lemma OneMoreTask(tasks: seq<TaskNode>, n: nat, d: Id)
    requires n < |tasks|
    ensures DependentsAmong(tasks, n + 1, d) ==
            DependentsAmong(tasks, n, d) + if d in tasks[n].dependsOn then {tasks[n].taskId} else {}
  {
  }

  /** The inner loop: one task registers with each of its dependencies. */
  method Register(node: TaskNode, dependents: map<Id, set<Id>>) returns (r: map<Id, set<Id>>)
    requires SetOf(node.dependsOn) <= dependents.Keys
    ensures r.Keys == dependents.Keys
    ensures forall d :: d in r ==> r[d] == dependents[d] + if d in node.dependsOn then {node.taskId} else {}
  {
    r := dependents;
    for j := 0 to |node.dependsOn|
      invariant r.Keys == dependents.Keys
      invariant forall d :: d in r ==> r[d] == dependents[d] + if d in node.dependsOn[..j] then {node.taskId} else {}
    {
      var d := node.dependsOn[j];
      assert d in SetOf(node.dependsOn);
      assert node.dependsOn[..j + 1] == node.dependsOn[..j] + [d];
      r := r[d := r[d] + {node.taskId}];
    }
    assert node.dependsOn[..|node.dependsOn|] == node.dependsOn;
  }

  method Dependents(tasks: seq<TaskNode>) returns (dependents: map<Id, set<Id>>)
    requires Consistent(tasks)
    ensures dependents.Keys == GraphOf(tasks).Keys
    ensures forall d, x :: d in dependents ==> (x in dependents[d] <==> DependsOn(GraphOf(tasks), x, d))
  {
    ConsistentGraph(tasks);
    var taskIds := TaskIds(tasks);
    dependents := map x | x in taskIds :: {};
    for i := 0 to |tasks|
      invariant dependents.Keys == SetOf(taskIds)
      invariant forall d :: d in dependents ==> dependents[d] == DependentsAmong(tasks, i, d)
    {
      assert tasks[i] in tasks;
      forall d ensures DependentsAmong(tasks, i + 1, d) ==
                       DependentsAmong(tasks, i, d) + if d in tasks[i].dependsOn then {tasks[i].taskId} else {}
      {
        OneMoreTask(tasks, i, d);
      }
      dependents := Register(tasks[i], dependents);
    }
    forall d, x | d in dependents ensures x in dependents[d] <==> DependsOn(GraphOf(tasks), x, d) {
      DependentsAreTheReverseEdges(tasks, d, x);
    }
  }

  lemma DependentsAreTheReverseEdges(tasks: seq<TaskNode>, d: Id, x: Id)
    requires Consistent(tasks)
    ensures x in DependentsAmong(tasks, |tasks|, d) <==> DependsOn(GraphOf(tasks), x, d)
  {
    ConsistentGraph(tasks);
    if DependsOn(GraphOf(tasks), x, d) {
      assert x in TaskIds(tasks);
      var k :| 0 <= k < |tasks| && TaskIds(tasks)[k] == x;
      assert tasks[k].taskId == x;
    }
  }

  // ----- topological_order

  lemma EmptyDifference<T>(a: set<T>, b: set<T>)
    ensures |a - b| == 0 <==> a <= b
  {
    if a <= b {
      assert a - b == {};
    } else {
      var x :| x in a && x !in b;
      assert x in a - b;
    }
  }

  lemma OneLessToWaitFor(deps: set<Id>, done: set<Id>, x: Id)
    requires x !in done
    ensures |deps - (done + {x})| == |deps - done| - if x in deps then 1 else 0
  {
    if x in deps {
      assert deps - done == (deps - (done + {x})) + {x};
    } else {
      assert deps - done == deps - (done + {x});
    }
  }

  lemma MultisetWithout(s: set<Id>, x: Id)
    requires x in s
    ensures multiset(s) - multiset{x} == multiset(s - {x})
  {
  }

  /** The in-degrees once the tasks in `hit` have been told that one more dependency is out. */
  ghost predicate InDegrees(g: Graph, done: set<Id>, hit: set<Id>, indegree: map<Id, int>) {
    && indegree.Keys == g.Keys
    && forall x :: x in g ==> indegree[x] == |g[x] - done| - if x in hit then 1 else 0
  }

  /** The tasks in `hit` that were waiting for one dependency only. */
  ghost function Released(g: Graph, done: set<Id>, hit: set<Id>): set<Id> {
    set x | x in hit && x in g && |g[x] - done| == 1
  }

  /** Emitting `x` keeps the others available and adds the dependents that waited for `x` alone. */
  lemma EmitUpdatesAvailable(g: Graph, ordered: seq<Id>, x: Id, dependents: set<Id>)
    requires Closed(g) && Sequenced(g, ordered) && x in Available(g, SetOf(ordered)) && x !in g[x]
    requires forall y :: y in dependents <==> DependsOn(g, y, x)
    ensures Available(g, SetOf(ordered) + {x}) ==
            Available(g, SetOf(ordered)) - {x} + Released(g, SetOf(ordered), dependents)
  {
    var done := SetOf(ordered);
    forall y ensures y in Available(g, done + {x}) <==>
                     y in Available(g, done) - {x} + Released(g, done, dependents)
    {
      if y in g {
        OneLessToWaitFor(g[y], done, x);
        EmptyDifference(g[y], done);
        EmptyDifference(g[y], done + {x});
      }
    }
  }

  lemma TellOne(g: Graph, done: set<Id>, base: set<Id>, hit: set<Id>, x: Id, indegree: map<Id, int>)
    requires InDegrees(g, done, hit, indegree) && x in g && x !in hit && x !in base
    ensures InDegrees(g, done, hit + {x}, indegree[x := indegree[x] - 1])
    ensures multiset(base + Released(g, done, hit + {x})) ==
            multiset(base + Released(g, done, hit)) + if indegree[x] == 1 then multiset{x} else multiset{}
  {
    if indegree[x] == 1 {
      assert base + Released(g, done, hit) + {x} == base + Released(g, done, hit + {x});
    } else {
      assert Released(g, done, hit) == Released(g, done, hit + {x});
    }
  }

  /** The inner loop of one turn: tell every dependent, in sorted order, and push those now free. */
  method TellDependents(ghost g: Graph, ghost done: set<Id>, ghost base: set<Id>, waiting: seq<Id>,
                        indegree: map<Id, int>, ready: multiset<Id>)
    returns (indegree': map<Id, int>, ready': multiset<Id>)
    requires InDegrees(g, done, {}, indegree) && ready == multiset(base)
    requires NoDup(waiting) && SetOf(waiting) <= g.Keys && SetOf(waiting) !! base
    ensures InDegrees(g, done, SetOf(waiting), indegree')
    ensures ready' == multiset(base + Released(g, done, SetOf(waiting)))
  {
    indegree', ready' := indegree, ready;
    ghost var hit: set<Id> := {};
    assert base + Released(g, done, {}) == base;
    for k := 0 to |waiting|
      invariant hit == SetOf(waiting[..k])
      invariant InDegrees(g, done, hit, indegree')
      invariant ready' == multiset(base + Released(g, done, hit))
    {
      var x := waiting[k];
      TellOne(g, done, base, hit, x, indegree');
      hit := hit + {x};
      indegree' := indegree'[x := indegree'[x] - 1];
      if indegree'[x] == 0 {
        ready' := ready' + multiset{x};
      }
    }
    assert waiting[..|waiting|] == waiting;
  }

  lemma InDegreesAfterEmit(g: Graph, done: set<Id>, x: Id, dependents: set<Id>, indegree: map<Id, int>)
    requires InDegrees(g, done, dependents, indegree) && x !in done
    requires forall y :: y in dependents <==> DependsOn(g, y, x)
    ensures InDegrees(g, done + {x}, {}, indegree)
  {
    forall y | y in g ensures indegree[y] == |g[y] - (done + {x})| { OneLessToWaitFor(g[y], done, x); }
  }

  lemma AllTold(g: Graph, ordered: seq<Id>, indegree: map<Id, int>, x: Id)
    requires Sequenced(g, ordered) && Available(g, SetOf(ordered)) == {}
    requires InDegrees(g, SetOf(ordered), {}, indegree) && x in g
    ensures indegree[x] > 0 <==> x !in ordered
  {
    EmptyDifference(g[x], SetOf(ordered));
    if x in ordered {
    } else {
      assert x !in Available(g, SetOf(ordered));
    }
  }

  lemma LongEnoughIsComplete(g: Graph, ordered: seq<Id>)
    requires Sequenced(g, ordered)
    ensures |ordered| == |g.Keys| <==> SetOf(ordered) == g.Keys
  {
    CardinalityOfSetOf(ordered);
    SubsetCardinality(SetOf(ordered), g.Keys);
  }

  lemma InitiallyAvailable(g: Graph, indegree: map<Id, int>, free: set<Id>)
    requires InDegrees(g, {}, {}, indegree)
    requires forall x :: x in free <==> x in indegree && indegree[x] == 0
    ensures free == Available(g, {})
  {
    forall x ensures x in free <==> x in Available(g, {}) {
      if x in g { EmptyDifference(g[x], {}); }
    }
  }

  /** The main loop: pop the least ready task, emit it, tell its dependents. */
  method DrainHeap(ghost g: Graph, dependents: map<Id, set<Id>>, initial: map<Id, int>)
    returns (ordered: seq<Id>, indegree: map<Id, int>)
    requires Closed(g) && forall y :: y in g ==> y !in g[y]
    requires dependents.Keys == g.Keys
    requires forall d, x :: d in dependents ==> (x in dependents[d] <==> DependsOn(g, x, d))
    requires InDegrees(g, {}, {}, initial)
    ensures ordered == Order(g) && Sequenced(g, ordered) && Available(g, SetOf(ordered)) == {}
    ensures InDegrees(g, SetOf(ordered), {}, indegree)
  {
    indegree, ordered := initial, [];
    var free := set x | x in indegree && indegree[x] == 0;
    InitiallyAvailable(g, indegree, free);
    var ready := multiset(free);
    ghost var done: set<Id> := {};
    while ready != multiset{}
      invariant done == SetOf(ordered)
      invariant Sequenced(g, ordered) && Greedy(g, ordered) == Order(g)
      invariant InDegrees(g, done, {}, indegree)
      invariant ready == multiset(Available(g, done))
      decreases |g.Keys - done|
    {
      var taskId, rest := HeapPop(ready);
      ghost var others := Available(g, done) - {taskId};
      assert taskId in Available(g, done);
      LeastIsUnique(taskId, Least(Available(g, done)), Available(g, done));
      EmitKeepsSequenced(g, ordered, taskId);
      EmitUpdatesAvailable(g, ordered, taskId, dependents[taskId]);
      MultisetWithout(Available(g, done), taskId);
      var waiting := SortedIds(dependents[taskId]);
      indegree, ready := TellDependents(g, done, others, waiting, indegree, rest);
      InDegreesAfterEmit(g, done, taskId, dependents[taskId], indegree);
      SetOfAppend(ordered, taskId);
      SubsetCardinality(g.Keys - (done + {taskId}), g.Keys - done - {taskId});
      ordered, done := ordered + [taskId], done + {taskId};
    }
    assert forall x :: x in Available(g, done) <==> x in ready;
  }

  lemma PositiveIffTangled(g: Graph, ordered: seq<Id>, indegree: map<Id, int>, x: Id)
    requires Closed(g) && Sequenced(g, ordered) && Available(g, SetOf(ordered)) == {}
    requires InDegrees(g, SetOf(ordered), {}, indegree)
    ensures x in indegree && indegree[x] > 0 <==> x in g && Tangled(g, x)
  {
    if x in g {
      AllTold(g, ordered, indegree, x);
      LeftOverIffTangled(g, ordered, x);
    }
  }

  lemma SomeoneIsLeftOver(g: Graph, ordered: seq<Id>, indegree: map<Id, int>) returns (x: Id)
    requires Sequenced(g, ordered) && Available(g, SetOf(ordered)) == {} && SetOf(ordered) != g.Keys
    requires InDegrees(g, SetOf(ordered), {}, indegree)
    ensures x in indegree && indegree[x] > 0
  {
    x :| x in g && x !in SetOf(ordered);
    AllTold(g, ordered, indegree, x);
  }

  /** The ids a cycle report lists: those whose in-degree never reached zero. */
  method Unresolved(ghost g: Graph, ghost ordered: seq<Id>, indegree: map<Id, int>) returns (unresolved: seq<Id>)
    requires Closed(g) && Sequenced(g, ordered) && Available(g, SetOf(ordered)) == {} && SetOf(ordered) != g.Keys
    requires InDegrees(g, SetOf(ordered), {}, indegree)
    ensures Ascending(unresolved) && unresolved != []
    ensures forall x :: x in unresolved <==> x in g && Tangled(g, x)
  {
    var leftOver := set x | x in indegree && indegree[x] > 0;
    unresolved := SortedIds(leftOver);
    ghost var someone := SomeoneIsLeftOver(g, ordered, indegree);
    assert someone in SetOf(unresolved);
    forall x ensures x in unresolved <==> x in g && Tangled(g, x) {
      assert x in unresolved <==> x in SetOf(unresolved);
      PositiveIffTangled(g, ordered, indegree, x);
    }
  }

  /** `Ok` carries the lexicographically least topological order; `Err` names everyone on or behind a cycle. */
  method TopologicalOrder(tasks: seq<TaskNode>) returns (r: Result<seq<Id>, seq<Id>>)
    requires Consistent(tasks)
    ensures r.Ok? <==> !Cyclic(GraphOf(tasks))
    ensures r.Ok? ==> r.value == Order(GraphOf(tasks)) && LeastOrder(GraphOf(tasks), r.value)
    ensures r.Err? ==> Ascending(r.error) && r.error != []
    ensures r.Err? ==> forall x :: x in r.error <==> x in GraphOf(tasks) && Tangled(GraphOf(tasks), x)
  {
    ConsistentGraph(tasks);
    ghost var g := GraphOf(tasks);
    var nodes := NodesById(tasks);
    var initial: map<Id, int> := map x | x in nodes :: |nodes[x].dependsOn|;
    var dependents := Dependents(tasks);
    var ordered, indegree := DrainHeap(g, dependents, initial);
    OrderIsCompleteIffAcyclic(g);
    LongEnoughIsComplete(g, ordered);
    assert |nodes| == |nodes.Keys|;
    if |ordered| != |nodes| {
      var unresolved := Unresolved(g, ordered, indegree);
      return Err(unresolved);
    }
    OrderIsLeast(g);
    return Ok(ordered);
  }

  const BEHIND_A_CYCLE := [TaskNode("a", ["b"]), TaskNode("b", ["a"]), TaskNode("c", ["a"])]

  lemma {:induction false} BehindACycleIsConsistent()
    ensures Consistent(BEHIND_A_CYCLE)
  {
    var t := BEHIND_A_CYCLE;
    assert TaskIds(t) == ["a", "b", "c"];
    assert SetOf(["a", "b", "c"]) == {"a", "b", "c"};
    forall n | n in t ensures n.Valid() && SetOf(n.dependsOn) <= {"a", "b", "c"} {
      assert n == t[0] || n == t[1] || n == t[2];
    }
  }

  lemma {:induction false} BehindACycleNodes()
    ensures NodesById(BEHIND_A_CYCLE) == map["a" := TaskNode("a", ["b"]), "b" := TaskNode("b", ["a"]), "c" := TaskNode("c", ["a"])]
  {
    var t := BEHIND_A_CYCLE;
    assert t[..2][..1] == t[..1] && t[..1][..0] == [];
    assert NodesById(t[..1]) == map["a" := t[0]];
    assert NodesById(t[..2]) == map["a" := t[0], "b" := t[1]];
  }

  lemma {:induction false} BehindACycleGraph()
    ensures GraphOf(BEHIND_A_CYCLE) == map["a" := {"b"}, "b" := {"a"}, "c" := {"a"}]
  {
    BehindACycleNodes();
    assert SetOf(["b"]) == {"b"} && SetOf(["a"]) == {"a"};
  }

  /** A task on no cycle is listed with the cycle all the same: it is behind one. */
  lemma {:induction false} ListedThoughOnNoCycle()
    ensures Consistent(BEHIND_A_CYCLE) && Cyclic(GraphOf(BEHIND_A_CYCLE))
    ensures "c" in GraphOf(BEHIND_A_CYCLE) && Tangled(GraphOf(BEHIND_A_CYCLE), "c")
    ensures !Downstream(GraphOf(BEHIND_A_CYCLE), "c", "c")
  {
    BehindACycleIsConsistent();
    BehindACycleGraph();
    var g := GraphOf(BEHIND_A_CYCLE);
    assert PathFrom(g, ["a", "b", "a"], "a", "a") && PathFrom(g, ["a", "c"], "a", "c");
    assert Downstream(g, "a", "a") && Downstream(g, "a", "c");
    forall p ensures !PathFrom(g, p, "c", "c") {
      if |p| >= 2 { assert !DependsOn(g, p[1], "c"); }
    }
  }
}
