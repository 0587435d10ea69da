/** `get_run_dag` in `backend/app/api/service.py`: the picture of a run that the product shows. */
module Projection {
  import opened Wrappers
  import opened Ids
  import opened Graphs
  import opened Kahn
  import opened TaskDags
  import opened DagQueries

  datatype TaskRunState = PENDING | RUNNING | VERIFYING | REVIEWING | REPAIRING | SUCCEEDED | FAILED

  datatype NodeState = Evidenced(state: TaskRunState) | READY | BLOCKED

  datatype Basis = FromEvidence | DerivedFromDag

  datatype Evidence =
    | StateTransition(taskId: Option<Id>, evidenceSequence: Option<int>, eventSequence: int, state: TaskRunState)
    | OtherEvidence

  datatype Node = Node(taskId: Id, layer: nat, state: NodeState, basis: Basis)

  datatype Corruption = InconsistentEvidence(cause: QueryError) | AdvancedBlocked(tasks: set<Id>)

  // ----- latest evidence per task

  predicate Concerns(e: Evidence, x: Id) {
    e.StateTransition? && e.taskId == Some(x)
  }

  function Sequence(e: Evidence): int
    requires e.StateTransition?
  {
    if e.evidenceSequence.Some? then e.evidenceSequence.value else e.eventSequence
  }

  /** Entry `i` is the first of those with the highest sequence among the evidence for `x`. */
  ghost predicate IsLatest(evidence: seq<Evidence>, x: Id, i: nat) {
    && i < |evidence| && Concerns(evidence[i], x)
    && forall j :: 0 <= j < |evidence| && Concerns(evidence[j], x) ==>
         Sequence(evidence[j]) < Sequence(evidence[i]) || (Sequence(evidence[j]) == Sequence(evidence[i]) && i <= j)
  }

  /** The sequence of an entry is that of its evidence; the event's own counts only where there is none. */
  lemma SequenceIsThatOfTheEvidence(e: Evidence, n: int)
    requires e.StateTransition?
    ensures Sequence(e) == n <==> e.evidenceSequence == Some(n) || (e.evidenceSequence == None && e.eventSequence == n)
  {
  }

  /** However late an event arrived, the entry with the highest evidence sequence is the latest. */
  lemma {:induction false} EvidenceBeatsArrival(evidence: seq<Evidence>, x: Id, i: nat, n: int)
    requires i < |evidence| && Concerns(evidence[i], x) && evidence[i].evidenceSequence == Some(n)
    requires forall j :: 0 <= j < |evidence| && j != i && Concerns(evidence[j], x) ==>
               evidence[j].evidenceSequence.Some? && evidence[j].evidenceSequence.value < n
    ensures IsLatest(evidence, x, i) && forall k: nat :: IsLatest(evidence, x, k) ==> k == i
  {
  }

  /** Some of the first `k` entries concern `x`. */
  ghost predicate Seen(evidence: seq<Evidence>, k: nat, x: Id)
    requires k <= |evidence|
  {
    exists j :: 0 <= j < k && Concerns(evidence[j], x)
  }

  method LatestTaskStates(evidence: seq<Evidence>) returns (states: map<Id, TaskRunState>)
    ensures forall x :: x in states <==> Seen(evidence, |evidence|, x)
    ensures forall x :: x in states ==> exists i: nat :: IsLatest(evidence, x, i) && evidence[i].state == states[x]
  {
    var latest: map<Id, (int, TaskRunState)> := map[];
    ghost var at: map<Id, nat> := map[];
    for k := 0 to |evidence|
      invariant at.Keys == latest.Keys
      invariant forall x :: x in latest <==> Seen(evidence, k, x)
      invariant forall x :: x in latest ==>
                  && at[x] < k && IsLatest(evidence[..k], x, at[x])
                  && latest[x] == (Sequence(evidence[at[x]]), evidence[at[x]].state)
    {
      var e := evidence[k];
      if e.StateTransition? && e.taskId.Some? {
        var x := e.taskId.value;
        if x !in latest || Sequence(e) > latest[x].0 {
          latest := latest[x := (Sequence(e), e.state)];
          at := at[x := k];
        }
      }
    }
    assert evidence[..|evidence|] == evidence;
    states := map x | x in latest :: latest[x].1;
    forall x | x in states ensures exists i: nat :: IsLatest(evidence, x, i) && evidence[i].state == states[x] {
      assert IsLatest(evidence, x, at[x]);
    }
  }

  // ----- layers

  ghost predicate EndsAt(g: Graph, p: seq<Id>, x: Id) {
    IsPath(g, p) && p[|p| - 1] == x
  }

  ghost predicate SomePath(g: Graph, x: Id, n: nat) {
    exists p :: EndsAt(g, p, x) && |p| == n + 1
  }

  ghost predicate NoLongerPath(g: Graph, x: Id, n: nat) {
    forall p :: EndsAt(g, p, x) ==> |p| <= n + 1
  }

  /** `n` is the number of edges of the longest dependency path that ends in `x`. */
  ghost predicate LongestPathIs(g: Graph, x: Id, n: nat) {
    SomePath(g, x, n) && NoLongerPath(g, x, n)
  }

  function MaxLayer(layers: map<Id, nat>, deps: seq<Id>): (m: nat)
    requires deps != [] && forall d | d in deps :: d in layers
    ensures exists d :: d in deps && layers[d] == m
    ensures forall d | d in deps :: layers[d] <= m
  {
    assert deps == [deps[0]] + deps[1..];
    if |deps| == 1 then layers[deps[0]] else
      var rest := MaxLayer(layers, deps[1..]);
      assert exists d :: d in deps[1..] && layers[d] == rest;
      if layers[deps[0]] > rest then layers[deps[0]] else rest
  }

  lemma PathGrows(g: Graph, d: Id, x: Id, n: nat)
    requires DependsOn(g, x, d) && SomePath(g, d, n)
    ensures SomePath(g, x, n + 1)
  {
    var p :| EndsAt(g, p, d) && |p| == n + 1;
    var q := p + [x];
    forall i | 0 <= i < |q| - 1 ensures DependsOn(g, q[i + 1], q[i]) {
      if i < |p| - 1 { assert DependsOn(g, p[i + 1], p[i]); }
    }
    assert EndsAt(g, q, x);
  }

  lemma PathIsBoundedByDependencies(g: Graph, x: Id, p: seq<Id>, n: nat)
    requires EndsAt(g, p, x) && x in g
    requires forall d | d in g[x] :: NoLongerPath(g, d, n)
    ensures |p| <= n + 2
    ensures g[x] == {} ==> |p| == 1
  {
    if |p| > 1 {
      assert DependsOn(g, p[|p| - 2 + 1], p[|p| - 2]);
      assert EndsAt(g, p[0..|p| - 1], p[|p| - 2]);
      assert NoLongerPath(g, p[|p| - 2], n);
    }
  }

  lemma FirstLayer(g: Graph, x: Id)
    requires x in g && g[x] == {}
    ensures LongestPathIs(g, x, 0)
  {
    assert EndsAt(g, [x], x);
    forall p | EndsAt(g, p, x) ensures |p| <= 1 { PathIsBoundedByDependencies(g, x, p, 0); }
  }

  lemma {:induction false} OneLayerUp(g: Graph, x: Id, deps: seq<Id>, layers: map<Id, nat>)
    requires x in g && g[x] == SetOf(deps) && deps != []
    requires forall d | d in deps :: d in layers && LongestPathIs(g, d, layers[d])
    ensures LongestPathIs(g, x, 1 + MaxLayer(layers, deps))
  {
    var n := MaxLayer(layers, deps);
    var d :| d in deps && layers[d] == n;
    PathGrows(g, d, x, n);
    forall e | e in g[x] ensures NoLongerPath(g, e, n) { }
    forall p | EndsAt(g, p, x) ensures |p| <= n + 2 { PathIsBoundedByDependencies(g, x, p, n); }
  }

  method DagLayers(ghost g: Graph, nodes: map<Id, TaskNode>, order: seq<Id>) returns (layers: map<Id, nat>)
    requires nodes.Keys == g.Keys && forall x :: x in g ==> SetOf(nodes[x].dependsOn) == g[x]
    requires Topological(g, order)
    ensures layers.Keys == g.Keys && forall x :: x in g ==> LongestPathIs(g, x, layers[x])
  {
    layers := map[];
    for k := 0 to |order|
      invariant layers.Keys == SetOf(order[..k])
      invariant forall x :: x in layers ==> x in g && LongestPathIs(g, x, layers[x])
    {
      var taskId := order[k];
      SetOfPrefix(order, k);
      var dependencies := nodes[taskId].dependsOn;
      forall d | d in dependencies ensures d in layers { assert d in SetOf(dependencies); }
      if dependencies == [] {
        FirstLayer(g, taskId);
        layers := layers[taskId := 0];
      } else {
        OneLayerUp(g, taskId, dependencies, layers);
        layers := layers[taskId := 1 + MaxLayer(layers, dependencies)];
      }
    }
    assert order[..|order|] == order;
  }

  // ----- presentation

  function PresentationState(taskId: Id, latest: map<Id, TaskRunState>, ready: set<Id>, blocked: set<Id>): (NodeState, Basis) {
    if taskId in latest && latest[taskId] != PENDING then (Evidenced(latest[taskId]), FromEvidence)
    else if taskId in blocked then (BLOCKED, DerivedFromDag)
    else if taskId in ready then (READY, DerivedFromDag)
    else if taskId in latest then (Evidenced(PENDING), FromEvidence)
    else (Evidenced(PENDING), DerivedFromDag)
  }

  function WithState(latest: map<Id, TaskRunState>, s: TaskRunState): set<Id> {
    set x | x in latest && latest[x] == s
  }

  ghost function Shown(nodes: seq<Node>): map<Id, NodeState> {
    if nodes == [] then map[]
    else Shown(nodes[..|nodes| - 1])[nodes[|nodes| - 1].taskId := nodes[|nodes| - 1].state]
  }

  ghost predicate BehindAFailure(g: Graph, shown: map<Id, NodeState>, x: Id)
    requires shown.Keys == g.Keys
  {
    exists f :: f in g && shown[f] == Evidenced(FAILED) && Downstream(g, f, x)
  }

  ghost predicate AllSucceeded(g: Graph, shown: map<Id, NodeState>, x: Id)
    requires shown.Keys == g.Keys && x in g && g[x] <= g.Keys
  {
    forall d | d in g[x] :: shown[d] == Evidenced(SUCCEEDED)
  }

  /** What a reader may conclude from the states shown, without knowing how they came about. */
  ghost predicate Legible(g: Graph, shown: map<Id, NodeState>) {
    && Closed(g) && shown.Keys == g.Keys
    && (forall x | x in g :: shown[x] == BLOCKED <==> shown[x] != Evidenced(FAILED) && BehindAFailure(g, shown, x))
    && (forall x | x in g :: shown[x] == READY ==> AllSucceeded(g, shown, x))
    && (forall x | x in g :: shown[x] == Evidenced(PENDING) ==> !AllSucceeded(g, shown, x))
  }

  ghost predicate PictureOf(g: Graph, latest: map<Id, TaskRunState>, shown: map<Id, NodeState>) {
    shown.Keys == g.Keys &&
    forall x :: x in g ==>
      shown[x] == PresentationState(x, latest,
                                    ReadySet(g, WithState(latest, SUCCEEDED), WithState(latest, FAILED)),
                                    BlockedSet(g, WithState(latest, FAILED))).0
  }

  /** A task that evidence has moved past PENDING. */
  predicate Advanced(latest: map<Id, TaskRunState>, x: Id) {
    x in latest && latest[x] != PENDING
  }

  /** What the evidence says is what is shown; only a task it has not moved past PENDING gets a state from the graph. */
  predicate FromWhatIsKnown(latest: map<Id, TaskRunState>, x: Id, state: NodeState) {
    if Advanced(latest, x) then state == Evidenced(latest[x]) else state in {READY, BLOCKED, Evidenced(PENDING)}
  }

  predicate Grounded(node: Node, latest: map<Id, TaskRunState>) {
    && FromWhatIsKnown(latest, node.taskId, node.state)
    && (node.basis == FromEvidence <==> Advanced(latest, node.taskId) || (node.state == Evidenced(PENDING) && node.taskId in latest))
  }

  /** Evidence and legibility leave one picture only. */
  lemma {:induction false} PictureIsUnique(g: Graph, latest: map<Id, TaskRunState>, shown: map<Id, NodeState>, shown': map<Id, NodeState>)
    requires Legible(g, shown) && Legible(g, shown')
    requires forall x | x in g :: FromWhatIsKnown(latest, x, shown[x]) && FromWhatIsKnown(latest, x, shown'[x])
    ensures shown == shown'
  {
    forall x | x in g
      ensures shown[x] == Evidenced(FAILED) <==> shown'[x] == Evidenced(FAILED)
      ensures shown[x] == Evidenced(SUCCEEDED) <==> shown'[x] == Evidenced(SUCCEEDED)
    {
      assert FromWhatIsKnown(latest, x, shown[x]) && FromWhatIsKnown(latest, x, shown'[x]);
    }
    forall x | x in g ensures shown[x] == shown'[x] {
      assert FromWhatIsKnown(latest, x, shown[x]) && FromWhatIsKnown(latest, x, shown'[x]);
      SameFailures(g, shown, shown', x);
      SameFailures(g, shown', shown, x);
      assert AllSucceeded(g, shown, x) <==> AllSucceeded(g, shown', x);
    }
  }

  lemma {:induction false} SameFailures(g: Graph, shown: map<Id, NodeState>, shown': map<Id, NodeState>, x: Id)
    requires shown.Keys == g.Keys == shown'.Keys
    requires forall f | f in g :: shown[f] == Evidenced(FAILED) ==> shown'[f] == Evidenced(FAILED)
    ensures BehindAFailure(g, shown, x) ==> BehindAFailure(g, shown', x)
  {
    if BehindAFailure(g, shown, x) {
      var f :| f in g && shown[f] == Evidenced(FAILED) && Downstream(g, f, x);
      assert shown'[f] == Evidenced(FAILED);
    }
  }

  lemma BlockedIsLegible(g: Graph, latest: map<Id, TaskRunState>, shown: map<Id, NodeState>, x: Id)
    requires PictureOf(g, latest, shown) && x in g && WithState(latest, FAILED) <= g.Keys
    requires x in BlockedSet(g, WithState(latest, FAILED)) ==> !Advanced(latest, x)
    ensures shown[x] == BLOCKED <==> shown[x] != Evidenced(FAILED) && BehindAFailure(g, shown, x)
  {
    var failed := WithState(latest, FAILED);
    assert shown[x] == BLOCKED <==> x in BlockedSet(g, failed);
    if x in BlockedSet(g, failed) {
      var f :| f in failed && Downstream(g, f, x);
      assert BehindAFailure(g, shown, x);
    } else if BehindAFailure(g, shown, x) {
      var f :| f in g && shown[f] == Evidenced(FAILED) && Downstream(g, f, x);
    }
  }

  lemma ReadyIsLegible(g: Graph, latest: map<Id, TaskRunState>, shown: map<Id, NodeState>, x: Id)
    requires Closed(g) && PictureOf(g, latest, shown) && x in g
    ensures shown[x] == READY ==> AllSucceeded(g, shown, x)
    ensures shown[x] == Evidenced(PENDING) ==> !AllSucceeded(g, shown, x)
  {
    var completed, failed := WithState(latest, SUCCEEDED), WithState(latest, FAILED);
    forall d | d in g[x] ensures shown[d] == Evidenced(SUCCEEDED) <==> d in completed { }
    if shown[x] == READY {
      assert x in ReadySet(g, completed, failed);
    }
    if shown[x] == Evidenced(PENDING) {
      assert x !in ReadySet(g, completed, failed) && x !in BlockedSet(g, failed);
    }
  }

  lemma PictureIsLegible(g: Graph, latest: map<Id, TaskRunState>, shown: map<Id, NodeState>)
    requires Closed(g) && PictureOf(g, latest, shown)
    requires Accepts(g, WithState(latest, SUCCEEDED), WithState(latest, FAILED))
    requires forall x :: x in BlockedSet(g, WithState(latest, FAILED)) ==> !Advanced(latest, x)
    ensures Legible(g, shown)
  {
    forall x | x in g
      ensures shown[x] == BLOCKED <==> shown[x] != Evidenced(FAILED) && BehindAFailure(g, shown, x)
      ensures shown[x] == READY ==> AllSucceeded(g, shown, x)
      ensures shown[x] == Evidenced(PENDING) ==> !AllSucceeded(g, shown, x)
    {
      BlockedIsLegible(g, latest, shown, x);
      ReadyIsLegible(g, latest, shown, x);
    }
  }

  lemma {:induction false} ShownAt(nodes: seq<Node>, ids: seq<Id>)
    requires |nodes| == |ids| && NoDup(ids) && forall i :: 0 <= i < |ids| ==> nodes[i].taskId == ids[i]
    ensures Shown(nodes).Keys == SetOf(ids)
    ensures forall i :: 0 <= i < |nodes| ==> ids[i] in Shown(nodes) && Shown(nodes)[ids[i]] == nodes[i].state
  {
    if nodes != [] {
      var n := |nodes| - 1;
      ShownAt(nodes[..n], ids[..n]);
      assert ids == ids[..n] + [ids[n]];
      SetOfAppend(ids[..n], ids[n]);
    }
  }

  lemma {:induction false} DrawnIsPicture(g: Graph, order: seq<Id>, latest: map<Id, TaskRunState>, nodes: seq<Node>)
    requires NoDup(order) && SetOf(order) == g.Keys && |nodes| == |order|
    requires forall i :: 0 <= i < |nodes| ==>
               && nodes[i].taskId == order[i]
               && nodes[i].state == PresentationState(order[i], latest,
                                                      ReadySet(g, WithState(latest, SUCCEEDED), WithState(latest, FAILED)),
                                                      BlockedSet(g, WithState(latest, FAILED))).0
    ensures PictureOf(g, latest, Shown(nodes))
  {
    ShownAt(nodes, order);
    forall x | x in g
      ensures exists i :: 0 <= i < |order| && order[i] == x && Shown(nodes)[x] == nodes[i].state
    {
      assert x in SetOf(order);
      var i :| 0 <= i < |order| && order[i] == x;
    }
  }

  /** Refuses exactly the evidence the graph contradicts; otherwise the picture is legible and layered. */
  method GetRunDag(dag: TaskDAG, evidence: seq<Evidence>)
    returns (r: Result<seq<Node>, Corruption>, latest: map<Id, TaskRunState>)
    requires dag.Valid()
    ensures forall x :: x in latest <==> exists j :: 0 <= j < |evidence| && Concerns(evidence[j], x)
    ensures forall x :: x in latest ==> exists i: nat :: IsLatest(evidence, x, i) && evidence[i].state == latest[x]
    ensures r.Ok? <==>
            && Accepts(dag.Graph(), WithState(latest, SUCCEEDED), WithState(latest, FAILED))
            && forall x :: x in BlockedSet(dag.Graph(), WithState(latest, FAILED)) ==> !Advanced(latest, x)
    ensures r.Err? ==>
              if !Accepts(dag.Graph(), WithState(latest, SUCCEEDED), WithState(latest, FAILED)) then r.error.InconsistentEvidence?
              else r.error == AdvancedBlocked(set x | x in BlockedSet(dag.Graph(), WithState(latest, FAILED)) && Advanced(latest, x))
    ensures r.Ok? ==> |r.value| == |Order(dag.Graph())|
    ensures r.Ok? ==> forall i :: 0 <= i < |r.value| ==>
                        && r.value[i].taskId == Order(dag.Graph())[i]
                        && LongestPathIs(dag.Graph(), r.value[i].taskId, r.value[i].layer)
    ensures r.Ok? ==> Legible(dag.Graph(), Shown(r.value)) && forall node | node in r.value :: Grounded(node, latest)
  {
    latest := LatestTaskStates(evidence);
    r := Project(dag, latest);
  }

  method Project(dag: TaskDAG, latest: map<Id, TaskRunState>) returns (r: Result<seq<Node>, Corruption>)
    requires dag.Valid()
    ensures r.Ok? <==>
            && Accepts(dag.Graph(), WithState(latest, SUCCEEDED), WithState(latest, FAILED))
            && forall x :: x in BlockedSet(dag.Graph(), WithState(latest, FAILED)) ==> !Advanced(latest, x)
    ensures r.Err? ==>
              if !Accepts(dag.Graph(), WithState(latest, SUCCEEDED), WithState(latest, FAILED)) then r.error.InconsistentEvidence?
              else r.error == AdvancedBlocked(set x | x in BlockedSet(dag.Graph(), WithState(latest, FAILED)) && Advanced(latest, x))
    ensures r.Ok? ==> |r.value| == |Order(dag.Graph())|
    ensures r.Ok? ==> forall i :: 0 <= i < |r.value| ==>
                        && r.value[i].taskId == Order(dag.Graph())[i]
                        && LongestPathIs(dag.Graph(), r.value[i].taskId, r.value[i].layer)
    ensures r.Ok? ==> Legible(dag.Graph(), Shown(r.value)) && forall node | node in r.value :: Grounded(node, latest)
  {
    ConsistentGraph(dag.tasks);
    var order := TopologicalOrder(dag.tasks);
    var completed, failed := WithState(latest, SUCCEEDED), WithState(latest, FAILED);
    var blockedIds := BlockedTaskIds(dag, failed);
    if blockedIds.Err? { return Err(InconsistentEvidence(blockedIds.error)); }
    var readyIds := ReadyTaskIds(dag, completed, failed);
    if readyIds.Err? { return Err(InconsistentEvidence(readyIds.error)); }
    r := Draw(dag.Graph(), NodesById(dag.tasks), order.value, latest, SetOf(readyIds.value), SetOf(blockedIds.value));
  }

  method DrawNodes(order: seq<Id>, layers: map<Id, nat>, latest: map<Id, TaskRunState>, ready: set<Id>, blocked: set<Id>)
    returns (nodes: seq<Node>)
    requires SetOf(order) <= layers.Keys
    ensures |nodes| == |order|
    ensures forall i :: 0 <= i < |order| ==>
              && order[i] in layers
              && nodes[i] == Node(order[i], layers[order[i]], PresentationState(order[i], latest, ready, blocked).0,
                                  PresentationState(order[i], latest, ready, blocked).1)
  {
    nodes := [];
    for k := 0 to |order|
      invariant |nodes| == k
      invariant forall i :: 0 <= i < k ==>
                  && order[i] in layers
                  && nodes[i] == Node(order[i], layers[order[i]], PresentationState(order[i], latest, ready, blocked).0,
                                      PresentationState(order[i], latest, ready, blocked).1)
    {
      assert order[k] in SetOf(order);
      var (state, basis) := PresentationState(order[k], latest, ready, blocked);
      nodes := nodes + [Node(order[k], layers[order[k]], state, basis)];
    }
  }

  lemma {:induction false} DrawnIsGrounded(order: seq<Id>, latest: map<Id, TaskRunState>, ready: set<Id>, blocked: set<Id>, nodes: seq<Node>)
    requires |nodes| == |order|
    requires forall i :: 0 <= i < |nodes| ==>
               && nodes[i].taskId == order[i]
               && (nodes[i].state, nodes[i].basis) == PresentationState(order[i], latest, ready, blocked)
    ensures forall node | node in nodes :: Grounded(node, latest)
  {
  }

  method Draw(ghost g: Graph, byId: map<Id, TaskNode>, order: seq<Id>, latest: map<Id, TaskRunState>, ready: set<Id>, blocked: set<Id>)
    returns (r: Result<seq<Node>, Corruption>)
    requires Closed(g) && byId.Keys == g.Keys && forall x :: x in g ==> SetOf(byId[x].dependsOn) == g[x]
    requires Topological(g, order)
    requires Accepts(g, WithState(latest, SUCCEEDED), WithState(latest, FAILED))
    requires ready == ReadySet(g, WithState(latest, SUCCEEDED), WithState(latest, FAILED))
    requires blocked == BlockedSet(g, WithState(latest, FAILED))
    ensures r.Ok? <==> forall x :: x in blocked ==> !Advanced(latest, x)
    ensures r.Err? ==> r.error == AdvancedBlocked(set x | x in blocked && Advanced(latest, x))
    ensures r.Ok? ==> |r.value| == |order|
    ensures r.Ok? ==> forall i :: 0 <= i < |r.value| ==>
                        r.value[i].taskId == order[i] && LongestPathIs(g, r.value[i].taskId, r.value[i].layer)
    ensures r.Ok? ==> Legible(g, Shown(r.value)) && forall node | node in r.value :: Grounded(node, latest)
  {
    var advanced := set x | x in blocked && Advanced(latest, x);
    if advanced != {} { return Err(AdvancedBlocked(advanced)); }
    assert forall x :: x in blocked ==> !Advanced(latest, x) by {
      forall x | x in blocked ensures !Advanced(latest, x) { assert x !in advanced; }
    }
    var layers := DagLayers(g, byId, order);
    var nodes := DrawNodes(order, layers, latest, ready, blocked);
    DrawnIsPicture(g, order, latest, nodes);
    PictureIsLegible(g, latest, Shown(nodes));
    DrawnIsGrounded(order, latest, ready, blocked, nodes);
    return Ok(nodes);
  }
}
