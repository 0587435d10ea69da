/** `backend/app/runtime/scheduler.py`: the in-memory scheduler over one validated graph. */
module Schedulers {
  import opened Wrappers
  import opened Ids
  import opened Graphs
  import opened Kahn
  import opened TaskDags
  import opened DagQueries
  import opened Schedules

  datatype TaskState = Pending | Ready | Running | Succeeded | Failed | Blocked

  predicate Allowed(current: TaskState, next: TaskState) {
    match current
    case Pending => next == Ready || next == Blocked
    case Ready => next == Running
    case Running => next == Succeeded || next == Failed
    case _ => false
  }

  function Stage(s: TaskState): nat {
    match s case Pending => 0 case Ready => 1 case Running => 2 case _ => 3
  }

  /** A task only moves on: step by step to its end, or from PENDING straight to BLOCKED; no end is left again. */
  lemma TransitionsMoveOn(current: TaskState, next: TaskState)
    ensures Allowed(current, next) <==>
              (next == Blocked && current == Pending) || (next != Blocked && Stage(next) == Stage(current) + 1)
    ensures current in {Succeeded, Failed, Blocked} ==> !Allowed(current, next)
  {
  }

  datatype Event = Event(sequence: nat, taskId: Id, fromState: TaskState, toState: TaskState)

  datatype SchedulerError = UnknownTask | WrongState(current: TaskState) | InvariantViolation(invalid: set<Id>)

  type States = map<Id, TaskState>

  function In(states: States, s: TaskState): set<Id> {
    set x | x in states && states[x] == s
  }

  ghost function ProgressOf(states: States): Progress {
    Progress(In(states, Succeeded), In(states, Failed), In(states, Running))
  }

  /** READY and BLOCKED are exactly what the graph queries say about the terminal states. */
  ghost predicate Coherent(g: Graph, states: States) {
    var p := ProgressOf(states);
    && states.Keys == g.Keys
    && Sound(g, p)
    && In(states, Ready) == ReadySet(g, p.completed, p.failed) - p.running
    && In(states, Blocked) == BlockedSet(g, p.failed)
  }

  ghost predicate AllPending(g: Graph, states: States) {
    states.Keys == g.Keys && forall x | x in states :: states[x] == Pending
  }

  /** The event log is numbered from zero, takes only allowed transitions, and replays to `states`. */
  ghost predicate LogExplains(g: Graph, events: seq<Event>, states: States)
    decreases |events|
  {
    if events == [] then AllPending(g, states) else
      var e := events[|events| - 1];
      && e.sequence == |events| - 1 && Allowed(e.fromState, e.toState)
      && e.taskId in states && states[e.taskId] == e.toState
      && LogExplains(g, events[..|events| - 1], states[e.taskId := e.fromState])
  }

  lemma LogExtends(g: Graph, events: seq<Event>, states: States, x: Id, next: TaskState)
    requires LogExplains(g, events, states) && x in states && Allowed(states[x], next)
    ensures LogExplains(g, events + [Event(|events|, x, states[x], next)], states[x := next])
  {
    var log := events + [Event(|events|, x, states[x], next)];
    assert log[..|log| - 1] == events;
    assert states[x := next][x := states[x]] == states;
  }

  function SetAll(states: States, ids: set<Id>, s: TaskState): States {
    map x | x in states :: if x in ids then s else states[x]
  }

  // ----- each operation keeps the states coherent

  lemma StartKeepsCoherent(g: Graph, states: States, x: Id)
    requires Coherent(g, states) && x in states && states[x] == Ready
    ensures Coherent(g, states[x := Running])
    ensures Starts(g, ProgressOf(states), x, ProgressOf(states[x := Running]))
  {
    var p, states' := ProgressOf(states), states[x := Running];
    assert x in In(states, Ready);
    assert In(states', Running) == p.running + {x};
    assert In(states', Succeeded) == p.completed && In(states', Failed) == p.failed;
    assert In(states', Blocked) == In(states, Blocked);
    assert In(states', Ready) == In(states, Ready) - {x};
    assert ProgressOf(states') == p.(running := p.running + {x});
    assert Starts(g, p, x, ProgressOf(states'));
    assert SomeStart(g, p, ProgressOf(states'));
    StepKeepsSound(g, p, ProgressOf(states'));
  }

  lemma FinishIsStep(g: Graph, p: Progress, x: Id, ok: bool, p': Progress)
    requires Sound(g, p) && Finishes(p, x, ok, p')
    ensures Step(g, p, p') && Sound(g, p')
  {
    assert SomeFinish(p, p');
    StepKeepsSound(g, p, p');
  }

  /** After a success only PENDING tasks can become ready, and every ready task stays so. */
  lemma SuccessUnlocks(g: Graph, states: States, x: Id)
    requires Coherent(g, states) && x in states && states[x] == Running
    ensures var p := ProgressOf(states);
            var unlocked := ReadySet(g, p.completed + {x}, p.failed) - (p.running - {x});
            unlocked == In(states, Ready) + (ReadySet(g, p.completed + {x}, p.failed) * In(states, Pending))
  {
    var p := ProgressOf(states);
    var ready := ReadySet(g, p.completed + {x}, p.failed);
    forall y | y in ready - (p.running - {x}) ensures y in In(states, Ready) || y in In(states, Pending) {
      assert y !in BlockedSet(g, p.failed) && y !in In(states, Blocked);
      assert y !in p.completed && y !in p.failed && y !in p.running;
      assert states[y] != Blocked && states[y] != Succeeded && states[y] != Failed && states[y] != Running;
    }
    forall y | y in In(states, Ready) ensures y in ready - (p.running - {x}) {
      assert y in ReadySet(g, p.completed, p.failed);
      assert y != x;
    }
    forall y | y in In(states, Pending) ensures y !in p.running {}
  }

  lemma SucceedKeepsCoherent(g: Graph, states: States, x: Id)
    requires Coherent(g, states) && x in states && states[x] == Running
    ensures var p := ProgressOf(states);
            var unlocked := ReadySet(g, p.completed + {x}, p.failed) * In(states, Pending);
            var states' := SetAll(states[x := Succeeded], unlocked, Ready);
            Coherent(g, states') && Finishes(p, x, true, ProgressOf(states'))
  {
    var p := ProgressOf(states);
    var unlocked := ReadySet(g, p.completed + {x}, p.failed) * In(states, Pending);
    var states' := SetAll(states[x := Succeeded], unlocked, Ready);
    var p' := ProgressOf(states');
    StatesAfterSuccess(states, x, unlocked);
    FinishIsStep(g, p, x, true, p');
    SuccessUnlocks(g, states, x);
  }

  lemma StatesAfterSuccess(states: States, x: Id, unlocked: set<Id>)
    requires x in states && states[x] == Running && unlocked <= In(states, Pending)
    ensures var states' := SetAll(states[x := Succeeded], unlocked, Ready);
            && states'.Keys == states.Keys
            && In(states', Blocked) == In(states, Blocked) && In(states', Ready) == In(states, Ready) + unlocked
            && ProgressOf(states') == Progress(In(states, Succeeded) + {x}, In(states, Failed), In(states, Running) - {x})
  {
    var states' := SetAll(states[x := Succeeded], unlocked, Ready);
    forall y | y in unlocked ensures y in states && states[y] == Pending { assert y in In(states, Pending); }
    assert In(states', Blocked) == In(states, Blocked);
    assert In(states', Ready) == In(states, Ready) + unlocked;
    assert In(states', Succeeded) == In(states, Succeeded) + {x};
    assert In(states', Failed) == In(states, Failed) && In(states', Running) == In(states, Running) - {x};
  }

  lemma BlockedGrows(g: Graph, failed: set<Id>, x: Id, y: Id)
    requires y in BlockedSet(g, failed) && y != x
    ensures y in BlockedSet(g, failed + {x})
  {
  }

  /** A failure blocks only tasks that are PENDING or already BLOCKED. */
  lemma FailureBlocksOnlyPending(g: Graph, states: States, x: Id, y: Id)
    requires Coherent(g, states) && x in states && states[x] == Running
    requires y in BlockedSet(g, In(states, Failed) + {x})
    ensures states[y] == Pending || states[y] == Blocked
  {
    var p := ProgressOf(states);
    var p' := Progress(p.completed, p.failed + {x}, p.running - {x});
    assert Finishes(p, x, false, p');
    FinishIsStep(g, p, x, false, p');
    if y in p'.Touched() { TouchedIsNotBlocked(g, p', y); }
    if y in In(states, Ready) {
      var p'' := p'.(running := p'.running + {y});
      assert y in ReadySet(g, p.completed, p.failed) && y != x;
      assert Sound(g, p'');
      TouchedIsNotBlocked(g, p'', y);
    }
    assert y !in p.Touched();
  }

  lemma FailKeepsCoherent(g: Graph, states: States, x: Id)
    requires Coherent(g, states) && x in states && states[x] == Running
    ensures var p := ProgressOf(states);
            var states' := SetAll(states[x := Failed], BlockedSet(g, p.failed + {x}), Blocked);
            Coherent(g, states') && Finishes(p, x, false, ProgressOf(states'))
  {
    var p := ProgressOf(states);
    var blocked := BlockedSet(g, p.failed + {x});
    var states' := SetAll(states[x := Failed], blocked, Blocked);
    forall y | y in blocked ensures states[y] in {Pending, Blocked} { FailureBlocksOnlyPending(g, states, x, y); }
    FinishIsStep(g, p, x, false, ProgressOf(states'));
    assert In(states', Blocked) == blocked by {
      forall y | y in states && states[y] == Blocked ensures y in blocked {
        assert y in In(states, Blocked);
        BlockedGrows(g, p.failed, x, y);
      }
    }
    assert In(states', Ready) == In(states, Ready);
    var p' := ProgressOf(states');
    forall y ensures y in In(states, Ready) <==> y in ReadySet(g, p'.completed, p'.failed) - p'.running {
      if y in In(states, Ready) {
        assert y !in blocked && y != x;
      }
      if y in ReadySet(g, p'.completed, p'.failed) - p'.running && y in BlockedSet(g, p.failed) {
        BlockedGrows(g, p.failed, x, y);
      }
    }
  }

  /** `was` with the members of `ids` among the first `k` of `order` moved to `s`. */
  ghost function SetUpTo(was: States, order: seq<Id>, k: nat, ids: set<Id>, s: TaskState): States
    requires k <= |order|
  {
    SetAll(was, SetOf(order[..k]) * ids, s)
  }

  lemma SetNone(was: States, order: seq<Id>, ids: set<Id>, s: TaskState)
    ensures SetUpTo(was, order, 0, ids, s) == was
  {
  }

  /** One more of the list looked at: moved if it is in `ids`, which it has left if it was moved before. */
  lemma SetNext(was: States, order: seq<Id>, k: nat, ids: set<Id>, s: TaskState)
    requires k < |order| && order[k] in was
    ensures SetUpTo(was, order, k + 1, ids, s) ==
            if order[k] in ids then SetUpTo(was, order, k, ids, s)[order[k] := s] else SetUpTo(was, order, k, ids, s)
  {
    SetOfPrefix(order, k);
  }

  lemma SetEveryone(was: States, order: seq<Id>, ids: set<Id>, s: TaskState)
    ensures SetUpTo(was, order, |order|, ids, s) == SetAll(was, SetOf(order) * ids, s)
  {
    assert order[..|order|] == order;
  }

  class DAGScheduler {
    const dag: TaskDAG
    ghost const g: Graph
    var states: States
    var events: seq<Event>

    ghost predicate Valid()
      reads this
    {
      && dag.Valid() && g == dag.Graph()
      && Consistent()
    }

    /** The part of the invariant that speaks of the graph only. */
    ghost predicate Consistent()
      reads this
    {
      Coherent(g, states) && LogExplains(g, events, states)
    }

    constructor (dag: TaskDAG)
      requires dag.Valid()
      ensures Valid() && this.dag == dag
      ensures ProgressOf(states) == Initial
      ensures In(states, Ready) == ReadySet(g, {}, {})
    {
      this.dag := dag;
      g := dag.Graph();
      states := map x | x in dag.Ids() :: Pending;
      events := [];
      new;
      ConsistentGraph(dag.tasks);
      StartEmpty();
      RefreshReady();
    }

    ghost method StartEmpty()
      requires AllPending(g, states) && events == []
      ensures LogExplains(g, events, states)
      ensures In(states, Succeeded) == {} && In(states, Failed) == {} && Accepts(g, {}, {})
      ensures Coherent(g, SetAll(states, ReadySet(g, {}, {}) * In(states, Pending), Ready))
      ensures ProgressOf(SetAll(states, ReadySet(g, {}, {}) * In(states, Pending), Ready)) == Initial
      ensures In(SetAll(states, ReadySet(g, {}, {}) * In(states, Pending), Ready), Ready) == ReadySet(g, {}, {})
    {
    }

    /** `_transition`; the state machine's own guard is the precondition, and every caller meets it. */
    method Transition(taskId: Id, next: TaskState)
      requires taskId in states && Allowed(states[taskId], next)
      requires LogExplains(g, events, states)
      modifies this
      ensures states == old(states)[taskId := next]
      ensures events == old(events) + [Event(|old(events)|, taskId, old(states)[taskId], next)]
      ensures LogExplains(g, events, states)
    {
      var current := states[taskId];
      LogExtends(g, events, states, taskId, next);
      states := states[taskId := next];
      events := events + [Event(|events|, taskId, current, next)];
    }

    /** The loop of `_refresh_ready`. */
    method MarkReady(ready: seq<Id>)
      requires SetOf(ready) <= states.Keys && LogExplains(g, events, states)
      modifies this
      ensures LogExplains(g, events, states) && old(events) <= events
      ensures states == SetAll(old(states), SetOf(ready) * In(old(states), Pending), Ready)
    {
      ghost var was, pending := states, In(states, Pending);
      SetNone(was, ready, pending, Ready);
      for k := 0 to |ready|
        invariant LogExplains(g, events, states) && old(events) <= events
        invariant states == SetUpTo(was, ready, k, pending, Ready)
      {
        var taskId := ready[k];
        assert taskId in SetOf(ready);
        SetNext(was, ready, k, pending, Ready);
        if states[taskId] != Pending { continue; }
        Transition(taskId, Ready);
      }
      SetEveryone(was, ready, pending, Ready);
    }

    /** `_refresh_ready`: PENDING tasks the query reports become READY; the query cannot raise. */
    method RefreshReady()
      requires dag.Valid() && g == dag.Graph() && states.Keys == g.Keys
      requires Accepts(g, In(states, Succeeded), In(states, Failed))
      requires LogExplains(g, events, states)
      modifies this
      ensures LogExplains(g, events, states) && old(events) <= events
      ensures states == SetAll(old(states),
                               ReadySet(g, In(old(states), Succeeded), In(old(states), Failed)) * In(old(states), Pending),
                               Ready)
    {
      var ready := ReadyTaskIds(dag, In(states, Succeeded), In(states, Failed));
      MarkReady(ready.value);
    }

    method Start(taskId: Id) returns (r: Result<(), SchedulerError>)
      requires Valid()
      modifies this
      ensures Valid()
      ensures r.Ok? <==> taskId in old(states) && old(states)[taskId] == Ready
      ensures r.Ok? ==> Starts(g, old(ProgressOf(states)), taskId, ProgressOf(states))
      ensures old(events) <= events
      ensures r.Err? ==> states == old(states) && events == old(events)
      ensures r.Err? ==> r.error == if taskId in states then WrongState(states[taskId]) else UnknownTask
    {
      if taskId !in states { return Err(UnknownTask); }
      if states[taskId] != Ready { return Err(WrongState(states[taskId])); }
      StartKeepsCoherent(g, states, taskId);
      Transition(taskId, Running);
      return Ok(());
    }

    method Succeed(taskId: Id) returns (r: Result<(), SchedulerError>)
      requires Valid()
      modifies this
      ensures Valid()
      ensures r.Ok? <==> taskId in old(states) && old(states)[taskId] == Running
      ensures r.Ok? ==> Finishes(old(ProgressOf(states)), taskId, true, ProgressOf(states))
      ensures old(events) <= events
      ensures r.Err? ==> states == old(states) && events == old(events)
      ensures r.Err? ==> r.error == if taskId in states then WrongState(states[taskId]) else UnknownTask
    {
      if taskId !in states { return Err(UnknownTask); }
      if states[taskId] != Running { return Err(WrongState(states[taskId])); }
      SucceedKeepsCoherent(g, states, taskId);
      AfterSuccess(g, states, taskId);
      Transition(taskId, Succeeded);
      RefreshReady();
      return Ok(());
    }

    /** `fail`; its own invariant check never fires. */
    method Fail(taskId: Id) returns (r: Result<(), SchedulerError>)
      requires Valid()
      modifies this
      ensures Valid()
      ensures r.Ok? <==> taskId in old(states) && old(states)[taskId] == Running
      ensures r.Ok? ==> Finishes(old(ProgressOf(states)), taskId, false, ProgressOf(states))
      ensures old(events) <= events
      ensures r.Err? ==> states == old(states) && events == old(events)
      ensures r.Err? ==> r.error == if taskId in states then WrongState(states[taskId]) else UnknownTask
    {
      if taskId !in states { return Err(UnknownTask); }
      if states[taskId] != Running { return Err(WrongState(states[taskId])); }
      var failedAfter := In(states, Failed) + {taskId};
      ConsistentGraph(dag.tasks);
      assert failedAfter <= g.Keys;
      var blockedIds := BlockedTaskIds(dag, failedAfter);
      var order := TopologicalOrder(dag.tasks);
      r := FailAndBlock(taskId, SetOf(blockedIds.value), order.value);
    }

    method FailAndBlock(taskId: Id, blocked: set<Id>, order: seq<Id>) returns (r: Result<(), SchedulerError>)
      requires Consistent() && taskId in states && states[taskId] == Running
      requires blocked == BlockedSet(g, In(states, Failed) + {taskId}) && SetOf(order) == g.Keys
      modifies this
      ensures Consistent() && r.Ok? && old(events) <= events
      ensures Finishes(old(ProgressOf(states)), taskId, false, ProgressOf(states))
    {
      FailKeepsCoherent(g, states, taskId);
      forall x | x in blocked ensures states[x] == Pending || states[x] == Blocked {
        FailureBlocksOnlyPending(g, states, taskId, x);
      }
      var invalid := set x | x in blocked && states[x] != Pending && states[x] != Blocked;
      if invalid != {} { return Err(InvariantViolation(invalid)); }
      Transition(taskId, Failed);
      BlockAll(blocked, order);
      return Ok(());
    }

    method BlockAll(blocked: set<Id>, order: seq<Id>)
      requires blocked <= SetOf(order) == states.Keys
      requires forall x :: x in blocked ==> states[x] == Pending || states[x] == Blocked
      requires LogExplains(g, events, states)
      modifies this
      ensures LogExplains(g, events, states) && old(events) <= events
      ensures states == SetAll(old(states), blocked, Blocked)
    {
      ghost var was := states;
      SetNone(was, order, blocked, Blocked);
      for k := 0 to |order|
        invariant LogExplains(g, events, states) && old(events) <= events
        invariant states == SetUpTo(was, order, k, blocked, Blocked)
      {
        var taskId := order[k];
        assert taskId in SetOf(order);
        SetNext(was, order, k, blocked, Blocked);
        if taskId !in blocked { continue; }
        if states[taskId] == Blocked { continue; }
        Transition(taskId, Blocked);
      }
      SetEveryone(was, order, blocked, Blocked);
      assert SetOf(order) * blocked == blocked;
    }

    /** Terminal means settled; and a scheduler that is not terminal has a task to start or to wait for. */
    method IsTerminal() returns (terminal: bool)
      requires Valid()
      ensures terminal <==> ProgressOf(states).Resolved() + BlockedSet(g, In(states, Failed)) == g.Keys
      ensures !terminal ==> In(states, Ready) + In(states, Running) != {}
    {
      terminal := forall x | x in states :: states[x] in {Succeeded, Failed, Blocked};
      TerminalIsSettled(g, states);
      if !terminal {
        ConsistentGraph(dag.tasks);
        SomethingIsReady(g, ProgressOf(states));
        ghost var x :| x in ReadySet(g, In(states, Succeeded), In(states, Failed));
        assert x in In(states, Ready) || x in In(states, Running);
      }
    }
  }

  lemma TerminalIsSettled(g: Graph, states: States)
    requires Coherent(g, states)
    ensures (forall x | x in states :: states[x] in {Succeeded, Failed, Blocked}) <==>
            ProgressOf(states).Resolved() + BlockedSet(g, In(states, Failed)) == g.Keys
  {
    var settled := ProgressOf(states).Resolved() + BlockedSet(g, In(states, Failed));
    forall x | x in states ensures x in settled <==> states[x] in {Succeeded, Failed, Blocked} {
      assert x in In(states, Blocked) <==> x in BlockedSet(g, In(states, Failed));
    }
  }

  lemma AfterSuccess(g: Graph, states: States, x: Id)
    requires Coherent(g, states) && x in states && states[x] == Running
    ensures var states' := states[x := Succeeded];
            && In(states', Succeeded) == In(states, Succeeded) + {x}
            && In(states', Failed) == In(states, Failed)
            && In(states', Pending) == In(states, Pending)
            && Accepts(g, In(states', Succeeded), In(states', Failed))
  {
    var p := ProgressOf(states);
    var p' := Progress(p.completed + {x}, p.failed, p.running - {x});
    assert Finishes(p, x, true, p');
    FinishIsStep(g, p, x, true, p');
    forall y | y in p'.completed ensures y !in BlockedSet(g, p'.failed) { TouchedIsNotBlocked(g, p', y); }
    var states' := states[x := Succeeded];
    assert In(states', Succeeded) == p'.completed;
    assert In(states', Failed) == p'.failed;
    assert In(states', Pending) == In(states, Pending);
  }
}
