/** The greedy order: always emit the least task whose dependencies are all out. */
module Kahn {
  import opened Ids
  import opened Graphs

  ghost function Available(g: Graph, done: set<Id>): set<Id> {
    set x | x in g && x !in done && g[x] <= done
  }

  ghost function Greedy(g: Graph, done: seq<Id>): (o: seq<Id>)
    ensures done <= o
    decreases |g.Keys - SetOf(done)|
  {
    var ready := Available(g, SetOf(done));
    if ready == {} then done else
      assert SetOf(done + [Least(ready)]) == SetOf(done) + {Least(ready)};
      assert g.Keys - SetOf(done + [Least(ready)]) < g.Keys - SetOf(done);
      SubsetCardinality(g.Keys - SetOf(done + [Least(ready)]), g.Keys - SetOf(done) - {Least(ready)});
      Greedy(g, done + [Least(ready)])
  }

  ghost function Order(g: Graph): seq<Id> { Greedy(g, []) }

  lemma EmitKeepsSequenced(g: Graph, done: seq<Id>, x: Id)
    requires Sequenced(g, done) && x in Available(g, SetOf(done))
    ensures Sequenced(g, done + [x])
  {
    var o := done + [x];
    assert SetOf(o) == SetOf(done) + {x};
    forall i | 0 <= i < |o| ensures g[o[i]] <= SetOf(o[..i]) {
      if i < |done| { assert o[..i] == done[..i]; } else { assert o[..i] == done; }
    }
  }

  lemma {:induction false} GreedyIsSequencedAndMaximal(g: Graph, done: seq<Id>)
    requires Sequenced(g, done)
    ensures Sequenced(g, Greedy(g, done))
    ensures Available(g, SetOf(Greedy(g, done))) == {}
    decreases |g.Keys - SetOf(done)|
  {
    var ready := Available(g, SetOf(done));
    if ready != {} {
      EmitKeepsSequenced(g, done, Least(ready));
      assert SetOf(done + [Least(ready)]) == SetOf(done) + {Least(ready)};
      SubsetCardinality(g.Keys - SetOf(done + [Least(ready)]), g.Keys - SetOf(done) - {Least(ready)});
      GreedyIsSequencedAndMaximal(g, done + [Least(ready)]);
    }
  }

  /** A task is left over by a maximal sequenced list exactly when it is on a cycle or behind one. */
  lemma LeftOverIffTangled(g: Graph, o: seq<Id>, x: Id)
    requires Closed(g) && Sequenced(g, o) && Available(g, SetOf(o)) == {} && x in g
    ensures x !in o <==> Tangled(g, x)
  {
    if x in o {
      SequencedIsUntangled(g, o, x);
    } else {
      var stuck := g.Keys - SetOf(o);
      forall y | y in stuck ensures WaitsOn(g, stuck, y) {
        assert y !in Available(g, SetOf(o));
        var d :| d in g[y] && d !in SetOf(o);
        assert DependsOn(g, y, d);
      }
      assert SetOf([x]) == {x};
      WalkBackFindsCycle(g, stuck, [x]);
      assert [x][|[x]| - 1] == x;
    }
  }

  /** Cycle rejection is sound and complete: the greedy order reaches everyone iff there is no cycle. */
  lemma OrderIsCompleteIffAcyclic(g: Graph)
    requires Closed(g)
    ensures Sequenced(g, Order(g))
    ensures Topological(g, Order(g)) <==> !Cyclic(g)
    ensures forall x :: x in g ==> (x !in Order(g) <==> Tangled(g, x))
  {
    GreedyIsSequencedAndMaximal(g, []);
    forall x | x in g ensures x !in Order(g) <==> Tangled(g, x) { LeftOverIffTangled(g, Order(g), x); }
    if c :| Downstream(g, c, c) {
      var d := DownstreamLastEdge(g, c, c);
      assert Tangled(g, c);
    } else {
      forall x | x in g ensures x in SetOf(Order(g)) { assert !Tangled(g, x); }
    }
  }

  lemma NextIsAvailable(g: Graph, o: seq<Id>, n: nat)
    requires Topological(g, o) && n < |o|
    ensures o[n] in Available(g, SetOf(o[..n]))
  {
    assert o[n] in SetOf(o);
  }

  lemma {:induction false} GreedyIsLeast(g: Graph, o: seq<Id>, n: nat)
    requires Topological(g, o) && n <= |o|
    ensures LexBelow(Greedy(g, o[..n]), o)
    decreases |o| - n
  {
    var done := o[..n];
    var ready := Available(g, SetOf(done));
    if n == |o| {
      assert done == o;
    } else {
      NextIsAvailable(g, o, n);
      var least := Least(ready);
      if least == o[n] {
        assert o[..n + 1] == done + [least];
        GreedyIsLeast(g, o, n + 1);
      } else {
        var r := Greedy(g, done);
        assert done + [least] <= r;
        assert r[..n] == done && r[n] == least;
        assert LexAt(r, o, n);
      }
    }
  }

  /** The order returned is the lexicographically least of all topological orders. */
  lemma OrderIsLeast(g: Graph)
    requires Closed(g) && !Cyclic(g)
    ensures LeastOrder(g, Order(g))
  {
    OrderIsCompleteIffAcyclic(g);
    forall o | Topological(g, o) ensures LexBelow(Order(g), o) {
      GreedyIsLeast(g, o, 0);
      assert o[..0] == [];
    }
  }
}
