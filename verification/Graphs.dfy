/** Dependency graphs, paths, cycles and topological orders, free of any algorithm. */
module Graphs {
  import opened Ids

  /** Each task's set of dependencies. */
  type Graph = map<Id, set<Id>>

  predicate Closed(g: Graph) {
    forall x | x in g :: g[x] <= g.Keys
  }

  predicate DependsOn(g: Graph, x: Id, d: Id) {
    x in g && d in g[x]
  }

  /** Paths run from a dependency to its dependents. */
  ghost predicate IsPath(g: Graph, p: seq<Id>) {
    |p| > 0 && forall i :: 0 <= i < |p| - 1 ==> DependsOn(g, p[i + 1], p[i])
  }

  ghost predicate PathFrom(g: Graph, p: seq<Id>, a: Id, b: Id) {
    IsPath(g, p) && |p| >= 2 && p[0] == a && p[|p| - 1] == b
  }

  /** `b` transitively depends on `a`, through at least one edge. */
  ghost predicate Downstream(g: Graph, a: Id, b: Id) {
    exists p :: PathFrom(g, p, a, b)
  }

  ghost predicate Cyclic(g: Graph) {
    exists x :: Downstream(g, x, x)
  }

  /** On a cycle, or downstream of one. */
  ghost predicate Tangled(g: Graph, x: Id) {
    exists c :: Downstream(g, c, c) && (c == x || Downstream(g, c, x))
  }

  lemma EdgeIsDownstream(g: Graph, d: Id, x: Id)
    requires DependsOn(g, x, d)
    ensures Downstream(g, d, x)
  {
    assert PathFrom(g, [d, x], d, x);
  }

  lemma DownstreamTransitive(g: Graph, a: Id, b: Id, c: Id)
    requires Downstream(g, a, b) && Downstream(g, b, c)
    ensures Downstream(g, a, c)
  {
    var p :| PathFrom(g, p, a, b);
    var q :| PathFrom(g, q, b, c);
    var r := p + q[1..];
    forall i | 0 <= i < |r| - 1 ensures DependsOn(g, r[i + 1], r[i]) {
      if i >= |p| - 1 {
        assert r[i] == q[i - |p| + 1] && r[i + 1] == q[i - |p| + 2];
      }
    }
    assert PathFrom(g, r, a, c);
  }

  /** The last edge of a path. */
  lemma DownstreamLastEdge(g: Graph, a: Id, b: Id) returns (d: Id)
    requires Downstream(g, a, b)
    ensures DependsOn(g, b, d) && (d == a || Downstream(g, a, d))
  {
    var p :| PathFrom(g, p, a, b);
    d := p[|p| - 2];
    assert DependsOn(g, p[|p| - 2 + 1], d);
    if |p| > 2 {
      assert PathFrom(g, p[..|p| - 1], a, d);
    }
  }

  // ----- topological orders

  /** No duplicates, and every entry's dependencies come before it. */
  ghost predicate Sequenced(g: Graph, o: seq<Id>) {
    && NoDup(o) && SetOf(o) <= g.Keys
    && forall i :: 0 <= i < |o| ==> g[o[i]] <= SetOf(o[..i])
  }

  ghost predicate Topological(g: Graph, o: seq<Id>) {
    Sequenced(g, o) && SetOf(o) == g.Keys
  }

  ghost predicate LexAt(a: seq<Id>, b: seq<Id>, k: nat) {
    k < |a| && k < |b| && a[..k] == b[..k] && Less(a[k], b[k])
  }

  /** `a` is `b`, or smaller at the first place where they differ. */
  ghost predicate LexBelow(a: seq<Id>, b: seq<Id>) {
    a == b || exists k: nat :: LexAt(a, b, k)
  }

  /** The lexicographically least topological order. */
  ghost predicate LeastOrder(g: Graph, o: seq<Id>) {
    Topological(g, o) && forall o' :: Topological(g, o') ==> LexBelow(o, o')
  }

  lemma LexAtIsAsymmetric(a: seq<Id>, b: seq<Id>, k: nat, m: nat)
    requires LexAt(a, b, k)
    ensures !LexAt(b, a, m)
  {
    LessTrichotomy(a[k], b[k]);
    if k < m <= |a| && m <= |b| && a[..m] == b[..m] {
      assert false;
    }
    if m < k {
      LessTrichotomy(a[m], b[m]);
    }
  }

  lemma LeastOrderIsUnique(g: Graph, a: seq<Id>, b: seq<Id>)
    requires LeastOrder(g, a) && LeastOrder(g, b)
    ensures a == b
  {
    assert LexBelow(a, b) && LexBelow(b, a);
    if k: nat :| LexAt(a, b, k) {
      forall m: nat ensures !LexAt(b, a, m) { LexAtIsAsymmetric(a, b, k, m); }
    }
  }

  /** Along a sequenced list, whatever is upstream of an entry stands before it. */
  lemma {:induction false} UpstreamIsEarlier(g: Graph, o: seq<Id>, p: seq<Id>, a: Id, j: nat)
    requires Sequenced(g, o) && j < |o| && PathFrom(g, p, a, o[j])
    ensures a in o[..j]
    decreases |p|
  {
    var d := p[|p| - 2];
    assert DependsOn(g, p[|p| - 2 + 1], d);
    assert d in SetOf(o[..j]);
    var k :| 0 <= k < j && o[k] == d;
    if |p| > 2 {
      assert PathFrom(g, p[..|p| - 1], a, o[k]);
      UpstreamIsEarlier(g, o, p[..|p| - 1], a, k);
      assert a in o[..k];
    }
  }

  lemma DownstreamIsEarlier(g: Graph, o: seq<Id>, a: Id, x: Id)
    requires Sequenced(g, o) && x in o && Downstream(g, a, x)
    ensures a in o && a != x
  {
    var j :| 0 <= j < |o| && o[j] == x;
    var p :| PathFrom(g, p, a, x);
    UpstreamIsEarlier(g, o, p, a, j);
    var i :| 0 <= i < j && o[i] == a;
  }

  lemma SequencedIsUntangled(g: Graph, o: seq<Id>, x: Id)
    requires Sequenced(g, o) && x in o
    ensures !Tangled(g, x)
  {
    forall c ensures !(Downstream(g, c, c) && (c == x || Downstream(g, c, x))) {
      if Downstream(g, c, x) { DownstreamIsEarlier(g, o, c, x); }
      if c in o && Downstream(g, c, c) { DownstreamIsEarlier(g, o, c, c); }
    }
  }

  lemma PathClosesCycle(g: Graph, p: seq<Id>, k: nat)
    requires IsPath(g, p) && k < |p| && DependsOn(g, p[0], p[k])
    ensures Tangled(g, p[|p| - 1])
  {
    var d, x := p[k], p[|p| - 1];
    var q := [d] + p;
    assert PathFrom(g, q[0..k + 2], d, d);
    assert Downstream(g, d, d);
    if k < |p| - 1 {
      assert PathFrom(g, p[k..|p|], d, x);
    }
  }

  ghost predicate WaitsOn(g: Graph, stuck: set<Id>, x: Id) {
    exists d :: d in stuck && DependsOn(g, x, d)
  }

  ghost predicate AllWait(g: Graph, stuck: set<Id>) {
    forall x {:trigger WaitsOn(g, stuck, x)} :: x in stuck ==> WaitsOn(g, stuck, x)
  }

  lemma NoDupFits(p: seq<Id>, s: set<Id>)
    requires NoDup(p) && SetOf(p) <= s
    ensures |p| <= |s|
  {
    CardinalityOfSetOf(p);
    SubsetCardinality(SetOf(p), s);
  }

  /** Walking back from `p[0]` where everyone waits for someone ends on a cycle. */
  lemma {:induction false} WalkBackFindsCycle(g: Graph, stuck: set<Id>, p: seq<Id>)
    requires AllWait(g, stuck)
    requires IsPath(g, p) && NoDup(p) && SetOf(p) <= stuck
    ensures Tangled(g, p[|p| - 1])
    decreases |stuck| - |p|
  {
    assert p[0] in SetOf(p);
    assert WaitsOn(g, stuck, p[0]);
    var d :| d in stuck && DependsOn(g, p[0], d);
    if d in p {
      var k :| 0 <= k < |p| && p[k] == d;
      PathClosesCycle(g, p, k);
    } else {
      NoDupFits([d] + p, stuck);
      WalkBackFindsCycle(g, stuck, [d] + p);
    }
  }
}
