/** Task ids are Python strings; sorting and the heap compare them by code point. */
module Ids {

  type Id = string

  predicate Less(a: Id, b: Id) {
    b != [] && (a == [] || a[0] < b[0] || (a[0] == b[0] && Less(a[1..], b[1..])))
  }

  /** Two ids first differ at `k`: `a` ends there, or has the smaller character. */
  ghost predicate SmallerFirstAt(a: Id, b: Id, k: nat) {
    k <= |a| && k < |b| && a[..k] == b[..k] && (k == |a| || a[k] < b[k])
  }

  /** The order is that of the first difference; a proper prefix comes first, and length counts for nothing else. */
  lemma {:induction false} LessIsByFirstDifference(a: Id, b: Id)
    ensures Less(a, b) <==> exists k: nat :: SmallerFirstAt(a, b, k)
  {
    if a == [] || b == [] || a[0] != b[0] {
      if Less(a, b) { assert SmallerFirstAt(a, b, 0); }
      forall k: nat | 0 < k <= |a| && k <= |b| ensures a[..k][0] == a[0] && b[..k][0] == b[0] { }
      assert forall k: nat :: SmallerFirstAt(a, b, k) ==> k == 0;
    } else {
      LessIsByFirstDifference(a[1..], b[1..]);
      assert a == [a[0]] + a[1..] && b == [b[0]] + b[1..];
      if k: nat :| SmallerFirstAt(a[1..], b[1..], k) {
        assert a[..k + 1] == [a[0]] + a[1..][..k] && b[..k + 1] == [b[0]] + b[1..][..k];
        assert SmallerFirstAt(a, b, k + 1);
      }
      if k: nat :| SmallerFirstAt(a, b, k) {
        assert k > 0;
        assert a[1..][..k - 1] == a[..k][1..] && b[1..][..k - 1] == b[..k][1..];
        assert SmallerFirstAt(a[1..], b[1..], k - 1);
      }
    }
  }

  lemma {:induction false} LessTrichotomy(a: Id, b: Id)
    ensures a == b <==> !Less(a, b) && !Less(b, a)
    ensures !(Less(a, b) && Less(b, a))
  {
    if a != [] && b != [] && a[0] == b[0] {
      LessTrichotomy(a[1..], b[1..]);
      assert a == [a[0]] + a[1..] && b == [b[0]] + b[1..];
    }
  }

  lemma {:induction false} LessTransitive(a: Id, b: Id, c: Id)
    requires Less(a, b) && Less(b, c)
    ensures Less(a, c)
  {
    if a != [] && a[0] == b[0] && b[0] == c[0] {
      LessTransitive(a[1..], b[1..], c[1..]);
    }
  }

  function SetOf<T>(s: seq<T>): set<T> { set x | x in s }

  lemma SetOfAppend<T>(s: seq<T>, x: T)
    ensures SetOf(s + [x]) == SetOf(s) + {x}
  {
    assert forall y :: y in s + [x] <==> y in s || y == x;
  }

  lemma SetOfPrefix<T>(s: seq<T>, k: nat)
    requires k < |s|
    ensures SetOf(s[..k + 1]) == SetOf(s[..k]) + {s[k]} && s[k] in SetOf(s)
  {
    assert s[..k + 1] == s[..k] + [s[k]];
    SetOfAppend(s[..k], s[k]);
  }

  ghost predicate NoDup<T>(s: seq<T>) {
    forall i, j :: 0 <= i < j < |s| ==> s[i] != s[j]
  }

  ghost predicate Ascending(s: seq<Id>) {
    forall i, j :: 0 <= i < j < |s| ==> Less(s[i], s[j])
  }

  ghost predicate IsLeast(x: Id, s: set<Id>) {
    x in s && forall y | y in s :: x == y || Less(x, y)
  }

  lemma {:induction false} LeastExists(s: set<Id>)
    requires s != {}
    ensures exists x :: IsLeast(x, s)
    decreases |s|
  {
    var x :| x in s;
    if s == {x} {
      assert IsLeast(x, s);
    } else {
      LeastExists(s - {x});
      var y :| IsLeast(y, s - {x});
      LessTrichotomy(x, y);
      var z := if Less(x, y) then x else y;
      forall w | w in s ensures z == w || Less(z, w) {
        if z == x && w != x && w != y { LessTransitive(x, y, w); }
      }
      assert IsLeast(z, s);
    }
  }

  ghost function Least(s: set<Id>): (x: Id)
    requires s != {}
    ensures IsLeast(x, s)
  {
    LeastExists(s);
    var x :| IsLeast(x, s); x
  }

  lemma LeastIsUnique(x: Id, y: Id, s: set<Id>)
    requires IsLeast(x, s) && IsLeast(y, s)
    ensures x == y
  {
    LessTrichotomy(x, y);
  }

  lemma {:induction false} CardinalityOfSetOf<T>(s: seq<T>)
    ensures |SetOf(s)| <= |s|
    ensures |SetOf(s)| == |s| <==> NoDup(s)
  {
    if s != [] {
      var n := |s| - 1;
      CardinalityOfSetOf(s[..n]);
      assert s == s[..n] + [s[n]];
      assert SetOf(s) == SetOf(s[..n]) + {s[n]};
      if s[n] in s[..n] {
        assert SetOf(s) == SetOf(s[..n]);
        var i :| 0 <= i < n && s[..n][i] == s[n];
        assert !NoDup(s) by { assert s[i] == s[n]; }
      } else {
        assert NoDup(s) <==> NoDup(s[..n]) by {
          if NoDup(s) {
            forall i, j | 0 <= i < j < n ensures s[..n][i] != s[..n][j] { assert s[i] != s[j]; }
          }
          if NoDup(s[..n]) {
            forall i, j | 0 <= i < j < |s| ensures s[i] != s[j] {
              assert s[i] == s[..n][i];
              if j < n { assert s[j] == s[..n][j]; }
            }
          }
        }
      }
    }
  }

  lemma SubsetCardinality<T>(a: set<T>, b: set<T>)
    requires a <= b
    ensures |a| <= |b|
    ensures |a| == |b| ==> a == b
  {
    assert b == a + (b - a);
  }

  /** `heapq.heappop` on a heap with these contents. */
  method HeapPop(heap: multiset<Id>) returns (least: Id, rest: multiset<Id>)
    requires heap != multiset{}
    ensures least in heap && rest == heap - multiset{least}
    ensures forall y | y in heap :: least == y || Less(least, y)
  {
    var pending := heap;
    least :| least in pending;
    while pending != multiset{}
      invariant pending <= heap && least in heap
      invariant forall y | y in heap && y !in pending :: least == y || Less(least, y)
      decreases |pending|
    {
      var x :| x in pending;
      LessTrichotomy(x, least);
      if Less(x, least) {
        forall y | y in heap && y !in pending ensures Less(x, y) {
          if y != least { LessTransitive(x, least, y); }
        }
        least := x;
      }
      assert pending[x := 0] <= pending && |pending[x := 0]| < |pending| by {
        assert pending == pending[x := 0] + multiset{x}[x := pending[x]];
      }
      pending := pending[x := 0];
    }
    rest := heap - multiset{least};
  }

  ghost predicate AllBelow(r: seq<Id>, left: set<Id>) {
    forall i, y :: 0 <= i < |r| && y in left ==> Less(r[i], y)
  }

  lemma AppendLeast(r: seq<Id>, left: set<Id>, least: Id)
    requires Ascending(r) && NoDup(r) && AllBelow(r, left) && SetOf(r) * left == {}
    requires IsLeast(least, left)
    ensures Ascending(r + [least]) && NoDup(r + [least]) && AllBelow(r + [least], left - {least})
    ensures SetOf(r + [least]) == SetOf(r) + {least}
  {
    assert least !in SetOf(r);
  }

  lemma MovesOver(ids: set<Id>, sorted: set<Id>, left: set<Id>, x: Id)
    requires sorted * left == {} && sorted + left == ids && x in left
    ensures (sorted + {x}) * (left - {x}) == {} && (sorted + {x}) + (left - {x}) == ids
    ensures |left - {x}| < |left|
  {
  }

  /** Python's `sorted` on a set of ids. */
  method SortedIds(ids: set<Id>) returns (r: seq<Id>)
    ensures Ascending(r) && SetOf(r) == ids && NoDup(r)
  {
    r := [];
    var left := ids;
    while left != {}
      invariant SetOf(r) * left == {} && SetOf(r) + left == ids
      invariant Ascending(r) && NoDup(r) && AllBelow(r, left)
      decreases |left|
    {
      ghost var witnessed :| witnessed in left;
      assert witnessed in multiset(left);
      var least, _ := HeapPop(multiset(left));
      AppendLeast(r, left, least);
      MovesOver(ids, SetOf(r), left, least);
      r := r + [least];
      left := left - {least};
    }
  }
}
