/** Python's stable `sorted(..., key=...)`, for a total order on keys. */
module Sorting {

  ghost predicate Total<T(!new)>(le: (T, T) -> bool) {
    forall a, b :: le(a, b) || le(b, a)
  }

  /** Names a chain, so that transitivity is used where it is asked for and nowhere else. */
  ghost predicate Chain<T>(a: T, b: T, c: T) { true }

  ghost predicate Transitive<T(!new)>(le: (T, T) -> bool) {
    forall a, b, c {:trigger Chain(a, b, c)} :: Chain(a, b, c) && le(a, b) && le(b, c) ==> le(a, c)
  }

  ghost predicate SortedBy<T>(le: (T, T) -> bool, s: seq<T>) {
    forall i, j :: 0 <= i < j < |s| ==> le(s[i], s[j])
  }

  /** Places `x` behind everything that may stand before it. */
  function Insert<T>(le: (T, T) -> bool, s: seq<T>, x: T): seq<T> {
    if s == [] || le(s[|s| - 1], x) then s + [x]
    else Insert(le, s[..|s| - 1], x) + [s[|s| - 1]]
  }

  function Sorted<T>(le: (T, T) -> bool, s: seq<T>): seq<T> {
    if s == [] then [] else Insert(le, Sorted(le, s[..|s| - 1]), s[|s| - 1])
  }

  lemma {:induction false} InsertHolds<T>(le: (T, T) -> bool, s: seq<T>, x: T)
    ensures |Insert(le, s, x)| == |s| + 1
    ensures forall y :: y in Insert(le, s, x) <==> y in s || y == x
  {
    if s != [] && !le(s[|s| - 1], x) {
      var n := |s| - 1;
      InsertHolds(le, s[..n], x);
      assert s == s[..n] + [s[n]];
    }
  }

  lemma {:induction false} InsertIsSorted<T(!new)>(le: (T, T) -> bool, s: seq<T>, x: T)
    requires Total(le) && Transitive(le) && SortedBy(le, s)
    ensures SortedBy(le, Insert(le, s, x))
  {
    var n := |s| - 1;
    if s != [] && !le(s[n], x) {
      var front := Insert(le, s[..n], x);
      InsertIsSorted(le, s[..n], x);
      InsertHolds(le, s[..n], x);
      forall i | 0 <= i < |front| ensures le(front[i], s[n]) {
        if front[i] != x {
          assert front[i] in s[..n];
          var k :| 0 <= k < n && s[..n][k] == front[i];
        }
      }
    } else {
      forall i | 0 <= i < |s| ensures le(s[i], x) {
        if i < n { assert Chain(s[i], s[n], x); }
      }
    }
  }

  lemma {:induction false} SortedIsSorted<T(!new)>(le: (T, T) -> bool, s: seq<T>)
    requires Total(le) && Transitive(le)
    ensures SortedBy(le, Sorted(le, s)) && |Sorted(le, s)| == |s|
    ensures forall x :: x in Sorted(le, s) <==> x in s
  {
    if s != [] {
      var n := |s| - 1;
      SortedIsSorted(le, s[..n]);
      InsertIsSorted(le, Sorted(le, s[..n]), s[n]);
      InsertHolds(le, Sorted(le, s[..n]), s[n]);
      assert s == s[..n] + [s[n]];
    }
  }

  /** Sorting neither adds nor loses an occurrence. */
  lemma {:induction false} SortedIsPermutation<T(!new)>(le: (T, T) -> bool, s: seq<T>)
    ensures multiset(Sorted(le, s)) == multiset(s)
  {
    if s != [] {
      var n := |s| - 1;
      SortedIsPermutation(le, s[..n]);
      InsertKeepsCount(le, Sorted(le, s[..n]), s[n]);
      assert s == s[..n] + [s[n]];
    }
  }

  lemma {:induction false} InsertKeepsCount<T(!new)>(le: (T, T) -> bool, s: seq<T>, x: T)
    ensures multiset(Insert(le, s, x)) == multiset(s) + multiset{x}
  {
    if s != [] && !le(s[|s| - 1], x) {
      InsertKeepsCount(le, s[..|s| - 1], x);
      assert s == s[..|s| - 1] + [s[|s| - 1]];
    }
  }
}
