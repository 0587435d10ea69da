/** The cache of repository summaries (`backend/app/api/repository_context.py`): least recently used goes first. */
module SummaryCache {
  import opened Wrappers
  import opened Ids

  /** Project and commit; the summary version is one constant. */
  type Key = (string, string)

  /** An `OrderedDict`: `order` is oldest first. */
  datatype Cache = Cache(order: seq<Key>, values: map<Key, string>)

  const EMPTY := Cache([], map[])

  function Without(s: seq<Key>, x: Key): (r: seq<Key>)
    ensures |r| <= |s|
  {
    if s == [] then [] else Without(s[..|s| - 1], x) + if s[|s| - 1] == x then [] else [s[|s| - 1]]
  }

  function Touched(s: seq<Key>, x: Key): seq<Key> { Without(s, x) + [x] }

  function Last(s: seq<Key>, n: nat): seq<Key> { if |s| <= n then s else s[|s| - n..] }

  ghost predicate WellKept(c: Cache, bound: nat) {
    NoDup(c.order) && Agree(c.order, c.values) && |c.order| <= bound
  }

  /** The first locked section. */
  function LookUp(c: Cache, key: Key): Cache {
    if key in c.values then c.(order := Touched(c.order, key)) else c
  }

  /** The second locked section. */
  function Keep(c: Cache, key: Key, summary: string, bound: nat): Cache {
    var order := Last(Touched(c.order, key), bound);
    Cache(order, map k | k in order && (k == key || k in c.values) :: if k == key then summary else c.values[k])
  }

  lemma {:induction false} WithoutRemoves(s: seq<Key>, x: Key)
    ensures forall k :: k in Without(s, x) <==> k in s && k != x
  {
    if s != [] {
      var front, y := s[..|s| - 1], s[|s| - 1];
      assert s == front + [y];
      WithoutRemoves(front, x);
    }
  }

  lemma FrontIsDistinct(s: seq<Key>)
    requires NoDup(s) && s != []
    ensures NoDup(s[..|s| - 1]) && s[|s| - 1] !in s[..|s| - 1]
  {
    var front := s[..|s| - 1];
    assert forall i :: 0 <= i < |front| ==> front[i] == s[i];
  }

  lemma {:induction false} WithoutIsDistinct(s: seq<Key>, x: Key)
    requires NoDup(s)
    ensures NoDup(Without(s, x))
  {
    if s != [] {
      FrontIsDistinct(s);
      WithoutIsDistinct(s[..|s| - 1], x);
      WithoutRemoves(s[..|s| - 1], x);
    }
  }

  lemma {:induction false} AbsentChangesNothing(s: seq<Key>, x: Key)
    requires x !in s
    ensures Without(s, x) == s
  {
    if s != [] {
      var front := s[..|s| - 1];
      AbsentChangesNothing(front, x);
      assert s == front + [s[|s| - 1]];
    }
  }

  lemma {:induction false} OneFewer(s: seq<Key>, x: Key)
    requires NoDup(s) && x in s
    ensures |Without(s, x)| == |s| - 1
  {
    var front, y := s[..|s| - 1], s[|s| - 1];
    FrontIsDistinct(s);
    if y == x {
      AbsentChangesNothing(front, x);
    } else {
      assert x in front by { assert s == front + [y]; }
      OneFewer(front, x);
    }
  }

  lemma TouchedIsKept(s: seq<Key>, x: Key)
    requires NoDup(s)
    ensures NoDup(Touched(s, x)) && forall k :: k in Touched(s, x) <==> k in s || k == x
    ensures |Touched(s, x)| == if x in s then |s| else |s| + 1
  {
    WithoutRemoves(s, x);
    WithoutIsDistinct(s, x);
    if x in s { OneFewer(s, x); } else { AbsentChangesNothing(s, x); }
  }

  lemma LookUpKeeps(c: Cache, key: Key, bound: nat)
    requires WellKept(c, bound)
    ensures WellKept(LookUp(c, key), bound)
  {
    TouchedIsKept(c.order, key);
  }

  lemma LastEndsAlike(s: seq<Key>, n: nat)
    requires NoDup(s) && s != [] && n >= 1
    ensures NoDup(Last(s, n)) && s[|s| - 1] in Last(s, n) && forall k | k in Last(s, n) :: k in s
  {
    var tail := Last(s, n);
    if |s| > n { TailIsDistinct(s, |s| - n); }
    assert tail[|tail| - 1] == s[|s| - 1];
  }

  lemma TailIsDistinct(s: seq<Key>, n: nat)
    requires NoDup(s) && n <= |s|
    ensures NoDup(s[n..])
  {
    assert forall i :: 0 <= i < |s| - n ==> s[n..][i] == s[n + i];
  }

  lemma KeepKeeps(c: Cache, key: Key, summary: string, bound: nat)
    requires WellKept(c, bound) && bound >= 1
    ensures WellKept(Keep(c, key, summary, bound), bound)
    ensures var c' := Keep(c, key, summary, bound);
            && key in c'.values && c'.values[key] == summary
            && forall k | k in c'.values && k != key :: k in c.values && c'.values[k] == c.values[k]
  {
    TouchedIsKept(c.order, key);
    LastEndsAlike(Touched(c.order, key), bound);
  }

  lemma OldestGoes(touched: seq<Key>, n: nat)
    requires NoDup(touched) && n < |touched|
    ensures touched[n..][1..] == touched[n + 1..] && touched[n..][0] !in touched[n + 1..]
  {
    forall i | n + 1 <= i < |touched| ensures touched[i] != touched[n] { }
  }

  ghost predicate Agree(order: seq<Key>, values: map<Key, string>) {
    forall k :: k in order <==> k in values
  }

  ghost predicate Within(values: map<Key, string>, all: map<Key, string>) {
    forall k | k in values :: k in all && values[k] == all[k]
  }

  lemma EvictionAgrees(order: seq<Key>, values: map<Key, string>)
    requires order != [] && order[0] !in order[1..] && Agree(order, values)
    ensures Agree(order[1..], values - {order[0]})
    ensures Within(values - {order[0]}, values)
  {
    assert order == [order[0]] + order[1..];
  }

  lemma TailIsLast(touched: seq<Key>, n: nat, bound: nat)
    requires n <= |touched| <= n + bound && (n == 0 || |touched| >= n + bound)
    ensures touched[n..] == Last(touched, bound)
  {
  }

  lemma KeptValues(c: Cache, key: Key, summary: string, bound: nat, order: seq<Key>, values: map<Key, string>)
    requires WellKept(c, bound)
    requires order == Last(Touched(c.order, key), bound) && Agree(order, values) && Within(values, c.values[key := summary])
    ensures Cache(order, values) == Keep(c, key, summary, bound)
  {
    assert values == Keep(c, key, summary, bound).values;
  }

  class RepositoryPlanningContextBuilder {
    const maxCachedSummaries: nat
    const build: (string, seq<string>) -> string
    var order: seq<Key>
    var values: map<Key, string>

    ghost function State(): Cache
      reads this
    {
      Cache(order, values)
    }

    ghost predicate Valid()
      reads this
    {
      maxCachedSummaries >= 1 && WellKept(State(), maxCachedSummaries)
    }

    constructor (maxCachedSummaries: nat, build: (string, seq<string>) -> string)
      requires 1 <= maxCachedSummaries <= 512
      ensures Valid() && State() == EMPTY && this.maxCachedSummaries == maxCachedSummaries && this.build == build
    {
      this.maxCachedSummaries, this.build, order, values := maxCachedSummaries, build, [], map[];
    }

    method LookUpLocked(key: Key) returns (cached: Option<string>)
      requires Valid()
      modifies this
      ensures Valid() && State() == LookUp(old(State()), key)
      ensures cached == if key in old(values) then Some(old(values)[key]) else None
    {
      LookUpKeeps(State(), key, maxCachedSummaries);
      if key !in values { return None; }
      order := Touched(order, key);
      return Some(values[key]);
    }

    /** The oldest entries go until the bound holds. */
    method Evict()
      requires NoDup(order) && Agree(order, values)
      modifies this
      ensures order == Last(old(order), maxCachedSummaries)
      ensures Agree(order, values) && Within(values, old(values))
    {
      ghost var touched, n := order, 0;
      while |order| > maxCachedSummaries
        invariant 0 <= n <= |touched| && order == touched[n..] && (n == 0 || |order| >= maxCachedSummaries)
        invariant Agree(order, values) && Within(values, old(values))
      {
        OldestGoes(touched, n);
        EvictionAgrees(order, values);
        values := values - {order[0]};
        order, n := order[1..], n + 1;
      }
      TailIsLast(touched, n, maxCachedSummaries);
    }

    method StoreLocked(key: Key, summary: string)
      requires Valid()
      modifies this
      ensures Valid() && State() == Keep(old(State()), key, summary, maxCachedSummaries)
    {
      KeepKeeps(State(), key, summary, maxCachedSummaries);
      TouchedIsKept(order, key);
      values := values[key := summary];
      order := Touched(order, key);
      Evict();
      KeptValues(old(State()), key, summary, maxCachedSummaries, order, values);
    }

    /** Alone, one call leaves the cache as `Access` says, and answers what a direct build would if the cache is truthful. */
    method RepositorySummary(projectId: Option<string>, baseCommit: string, files: seq<string>) returns (summary: string)
      requires Valid()
      modifies this
      ensures Valid()
      ensures projectId.None? ==> State() == old(State()) && summary == build(baseCommit, files)
      ensures projectId.Some? ==> State() == Access(old(State()), (projectId.value, baseCommit), build(baseCommit, files), maxCachedSummaries)
      ensures projectId.Some? ==> var key := (projectId.value, baseCommit);
              summary == if key in old(values) then old(values)[key] else build(baseCommit, files)
    {
      if projectId.None? { return build(baseCommit, files); }
      var key := (projectId.value, baseCommit);
      var cached := LookUpLocked(key);
      if cached.Some? { return cached.value; }
      summary := build(baseCommit, files);
      StoreLocked(key, summary);
    }
  }

  // ----- interleavings of the two locked sections

  datatype Request = Request(projectId: Option<string>, commit: string, files: seq<string>)

  /** A thread between its two sections holds the summary it built. */
  datatype World = World(cache: Cache, building: map<nat, Request>, answers: seq<(Request, string)>)

  datatype Action = Ask(thread: nat, request: Request) | Store(thread: nat)

  function KeyOf(r: Request): Key
    requires r.projectId.Some?
  {
    (r.projectId.value, r.commit)
  }

  function Apply(w: World, a: Action, build: (string, seq<string>) -> string, bound: nat): World {
    match a
    case Ask(t, r) =>
      if t in w.building then w
      else if r.projectId.None? then w.(answers := w.answers + [(r, build(r.commit, r.files))])
      else if KeyOf(r) in w.cache.values then
        w.(cache := LookUp(w.cache, KeyOf(r)), answers := w.answers + [(r, w.cache.values[KeyOf(r)])])
      else w.(building := w.building[t := r])
    case Store(t) =>
      if t !in w.building || w.building[t].projectId.None? then w
      else
        var r := w.building[t];
        var summary := build(r.commit, r.files);
        w.(cache := Keep(w.cache, KeyOf(r), summary, bound), building := w.building - {t}, answers := w.answers + [(r, summary)])
  }

  function Run(actions: seq<Action>, build: (string, seq<string>) -> string, bound: nat): World {
    if actions == [] then World(EMPTY, map[], [])
    else Apply(Run(actions[..|actions| - 1], build, bound), actions[|actions| - 1], build, bound)
  }

  /** The files of a project's commit never change. */
  ghost predicate Immutable(actions: seq<Action>, filesOf: Key -> seq<string>) {
    forall a | a in actions ::
      a.Ask? && a.request.projectId.Some? ==> a.request.files == filesOf((a.request.projectId.value, a.request.commit))
  }

  ghost predicate Truthful(w: World, filesOf: Key -> seq<string>, build: (string, seq<string>) -> string, bound: nat) {
    && WellKept(w.cache, bound)
    && (forall k | k in w.cache.values :: w.cache.values[k] == build(k.1, filesOf(k)))
    && (forall t | t in w.building :: w.building[t].projectId.Some? && w.building[t].files == filesOf((w.building[t].projectId.value, w.building[t].commit)))
    && (forall i :: 0 <= i < |w.answers| ==> w.answers[i].1 == build(w.answers[i].0.commit, w.answers[i].0.files))
  }

  lemma AskIsTruthful(w: World, t: nat, r: Request, filesOf: Key -> seq<string>, build: (string, seq<string>) -> string, bound: nat)
    requires Truthful(w, filesOf, build, bound)
    requires r.projectId.Some? ==> r.files == filesOf((r.projectId.value, r.commit))
    ensures Truthful(Apply(w, Ask(t, r), build, bound), filesOf, build, bound)
  {
    if r.projectId.Some? { LookUpKeeps(w.cache, KeyOf(r), bound); }
  }

  lemma StoreIsTruthful(w: World, t: nat, filesOf: Key -> seq<string>, build: (string, seq<string>) -> string, bound: nat)
    requires Truthful(w, filesOf, build, bound) && bound >= 1
    ensures Truthful(Apply(w, Store(t), build, bound), filesOf, build, bound)
  {
    if t in w.building {
      var r := w.building[t];
      KeepKeeps(w.cache, KeyOf(r), build(r.commit, r.files), bound);
    }
  }

  /** However threads interleave, every answer is what building directly gives, and the bound is never exceeded. */
  lemma {:induction false} EveryAnswerIsDirect(
    actions: seq<Action>, filesOf: Key -> seq<string>, build: (string, seq<string>) -> string, bound: nat)
    requires Immutable(actions, filesOf) && bound >= 1
    ensures Truthful(Run(actions, build, bound), filesOf, build, bound)
  {
    if actions != [] {
      var front, a := actions[..|actions| - 1], actions[|actions| - 1];
      assert Immutable(front, filesOf) by { assert forall b | b in front :: b in actions; }
      EveryAnswerIsDirect(front, filesOf, build, bound);
      assert a in actions;
      match a
      case Ask(t, r) => AskIsTruthful(Run(front, build, bound), t, r, filesOf, build, bound);
      case Store(t) => StoreIsTruthful(Run(front, build, bound), t, filesOf, build, bound);
    }
  }

  // ----- one caller at a time

  function Access(c: Cache, key: Key, summary: string, bound: nat): Cache {
    if key in c.values then LookUp(c, key) else Keep(c, key, summary, bound)
  }

  function CacheAfter(uses: seq<(Key, string)>, bound: nat): Cache {
    if uses == [] then EMPTY
    else
      var last := uses[|uses| - 1];
      Access(CacheAfter(uses[..|uses| - 1], bound), last.0, last.1, bound)
  }

  /** The distinct keys used, by latest use. */
  function Recent(uses: seq<(Key, string)>): seq<Key> {
    if uses == [] then [] else Touched(Recent(uses[..|uses| - 1]), uses[|uses| - 1].0)
  }

  /** The keys used after the latest use of `k`. */
  function Since(uses: seq<(Key, string)>, k: Key): seq<Key> {
    if uses == [] || uses[|uses| - 1].0 == k then [] else Since(uses[..|uses| - 1], k) + [uses[|uses| - 1].0]
  }

  predicate Used(uses: seq<(Key, string)>, k: Key) { exists i :: 0 <= i < |uses| && uses[i].0 == k }

  lemma {:induction false} WithoutOfAppend(a: seq<Key>, b: seq<Key>, x: Key)
    ensures Without(a + b, x) == Without(a, x) + Without(b, x)
  {
    if b == [] {
      assert a + b == a;
    } else {
      var y := b[|b| - 1];
      assert (a + b)[..|a + b| - 1] == a + b[..|b| - 1];
      WithoutOfAppend(a, b[..|b| - 1], x);
    }
  }

  lemma LastOfLong(a: seq<Key>, b: seq<Key>, n: nat)
    requires |b| >= n
    ensures Last(a + b, n) == Last(b, n)
  {
  }

  /** Touching a key commutes with forgetting all but the last `bound`. */
  lemma LastOfTouched(s: seq<Key>, x: Key, bound: nat)
    requires NoDup(s)
    ensures Last(Touched(Last(s, bound), x), bound) == Last(Touched(s, x), bound)
  {
    if |s| > bound {
      var older, tail := s[..|s| - bound], s[|s| - bound..];
      TailIsDistinct(s, |s| - bound);
      TouchedIsKept(tail, x);
      assert Touched(s, x) == Without(older, x) + Touched(tail, x) by {
        assert s == older + tail;
        WithoutOfAppend(older, tail, x);
      }
      LastOfLong(Without(older, x), Touched(tail, x), bound);
    }
  }

  lemma {:induction false} RecentIsDistinct(uses: seq<(Key, string)>)
    ensures NoDup(Recent(uses)) && forall k :: k in Recent(uses) <==> Used(uses, k)
  {
    if uses != [] {
      var front, x := uses[..|uses| - 1], uses[|uses| - 1].0;
      RecentIsDistinct(front);
      TouchedIsKept(Recent(front), x);
      forall k ensures k in Recent(uses) <==> Used(uses, k) {
        if Used(front, k) {
          var i :| 0 <= i < |front| && front[i].0 == k;
          assert uses[i].0 == k;
        }
        if Used(uses, k) && k != x {
          var i :| 0 <= i < |uses| && uses[i].0 == k;
          assert front[i].0 == k;
        }
      }
    }
  }

  /** The cache holds exactly the most recently used distinct keys, in order of their latest use. */
  lemma {:induction false} CacheHoldsTheMostRecent(uses: seq<(Key, string)>, bound: nat)
    requires bound >= 1
    ensures WellKept(CacheAfter(uses, bound), bound)
    ensures CacheAfter(uses, bound).order == Last(Recent(uses), bound)
  {
    if uses != [] {
      var front, last := uses[..|uses| - 1], uses[|uses| - 1];
      var c := CacheAfter(front, bound);
      CacheHoldsTheMostRecent(front, bound);
      RecentIsDistinct(front);
      LastOfTouched(Recent(front), last.0, bound);
      LookUpKeeps(c, last.0, bound);
      KeepKeeps(c, last.0, last.1, bound);
      if last.0 in c.values { TouchedIsKept(c.order, last.0); }
    }
  }

  // ----- when a call is a hit

  /** The keys after `k` in a list of distinct keys. */
  function Behind(s: seq<Key>, k: Key): seq<Key> {
    if s == [] || s[|s| - 1] == k then [] else Behind(s[..|s| - 1], k) + [s[|s| - 1]]
  }

  lemma {:induction false} BehindIsTail(s: seq<Key>, k: Key)
    requires NoDup(s) && k in s
    ensures |Behind(s, k)| < |s| && s[|s| - |Behind(s, k)| - 1] == k && Behind(s, k) == s[|s| - |Behind(s, k)|..]
  {
    var front, y := s[..|s| - 1], s[|s| - 1];
    if y != k {
      assert s == front + [y];
      FrontIsDistinct(s);
      BehindIsTail(front, k);
    }
  }

  lemma {:induction false} WithoutStep(s: seq<Key>, y: Key, x: Key)
    ensures Without(s + [y], x) == if y == x then Without(s, x) else Without(s, x) + [y]
  {
    assert (s + [y])[..|s|] == s;
    assert Without(s, x) + [] == Without(s, x);
  }

  lemma {:induction false} BehindStep(s: seq<Key>, y: Key, k: Key)
    ensures Behind(s + [y], k) == if y == k then [] else Behind(s, k) + [y]
  {
    assert (s + [y])[..|s|] == s;
  }

  lemma {:induction false} BehindWithout(s: seq<Key>, k: Key, x: Key)
    requires x != k
    ensures Behind(Without(s, x), k) == Without(Behind(s, k), x)
  {
    if s != [] {
      var front, y := s[..|s| - 1], s[|s| - 1];
      assert s == front + [y];
      BehindWithout(front, k, x);
      WithoutStep(front, y, x);
      BehindStep(front, y, k);
      BehindStep(Without(front, x), y, k);
      WithoutStep(Behind(front, k), y, x);
    }
  }

  /** Behind a key in the list of recent keys are just the keys used since. */
  lemma {:induction false} BehindRecentIsSince(uses: seq<(Key, string)>, k: Key)
    ensures forall q :: q in Behind(Recent(uses), k) <==> q in Since(uses, k)
  {
    if uses != [] {
      var front, x := uses[..|uses| - 1], uses[|uses| - 1].0;
      var r := Recent(front);
      BehindRecentIsSince(front, k);
      BehindStep(Without(r, x), x, k);
      if x != k {
        BehindWithout(r, k, x);
        WithoutRemoves(Behind(r, k), x);
      }
    }
  }

  /** A key is cached exactly when it was used and fewer than `bound` distinct other keys were used since. */
  lemma {:induction false} HitIffFewUsedSince(uses: seq<(Key, string)>, k: Key, bound: nat)
    requires bound >= 1
    ensures k in CacheAfter(uses, bound).values <==> Used(uses, k) && |SetOf(Since(uses, k))| < bound
  {
    CacheHoldsTheMostRecent(uses, bound);
    RecentIsDistinct(uses);
    var r := Recent(uses);
    if k in r {
      var behind := Behind(r, k);
      BehindIsTail(r, k);
      TailIsDistinct(r, |r| - |behind|);
      CardinalityOfSetOf(behind);
      BehindRecentIsSince(uses, k);
      assert SetOf(behind) == SetOf(Since(uses, k));
      PositionInLast(r, k, |r| - |behind| - 1, bound);
    }
  }

  lemma PositionInLast(s: seq<Key>, k: Key, i: nat, n: nat)
    requires NoDup(s) && i < |s| && s[i] == k
    ensures k in Last(s, n) <==> |s| - i <= n
  {
    if |s| > n {
      var tail := s[|s| - n..];
      if |s| - i <= n { assert tail[i - (|s| - n)] == k; }
    }
  }
}
