// Changing the hierarchy (otcl.c): superclass and subclass list maintenance,
// the `superclass` method with its rollback, class creation and destruction.
module Superclasses {
  import opened Wrappers
  import opened Precedence
  import opened Hierarchy

  ghost function AddFront<T>(s: seq<T>, x: T): seq<T> {
    if x in s then s else [x] + s
  }

  ghost function RemoveFirst<T>(s: seq<T>, x: T): seq<T> {
    if s == [] then []
    else if s[0] == x then s[1..]
    else [s[0]] + RemoveFirst(s[1..], x)
  }

  lemma {:induction false} RemoveFirstIs<T>(s: seq<T>, x: T)
    requires Distinct(s)
    ensures Distinct(RemoveFirst(s, x))
    ensures forall y :: y in RemoveFirst(s, x) <==> y in s && y != x
  {
    if s != [] {
      assert s == [s[0]] + s[1..];
      assert forall i :: 0 <= i < |s[1..]| ==> s[1..][i] == s[i + 1];
      if s[0] != x {
        RemoveFirstIs(s[1..], x);
        assert s[0] !in s[1..];
        assert s[0] !in RemoveFirst(s[1..], x);
      }
    }
  }

  lemma {:induction false} RemoveAbsent<T>(s: seq<T>, x: T)
    requires x !in s
    ensures RemoveFirst(s, x) == s
  {
    if s != [] { RemoveAbsent(s[1..], x); }
  }

  lemma {:induction false} RemoveFirstAt<T>(s: seq<T>, x: T, l: nat)
    requires l <= |s| && x !in s[..l]
    ensures RemoveFirst(s, x) == s[..l] + RemoveFirst(s[l..], x)
  {
    if l > 0 {
      assert s[0] == s[..l][0];
      assert s[1..][..l - 1] == s[..l][1..] && s[1..][l - 1..] == s[l..];
      RemoveFirstAt(s[1..], x, l - 1);
      assert s[..l] == [s[0]] + s[..l][1..];
    } else {
      assert s[..0] + RemoveFirst(s, x) == RemoveFirst(s, x);
      assert s[0..] == s;
    }
  }

  // AS: insert `s` at the front unless it is already there.
  method AS(s: OTclClass, sl: seq<OTclClass>) returns (r: seq<OTclClass>)
    ensures r == AddFront(sl, s)
  {
    var l := 0;
    while l < |sl| && sl[l] != s
      invariant 0 <= l <= |sl| && s !in sl[..l]
    {
      l := l + 1;
    }
    if l == |sl| {
      assert sl[..l] == sl;
      return [s] + sl;
    }
    return sl;
  }

  // RS: unlink the first `s`.
  method RS(s: OTclClass, sl: seq<OTclClass>) returns (r: seq<OTclClass>, found: bool)
    ensures found == (s in sl) && r == RemoveFirst(sl, s)
  {
    var l := 0;
    while l < |sl| && sl[l] != s
      invariant 0 <= l <= |sl| && s !in sl[..l]
    {
      l := l + 1;
    }
    RemoveFirstAt(sl, s, l);
    if l == |sl| {
      assert sl[..l] == sl;
      return sl, false;
    }
    assert sl[l..][1..] == sl[l + 1..];
    return sl[..l] + sl[l + 1..], true;
  }

  ghost function WithEdge(up: map<OTclClass, seq<OTclClass>>, cl: OTclClass, s: OTclClass): map<OTclClass, seq<OTclClass>>
    requires cl in up
  {
    up[cl := AddFront(up[cl], s)]
  }

  ghost function WithoutEdge(up: map<OTclClass, seq<OTclClass>>, cl: OTclClass, s: OTclClass): map<OTclClass, seq<OTclClass>>
    requires cl in up
  {
    up[cl := RemoveFirst(up[cl], s)]
  }

  lemma {:induction false} ClosedMember<T>(g: map<T, seq<T>>, c: T, y: T)
    requires Closed(g) && c in g && y in g[c]
    ensures y in g
  {}

  lemma {:induction false} LinkedMember(up: map<OTclClass, seq<OTclClass>>, down: map<OTclClass, seq<OTclClass>>, c: OTclClass, y: OTclClass)
    requires Linked(up, down) && c in up && y in up[c]
    ensures y in up && up.Keys == down.Keys
  {}

  lemma {:induction false} ClosedAfter<T>(g: map<T, seq<T>>, c: T, l: seq<T>)
    requires Closed(g) && c in g && forall y :: y in l ==> y in g
    ensures Closed(g[c := l])
  {}

  // Both ends of an edge from `cl` to `s` are updated together.
  lemma {:induction false} EdgeChanged(up: map<OTclClass, seq<OTclClass>>, down: map<OTclClass, seq<OTclClass>>,
                    cl: OTclClass, s: OTclClass, l: seq<OTclClass>, m: seq<OTclClass>, present: bool)
    requires Linked(up, down) && cl in up && s in up && Distinct(l) && Distinct(m)
    requires forall y :: y in l <==> if y == s then present else y in up[cl]
    requires forall y :: y in m <==> if y == cl then present else y in down[s]
    ensures Linked(up[cl := l], down[s := m])
  {
    forall y | y in l
      ensures y in up
    {
      if y != s { ClosedMember(up, cl, y); }
    }
    forall y | y in m
      ensures y in down
    {
      if y != cl { ClosedMember(down, s, y); }
    }
    ClosedAfter(up, cl, l);
    ClosedAfter(down, s, m);
  }

  lemma {:induction false} EdgeAdded(up: map<OTclClass, seq<OTclClass>>, down: map<OTclClass, seq<OTclClass>>, cl: OTclClass, s: OTclClass)
    requires Linked(up, down) && cl in up && s in up
    ensures Linked(WithEdge(up, cl, s), WithEdge(down, s, cl))
  {
    EdgeChanged(up, down, cl, s, AddFront(up[cl], s), AddFront(down[s], cl), true);
  }

  lemma {:induction false} EdgeRemoved(up: map<OTclClass, seq<OTclClass>>, down: map<OTclClass, seq<OTclClass>>, cl: OTclClass, s: OTclClass)
    requires Linked(up, down) && cl in up && s in up
    ensures Linked(WithoutEdge(up, cl, s), WithoutEdge(down, s, cl))
  {
    RemoveFirstIs(up[cl], s);
    RemoveFirstIs(down[s], cl);
    EdgeChanged(up, down, cl, s, RemoveFirst(up[cl], s), RemoveFirst(down[s], cl), false);
  }

  // `up` and `down` are what the superclass and subclass lists hold.
  ghost predicate Links(world: set<OTclClass>, up: map<OTclClass, seq<OTclClass>>, down: map<OTclClass, seq<OTclClass>>)
    reads world`super, world`sub
  {
    up.Keys == world && down.Keys == world && forall c :: c in world ==> c.super == up[c] && c.sub == down[c]
  }

  method AddSuper(cl: OTclClass, s: OTclClass, ghost world: set<OTclClass>,
                  ghost up: map<OTclClass, seq<OTclClass>>, ghost down: map<OTclClass, seq<OTclClass>>)
    requires Links(world, up, down) && cl in world && s in world
    modifies cl`super, s`sub
    ensures Links(world, WithEdge(up, cl, s), WithEdge(down, s, cl))
  {
    cl.super := AS(s, cl.super);
    s.sub := AS(cl, s.sub);
  }

  method RemoveSuper(cl: OTclClass, s: OTclClass, ghost world: set<OTclClass>,
                     ghost up: map<OTclClass, seq<OTclClass>>, ghost down: map<OTclClass, seq<OTclClass>>)
    returns (ok: bool)
    requires Links(world, up, down) && cl in world && s in world
    modifies cl`super, s`sub
    ensures Links(world, WithoutEdge(up, cl, s), WithoutEdge(down, s, cl))
    ensures ok == (s in up[cl] && cl in down[s])
  {
    var l, sp := RS(s, cl.super);
    cl.super := l;
    var m, sb := RS(cl, s.sub);
    s.sub := m;
    ok := sp && sb;
  }

  // ---------- what new superclasses do to the hierarchy ----------

  type ClassGraph = map<OTclClass, seq<OTclClass>>

  // No superclass in the list inherits from one given before it.
  ghost predicate InDependenceOrder(up: ClassGraph, given: seq<OTclClass>) {
    forall i, j :: 0 <= i < j < |given| ==> !Reaches(up, given[j], given[i])
  }

  // Some superclass in the list inherits from `cl`, or is `cl`.
  ghost predicate ClosesCycle(up: ClassGraph, cl: OTclClass, given: seq<OTclClass>) {
    exists i :: 0 <= i < |given| && Reaches(up, given[i], cl)
  }

  // The class names itself as a superclass, and not as the last one.
  ghost predicate NamesItselfEarly(cl: OTclClass, given: seq<OTclClass>) {
    cl in given && given[|given| - 1] != cl
  }

  lemma {:induction false} InOrderDistinct(up: ClassGraph, given: seq<OTclClass>)
    requires InDependenceOrder(up, given)
    ensures Distinct(given)
  {
    forall i, j | 0 <= i < j < |given|
      ensures given[i] != given[j]
    {
      ReachesSelf(up, given[i]);
    }
  }

  lemma {:induction false} ReverseDistinct<T>(s: seq<T>)
    requires Distinct(s)
    ensures Distinct(Reverse(s))
  {}

  lemma {:induction false} LinkedFacts(up: ClassGraph, down: ClassGraph, c: OTclClass)
    requires Linked(up, down) && c in up
    ensures Closed(up) && Closed(down) && up.Keys == down.Keys && Distinct(up[c])
    ensures forall x :: x in Reverse(up[c]) ==> x in up
  {}

  lemma {:induction false} ReverseMembers<T>(s: seq<T>)
    ensures forall x :: x in Reverse(s) <==> x in s
  {
    forall x | x in s
      ensures x in Reverse(s)
    {
      var i :| 0 <= i < |s| && s[i] == x;
      assert Reverse(s)[|s| - 1 - i] == x;
    }
  }

  // The hierarchy `h` differs from the sound hierarchy `g` in that `cl` has been
  // given new superclasses; `down` holds the subclass lists of `h`.
  ghost predicate Regiven(g: ClassGraph, h: ClassGraph, down: ClassGraph, cl: OTclClass, given: seq<OTclClass>) {
    && Closed(g) && NoCycles(g) && cl in g && Linked(h, down)
    && h == g[cl := Reverse(given)]
    && InDependenceOrder(g, given)
  }

  lemma {:induction false} RegivenFacts(g: ClassGraph, h: ClassGraph, down: ClassGraph, cl: OTclClass, given: seq<OTclClass>)
    requires Regiven(g, h, down, cl, given)
    ensures Closed(h) && Closed(down) && h.Keys == down.Keys == g.Keys && Linked(h, down)
    ensures Closed(g) && NoCycles(g) && cl in g && g == h[cl := g[cl]] && h == g[cl := Reverse(given)]
  {}

  lemma {:induction false} RegivenNow(g: ClassGraph, h: ClassGraph, down: ClassGraph, cl: OTclClass, given: seq<OTclClass>)
    requires Closed(g) && NoCycles(g) && cl in g && Linked(h, down) && InDependenceOrder(g, given)
    requires h == g[cl := []][cl := Reverse(given)]
    ensures Regiven(g, h, down, cl, given)
  {}

  lemma {:induction false} WhiteExactlyWhen(world: set<OTclClass>, black: seq<OTclClass>)
    requires Colored(world, {}, black) && Reported(black, world, {})
    ensures AllWhite(world) <==> black == []
  {
    if black != [] { assert black[0] in world; }
  }

  // A cycle defeats the search for dependents as well as the search for the order.
  // Above `cl` stands the class given that inherits from it, so `cl` is above itself.
  lemma {:induction false} CycleAbove(g: ClassGraph, h: ClassGraph, down: ClassGraph, cl: OTclClass, given: seq<OTclClass>)
    requires Regiven(g, h, down, cl, given) && ClosesCycle(g, cl, given)
    ensures Above(h, cl, cl)
  {
    ReverseIndex(given);
    var i :| 0 <= i < |given| && Reaches(g, given[i], cl);
    assert h[cl][|given| - 1 - i] == given[i];
    ReachesChanged(g, h, cl, given[i]);
    ReachesStep(h, cl, |given| - 1 - i, cl);
  }

  lemma {:induction false} NoOrderAbove(h: ClassGraph, cl: OTclClass)
    requires Closed(h) && cl in h && Above(h, cl, cl)
    ensures TopoOrder(h, cl).None?
  {
    ReachesSelf(h, cl);
    TopoOrderExists(h, cl);
  }

  lemma {:induction false} RegivenCyclic(g: ClassGraph, h: ClassGraph, down: ClassGraph, cl: OTclClass, given: seq<OTclClass>)
    requires Regiven(g, h, down, cl, given) && ClosesCycle(g, cl, given)
    ensures TopoOrder(h, cl).None? && TopoOrder(down, cl).None?
  {
    hide TopoOrder, Above;
    CycleAbove(g, h, down, cl, given);
    AboveInverse(h, down, cl);
    NoOrderAbove(h, cl);
    NoOrderAbove(down, cl);
  }

  lemma {:induction false} RegivenAcyclic(g: ClassGraph, h: ClassGraph, down: ClassGraph, cl: OTclClass, given: seq<OTclClass>)
    requires Regiven(g, h, down, cl, given) && !ClosesCycle(g, cl, given)
    ensures NoCycles(h) && TopoOrder(h, cl).Some? && TopoOrder(down, cl).Some?
  {
    CycleExactlyWhen(g, h, cl);
    AcyclicAfterChange(g, h, cl);
    TopoOrderExists(h, cl);
    NoCyclesDown(h, down);
    TopoOrderExists(down, cl);
  }

  lemma {:induction false} NoCyclesDown(h: ClassGraph, down: ClassGraph)
    requires Linked(h, down) && NoCycles(h)
    ensures NoCycles(down)
  {
    InverseSwap(h, down);
    forall x | x in down
      ensures !Above(down, x, x)
    {
      if Above(down, x, x) { AboveInverse(down, h, x); }
    }
  }

  lemma {:induction false} ReverseIndex<T>(s: seq<T>)
    ensures forall i :: 0 <= i < |s| ==> s[i] == Reverse(s)[|s| - 1 - i]
  {}

  lemma {:induction false} IndexOfFirst<T>(s: seq<T>, x: T, k: nat)
    requires k < |s| && s[k] == x && x !in s[..k]
    ensures IndexOf(s, x) == k
  {}

  // The search for dependents never leaves a class black: the edge from `cl` to
  // itself, if there is one, was added in front.
  lemma {:induction false} DependentsWhite(g: ClassGraph, h: ClassGraph, down: ClassGraph, cl: OTclClass, given: seq<OTclClass>)
    requires Regiven(g, h, down, cl, given)
    requires cl in given ==> down[cl] != [] && down[cl][0] == cl
    ensures Leftover(down, cl) == []
  {}

  // The classes given after `cl` itself have a cycle-free part of the graph below them.
  lemma {:induction false} LaterOnesFinish(g: ClassGraph, h: ClassGraph, down: ClassGraph, cl: OTclClass, given: seq<OTclClass>, k: nat)
    requires Regiven(g, h, down, cl, given) && k < |given| && h[cl][k] == cl
    ensures Dfs(h, h[cl][..k], {cl}, []).Some?
  {
    var cs := h[cl][..k];
    if Dfs(h, cs, {cl}, []).None? {
      forall y, i | y in {cl} && 0 <= i < |cs|
        ensures Above(h, y, cs[i])
      {
        ReachesSelf(h, cs[i]);
        assert h[cl][i] == cs[i];
      }
      var i, x := DfsStuck(h, cs, {cl}, []);
      LaterOneIsAcyclic(g, h, cl, given, i, k, x);
    }
  }

  lemma {:induction false} LaterOneIsAcyclic(g: ClassGraph, h: ClassGraph, cl: OTclClass, given: seq<OTclClass>, i: nat, k: nat, x: OTclClass)
    requires Closed(g) && NoCycles(g) && cl in g && h == g[cl := Reverse(given)] && InDependenceOrder(g, given)
    requires i < k < |given| && h[cl][k] == cl && x in h && Reaches(h, h[cl][i], x)
    ensures !Above(h, x, x)
  {
    if Above(h, x, x) {
      var n := |given| - 1;
      assert h[cl][i] == given[n - i] && h[cl][k] == given[n - k];
      ReachesChanged(g, h, cl, given[n - i]);
      CycleReachesChanged(g, h, cl, x);
      ReachesTrans(h, given[n - i], x, cl);
    }
  }

  lemma {:induction false} SortedMembers(g: ClassGraph, o: seq<OTclClass>)
    requires Sorted(g, o)
    ensures Reported(o, g.Keys, {})
  {
    forall x | x in o
      ensures x in g
    {
      var i :| 0 <= i < |o| && o[i] == x;
      assert BeforeNeighbours(g, o, i);
    }
  }

  // A cache that survives the flush is still right for the new hierarchy.
  lemma {:induction false} SurvivingCache(g: ClassGraph, h: ClassGraph, down: ClassGraph, cl: OTclClass, given: seq<OTclClass>, c: OTclClass)
    requires Regiven(g, h, down, cl, given) && !ClosesCycle(g, cl, given)
    requires c in g && c !in Flushed(down, cl)
    ensures TopoOrder(g, c) == TopoOrder(h, c)
  {
    RegivenAcyclic(g, h, down, cl, given);
    TopoOrderCorrect(down, cl);
    ReachesInverse(h, down, c, cl);
    ReachesChanged(g, h, cl, c);
    OrderUnaffected(g, h, cl, c);
  }

  // What the two searches after a change find.
  lemma {:induction false} RegivenSearches(g: ClassGraph, h: ClassGraph, down: ClassGraph, cl: OTclClass, given: seq<OTclClass>)
    requires Regiven(g, h, down, cl, given)
    ensures cl in Flushed(down, cl)
    ensures ClosesCycle(g, cl, given) <==> OrNull(TopoOrder(h, cl)) == []
    ensures ClosesCycle(g, cl, given) ==> Flushed(down, cl) == [cl]
    ensures !ClosesCycle(g, cl, given) ==>
      NoCycles(h) && forall c :: c in g && c !in Flushed(down, cl) ==> TopoOrder(g, c) == TopoOrder(h, c)
  {
    TopoOrderUnfold(h, cl);
    TopoOrderUnfold(down, cl);
    if ClosesCycle(g, cl, given) {
      RegivenCyclic(g, h, down, cl, given);
    } else {
      RegivenAcyclic(g, h, down, cl, given);
      forall c | c in g && c !in Flushed(down, cl)
        ensures TopoOrder(g, c) == TopoOrder(h, c)
      {
        SurvivingCache(g, h, down, cl, given, c);
      }
    }
  }

  // What the flush before a new search leaves in the caches of the other classes.
  ghost predicate CachesBut(world: set<OTclClass>, g: ClassGraph, d: ClassGraph, cl: OTclClass)
    requires Closed(g) && Closed(d) && g.Keys == d.Keys == world && cl in g
    reads (world - {cl})`order
  {
    forall c :: c in world - {cl} ==> c.order == [] || (c !in Flushed(d, cl) && TopoOrder(g, c) == Some(c.order))
  }

  lemma {:induction false} CachesRecomputed(world: set<OTclClass>, g: ClassGraph, h: ClassGraph, down: ClassGraph, cl: OTclClass, given: seq<OTclClass>)
    requires Regiven(g, h, down, cl, given) && g.Keys == h.Keys == down.Keys == world && Closed(h) && Closed(down)
    requires CachesBut(world, g, down, cl) && cl.order == OrNull(TopoOrder(h, cl))
    ensures if cl.order == [] then Coherent(world, g) else NoCycles(h) && Coherent(world, h)
  {
    hide Regiven, TopoOrder, Flushed, NoCycles, ClosesCycle;
    RegivenSearches(g, h, down, cl, given);
    assert forall c :: c in world - {cl} <==> c in world && c != cl;
  }

  lemma {:induction false} CycleReachesChanged(g: ClassGraph, h: ClassGraph, cl: OTclClass, x: OTclClass)
    requires NoCycles(g) && SameBut(g, h, cl) && x in h && Above(h, x, x)
    ensures Reaches(h, x, cl)
  {
    if x == cl {
      ReachesSelf(h, x);
    } else {
      var k :| 0 <= k < |h[x]| && Reaches(h, h[x][k], x);
      var n: nat :| Walk(h, h[x][k], x, n);
      WalkThroughChanged(g, h, cl, h[x][k], x, n);
      assert !Above(g, x, x);
      ReachesStep(h, x, k, cl);
    }
  }

  // The search for the order leaves classes black exactly when `cl` was named
  // before another class.
  lemma {:induction false} OrderWhite(g: ClassGraph, h: ClassGraph, down: ClassGraph, cl: OTclClass, given: seq<OTclClass>)
    requires Regiven(g, h, down, cl, given)
    ensures Leftover(h, cl) == [] <==> !NamesItselfEarly(cl, given)
    ensures Reported(Leftover(h, cl), h.Keys, {})
  {
    ReverseMembers(given);
    InOrderDistinct(g, given);
    ReverseIndex(given);
    if cl in given {
      var p :| 0 <= p < |given| && given[p] == cl;
      var k := |given| - 1 - p;
      assert cl !in h[cl][..k];
      IndexOfFirst(h[cl], cl, k);
      LaterOnesFinish(g, h, down, cl, given, k);
      DfsDone(h, h[cl][..k], {cl}, []);
      SortedMembers(h, Leftover(h, cl));
      if k > 0 { assert h[cl][..k][0] in Leftover(h, cl); }
    } else {
      LeftoverNone(h, cl, |h[cl]|);
    }
  }

  lemma {:induction false} SelfEdgeAbove(g: ClassGraph, c: OTclClass)
    requires c in g && c in g[c]
    ensures Above(g, c, c)
  {
    var k :| 0 <= k < |g[c]| && g[c][k] == c;
    ReachesSelf(g, c);
  }

  // The superclass lists determine the subclass lists as sets.
  lemma {:induction false} SubsDetermined(up: ClassGraph, d: ClassGraph, e: ClassGraph)
    requires Linked(up, d) && Linked(up, e)
    ensures forall c, x :: c in up ==> (x in d[c] <==> x in e[c])
  {
    forall c, x | c in up
      ensures x in d[c] <==> x in e[c]
    {
      if x in d[c] { ClosedMember(d, c, x); }
      if x in e[c] { ClosedMember(e, c, x); }
    }
  }

  // The superclasses of an accepted list keep their relative order.
  lemma {:induction false} AcceptedOrder(g: ClassGraph, h: ClassGraph, down: ClassGraph, cl: OTclClass, given: seq<OTclClass>)
    requires Regiven(g, h, down, cl, given) && !ClosesCycle(g, cl, given)
    ensures TopoOrder(h, cl).Some?
    ensures forall i, j :: 0 <= i < j < |given| ==> Before(TopoOrder(h, cl).value, given[i], given[j])
  {
    RegivenAcyclic(g, h, down, cl, given);
    TopoOrderExists(h, cl);
    forall i, j | 0 <= i < j < |given|
      ensures !Reaches(h, given[j], given[i])
    {
      if Reaches(h, given[j], given[i]) {
        var n: nat :| Walk(h, given[j], given[i], n);
        WalkThroughChanged(g, h, cl, given[j], given[i], n);
        ReachesChanged(g, h, cl, given[j]);
      }
    }
    LocalPrecedence(h, cl, given);
  }

  // ---------- adding and removing a class ----------

  ghost predicate Subgraph(k: ClassGraph, g: ClassGraph) {
    forall x :: x in k ==> x in g && forall y :: y in k[x] ==> y in g[x]
  }

  lemma {:induction false} SubgraphWalk(k: ClassGraph, g: ClassGraph, a: OTclClass, b: OTclClass, n: nat)
    requires Subgraph(k, g) && Walk(k, a, b, n)
    ensures Walk(g, a, b, n)
    decreases n
  {
    if n > 0 {
      var i :| 0 <= i < |k[a]| && Walk(k, k[a][i], b, n - 1);
      SubgraphWalk(k, g, k[a][i], b, n - 1);
      assert k[a][i] in k[a];
      var j :| 0 <= j < |g[a]| && g[a][j] == k[a][i];
    }
  }

  lemma {:induction false} WalkAbove(g: ClassGraph, c: OTclClass, n: nat)
    requires n > 0 && Walk(g, c, c, n)
    ensures Above(g, c, c)
  {}

  lemma {:induction false} SubgraphNoCycles(k: ClassGraph, g: ClassGraph)
    requires Subgraph(k, g) && NoCycles(g)
    ensures NoCycles(k)
  {
    forall c | c in k
      ensures !Above(k, c, c)
    {
      if Above(k, c, c) {
        var i :| 0 <= i < |k[c]| && Reaches(k, k[c][i], c);
        var n: nat :| Walk(k, k[c][i], c, n);
        assert Walk(k, c, c, n + 1);
        SubgraphWalk(k, g, c, c, n + 1);
        WalkAbove(g, c, n + 1);
      }
    }
  }

  lemma {:induction false} LinkedGrown(g: ClassGraph, d: ClassGraph, c: OTclClass)
    requires Linked(g, d) && c !in g
    ensures Linked(g[c := []], d[c := []])
  {}

  // The links of a new class `c` whose only superclass is `r`.
  lemma {:induction false} FirstEdge(g: ClassGraph, d: ClassGraph, c: OTclClass, r: OTclClass)
    requires Linked(g, d) && c !in g && r in g
    ensures WithEdge(g[c := []], c, r) == g[c := [r]]
    ensures Linked(g[c := [r]], WithEdge(d[c := []], r, c))
  {
    LinkedGrown(g, d, c);
    EdgeAdded(g[c := []], d[c := []], c, r);
    assert [r] + [] == [r];
  }

  // A new class that nobody inherits from changes no precedence order.
  lemma {:induction false} GrownGraph(g: ClassGraph, h: ClassGraph, c: OTclClass, l: seq<OTclClass>)
    requires Closed(g) && NoCycles(g) && c !in g && h == g[c := l] && AllIn(g, l)
    ensures Closed(h) && NoCycles(h)
    ensures forall x :: x in g ==> TopoOrder(g, x) == TopoOrder(h, x)
  {
    forall x | x in g
      ensures TopoOrder(g, x) == TopoOrder(h, x)
    {
      DfsLocal(g, h, g.Keys, [x], {}, []);
    }
    forall x | x in h
      ensures !Above(h, x, x)
    {
      if Above(h, x, x) {
        var i :| 0 <= i < |h[x]| && Reaches(h, h[x][i], x);
        var n: nat :| Walk(h, h[x][i], x, n);
        GrownWalk(g, h, c, h[x][i], x, n);
        ReachesInGraph(g, h[x][i], x, n);
      }
    }
  }

  lemma {:induction false} GrownWalk(g: ClassGraph, h: ClassGraph, c: OTclClass, a: OTclClass, b: OTclClass, n: nat)
    requires Closed(g) && c !in g && c in h && h == g[c := h[c]] && a in g && Walk(h, a, b, n)
    ensures Walk(g, a, b, n)
    decreases n
  {
    if n > 0 {
      var i :| 0 <= i < |h[a]| && Walk(h, h[a][i], b, n - 1);
      GrownWalk(g, h, c, h[a][i], b, n - 1);
    }
  }

  // `k` and `e` are `g` and `d` with every mention of `cl` removed.
  ghost predicate Without(g: ClassGraph, k: ClassGraph, cl: OTclClass) {
    && k.Keys == g.Keys - {cl}
    && forall c :: c in k ==> k[c] == RemoveFirst(g[c], cl)
  }

  // A class linked to nothing can be dropped.
  lemma {:induction false} LinkedShrunk(up: ClassGraph, down: ClassGraph, cl: OTclClass)
    requires Linked(up, down) && cl in up && up[cl] == [] && down[cl] == []
    ensures Linked(up - {cl}, down - {cl})
    ensures forall c :: c in up ==> cl !in up[c] && cl !in down[c]
  {}

  lemma {:induction false} WithoutSubgraph(g: ClassGraph, k: ClassGraph, cl: OTclClass)
    requires Without(g, k, cl) && forall c :: c in g ==> Distinct(g[c])
    ensures Subgraph(k, g)
  {
    forall c | c in k
      ensures forall y :: y in k[c] ==> y in g[c]
    {
      RemoveFirstIs(g[c], cl);
    }
  }

  lemma {:induction false} RemovedClass(g: ClassGraph, k: ClassGraph, cl: OTclClass, c: OTclClass)
    requires Closed(g) && cl in g && Closed(k) && Without(g, k, cl) && c in g && !Reaches(g, c, cl)
    ensures c in k && TopoOrder(g, c) == TopoOrder(k, c)
  {
    var part := set y | y in g && !Reaches(g, y, cl);
    ReachesSelf(g, cl);
    forall y, i | y in part && 0 <= i < |g[y]|
      ensures g[y][i] in part
    {
      if Reaches(g, g[y][i], cl) { ReachesStep(g, y, i, cl); }
    }
    forall y | y in part
      ensures g[y] == k[y]
    {
      assert forall i :: 0 <= i < |g[y]| ==> g[y][i] in part;
      RemoveAbsent(g[y], cl);
    }
    DfsLocal(g, k, part, [c], {}, []);
  }

  // `cl` is being removed from the superclass lists of its subclasses.
  ghost predicate Dropping(g: ClassGraph, up: ClassGraph, down: ClassGraph, cl: OTclClass) {
    && Linked(up, down) && up.Keys == g.Keys && cl in g && up[cl] == g[cl] == []
    && (forall c :: c in g ==> Distinct(g[c]) && (up[c] == g[c] || up[c] == RemoveFirst(g[c], cl)))
  }

  lemma {:induction false} DropStep(g: ClassGraph, up: ClassGraph, down: ClassGraph, cl: OTclClass)
    requires Dropping(g, up, down, cl) && down[cl] != []
    ensures down[cl][0] in up && Dropping(g, WithoutEdge(up, down[cl][0], cl), WithoutEdge(down, cl, down[cl][0]), cl)
  {
    var sc := down[cl][0];
    ClosedMember(down, cl, sc);
    assert cl in up[sc];
    RemoveFirstIs(g[sc], cl);
    EdgeRemoved(up, down, sc, cl);
  }

  lemma {:induction false} DropEnd(g: ClassGraph, up: ClassGraph, down: ClassGraph, cl: OTclClass)
    requires Dropping(g, up, down, cl) && down[cl] == []
    ensures Linked(up - {cl}, down - {cl}) && Without(g, up - {cl}, cl)
    ensures forall c :: c in up ==> cl !in up[c] && cl !in down[c]
  {
    LinkedShrunk(up, down, cl);
    forall c | c in g
      ensures up[c] == RemoveFirst(g[c], cl)
    {
      RemoveFirstIs(g[c], cl);
      if up[c] == g[c] { RemoveAbsent(g[c], cl); }
    }
  }

  // Once `cl` is flushed and unlinked, the remaining caches are right for the
  // remaining classes.
  lemma {:induction false} CachesWithout(g: ClassGraph, d: ClassGraph, k: ClassGraph, cl: OTclClass)
    requires Linked(g, d) && NoCycles(g) && cl in g && Closed(k)
    requires k.Keys == g.Keys - {cl} && forall c :: c in k ==> k[c] == RemoveFirst(g[c], cl)
    ensures NoCycles(k) && cl in Flushed(d, cl)
    ensures forall c :: c in k && c !in Flushed(d, cl) ==> TopoOrder(g, c) == TopoOrder(k, c)
  {
    WithoutSubgraph(g, k, cl);
    SubgraphNoCycles(k, g);
    NoCyclesDown(g, d);
    TopoOrderCorrect(d, cl);
    ReachesSelf(d, cl);
    forall c | c in k && c !in Flushed(d, cl)
      ensures TopoOrder(g, c) == TopoOrder(k, c)
    {
      ReachesInverse(g, d, c, cl);
      RemovedClass(g, k, cl, c);
    }
  }

  // What the flush before a destruction leaves in the caches.
  ghost predicate FlushedCaches(world: set<OTclClass>, g: ClassGraph, d: ClassGraph, cl: OTclClass)
    requires Closed(g) && Closed(d) && g.Keys == d.Keys == world && cl in g
    reads world`order
  {
    forall c :: c in world ==> c.order == [] || (c !in Flushed(d, cl) && TopoOrder(g, c) == Some(c.order))
  }

  lemma {:induction false} CoherentWithout(world: set<OTclClass>, g: ClassGraph, d: ClassGraph, k: ClassGraph, cl: OTclClass)
    requires Linked(g, d) && NoCycles(g) && cl in g && g.Keys == world && Closed(k) && Without(g, k, cl)
    requires FlushedCaches(world, g, d, cl)
    ensures NoCycles(k) && Coherent(world - {cl}, k)
    ensures forall c :: c in world - {cl} ==> cl !in c.order
  {
    CachesWithout(g, d, k, cl);
    forall c | c in world - {cl} && c.order != []
      ensures cl !in c.order
    {
      CacheInside(k, c, c.order);
    }
  }

  // A cached order holds only classes of the hierarchy.
  lemma {:induction false} CacheInside(k: ClassGraph, c: OTclClass, o: seq<OTclClass>)
    requires Closed(k) && c in k && TopoOrder(k, c) == Some(o)
    ensures Reported(o, k.Keys, {})
  {
    TopoOrderCorrect(k, c);
    SortedMembers(k, o);
  }

  // ---------- replacing a superclass list ----------

  // `osl` has been taken off the front of the superclasses of `cl`, latest first.
  ghost predicate Taking(g: ClassGraph, d: ClassGraph, up: ClassGraph, down: ClassGraph, cl: OTclClass, osl: seq<OTclClass>) {
    && Linked(up, down) && cl in g && cl in d && cl in up && g.Keys == up.Keys
    && g[cl] == Reverse(osl) + up[cl] && up == g[cl := up[cl]]
    && (cl !in d[cl] ==> down[cl] == d[cl])
  }

  lemma {:induction false} TakeStart(up: ClassGraph, down: ClassGraph, cl: OTclClass)
    requires Linked(up, down) && cl in up && cl in down
    ensures Taking(up, down, up, down, cl, [])
  {}

  lemma {:induction false} TakeEnds(g: ClassGraph, d: ClassGraph, up: ClassGraph, down: ClassGraph, cl: OTclClass, osl: seq<OTclClass>)
    requires Taking(g, d, up, down, cl, osl) && up[cl] == []
    ensures Linked(up, down) && cl in g && cl in d && osl == Reverse(g[cl]) && up == g[cl := []]
    ensures cl !in d[cl] ==> down[cl] == d[cl]
  {}

  lemma {:induction false} TakeStep(g: ClassGraph, d: ClassGraph, up: ClassGraph, down: ClassGraph, cl: OTclClass, osl: seq<OTclClass>)
    requires osl != [] && cl in up && up[cl] != [] && up[cl][0] == osl[0]
    requires Taking(g, d, up, down, cl, osl[1..])
    ensures osl[0] in up && Taking(g, d, WithoutEdge(up, cl, osl[0]), WithoutEdge(down, osl[0], cl), cl, osl)
  {
    hide Linked;
    LinkedMember(up, down, cl, osl[0]);
    EdgeRemoved(up, down, cl, osl[0]);
    assert Reverse(osl) == Reverse(osl[1..]) + [osl[0]];
    if cl !in d[cl] { RemoveAbsent(down[cl], cl); }
  }

  // `given` has been put in front of the superclasses of `cl`, one by one.
  ghost predicate Giving(g: ClassGraph, d: ClassGraph, up: ClassGraph, down: ClassGraph, cl: OTclClass, given: seq<OTclClass>) {
    && Linked(up, down) && cl in g && cl in d && cl in down && g.Keys == up.Keys
    && up == g[cl := Reverse(given)]
    && (cl !in d[cl] ==> down[cl] == if cl in given then [cl] + d[cl] else d[cl])
  }

  lemma {:induction false} GiveStep(g: ClassGraph, d: ClassGraph, up: ClassGraph, down: ClassGraph, cl: OTclClass, given: seq<OTclClass>, i: nat)
    requires i < |given| && Distinct(given) && given[i] in up
    requires Giving(g, d, up, down, cl, given[..i])
    ensures Giving(g, d, WithEdge(up, cl, given[i]), WithEdge(down, given[i], cl), cl, given[..i + 1])
  {
    hide Linked;
    assert given[..i + 1] == given[..i] + [given[i]];
    ReverseMembers(given[..i]);
    EdgeAdded(up, down, cl, given[i]);
    assert Reverse(given[..i + 1]) == [given[i]] + Reverse(given[..i]);
  }

  lemma {:induction false} KeysAgree(up: ClassGraph, down: ClassGraph)
    requires Linked(up, down)
    ensures up.Keys == down.Keys && Closed(up)
  {}

  lemma {:induction false} AllDistinct(up: ClassGraph, down: ClassGraph)
    requires Linked(up, down)
    ensures forall c :: c in up ==> Distinct(up[c])
  {}

  ghost function OnlySuper(root: OTclClass?): seq<OTclClass> {
    if root == null then []
    else
      var r: OTclClass := root;
      [r]
  }

}
