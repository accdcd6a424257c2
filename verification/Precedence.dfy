// The specification side of OTcl's precedence ordering (otcl.c, TopoSort).
//
// A class graph maps each class to its list of neighbours: its superclasses
// when a precedence is computed, its subclasses when dependents are computed.
// `Dfs` is the depth-first search written on values; `Reaches` is the meaning
// it is measured against.
module Precedence {
  import opened Wrappers

  ghost predicate Closed<T>(g: map<T, seq<T>>) {
    forall c, k :: c in g && 0 <= k < |g[c]| ==> g[c][k] in g
  }

  ghost predicate AllIn<T>(g: map<T, seq<T>>, cs: seq<T>) {
    forall k :: 0 <= k < |cs| ==> cs[k] in g
  }

  // Visits the classes `cs` in order. `gray` is the set of classes whose visit
  // is under way and `order` the finished ones, latest first. The result is
  // the extended order, or None when a class under way is met again.
  ghost function Dfs<T>(g: map<T, seq<T>>, cs: seq<T>, gray: set<T>, order: seq<T>): Option<seq<T>>
    requires Closed(g) && AllIn(g, cs)
    decreases g.Keys - gray, |cs|
  {
    if cs == [] then Some(order)
    else if cs[0] in gray then None
    else if cs[0] in order then Dfs(g, cs[1..], gray, order)
    else
      assert g.Keys - (gray + {cs[0]}) < g.Keys - gray by {
        assert cs[0] in g.Keys - gray;
      }
      match Dfs(g, g[cs[0]], gray + {cs[0]}, order)
      case None => None
      case Some(o) => Dfs(g, cs[1..], gray, [cs[0]] + o)
  }

  // The precedence order of `c`: a fresh run of the search from `c`.
  ghost function TopoOrder<T>(g: map<T, seq<T>>, c: T): Option<seq<T>>
    requires Closed(g) && c in g
  {
    Dfs(g, [c], {}, [])
  }

  lemma {:induction false} TopoOrderUnfold<T>(g: map<T, seq<T>>, c: T)
    requires Closed(g) && c in g
    ensures TopoOrder(g, c)
         == match Dfs(g, g[c], {c}, []) case None => None case Some(o) => Some([c] + o)
  {
    assert {} + {c} == {c};
    match Dfs(g, g[c], {c}, [])
    case None =>
    case Some(o) => assert Dfs(g, [c][1..], {}, [c] + o) == Some([c] + o);
  }

  // ---------- reachability ----------

  ghost predicate Walk<T>(g: map<T, seq<T>>, a: T, b: T, n: nat)
    decreases n
  {
    if n == 0 then a == b
    else a in g && exists k :: 0 <= k < |g[a]| && Walk(g, g[a][k], b, n - 1)
  }

  // `a` inherits, directly or not, from `b` (or is `b`).
  ghost predicate Reaches<T>(g: map<T, seq<T>>, a: T, b: T) {
    exists n: nat :: Walk(g, a, b, n)
  }

  // `a` reaches `b` by at least one edge.
  ghost predicate Above<T>(g: map<T, seq<T>>, a: T, b: T) {
    a in g && exists k :: 0 <= k < |g[a]| && Reaches(g, g[a][k], b)
  }

  // No cycle can be reached from `c`.
  ghost predicate AcyclicFrom<T>(g: map<T, seq<T>>, c: T) {
    forall x :: x in g && Reaches(g, c, x) ==> !Above(g, x, x)
  }

  ghost predicate Distinct<T>(o: seq<T>) {
    forall i, j :: 0 <= i < j < |o| ==> o[i] != o[j]
  }

  // `x` stands in `o` somewhere after position `i`.
  ghost predicate Later<T>(o: seq<T>, i: int, x: T) {
    exists j :: i < j < |o| && 0 <= j && o[j] == x
  }

  ghost predicate BeforeNeighbours<T>(g: map<T, seq<T>>, o: seq<T>, i: nat)
    requires i < |o|
  {
    o[i] in g && forall k :: 0 <= k < |g[o[i]]| ==> Later(o, i, g[o[i]][k])
  }

  // A duplicate-free list in which every class comes before all its neighbours.
  ghost predicate Sorted<T>(g: map<T, seq<T>>, o: seq<T>) {
    Distinct(o) && forall i :: 0 <= i < |o| ==> BeforeNeighbours(g, o, i)
  }

  lemma {:induction false} ReachesSelf<T>(g: map<T, seq<T>>, a: T)
    ensures Reaches(g, a, a)
  {
    assert Walk(g, a, a, 0);
  }

  lemma {:induction false} ReachesStep<T>(g: map<T, seq<T>>, a: T, k: nat, b: T)
    requires a in g && k < |g[a]| && Reaches(g, g[a][k], b)
    ensures Reaches(g, a, b) && Above(g, a, b)
  {
    var n: nat :| Walk(g, g[a][k], b, n);
    assert Walk(g, a, b, n + 1);
  }

  lemma {:induction false} WalkTrans<T>(g: map<T, seq<T>>, a: T, b: T, c: T, n: nat)
    requires Walk(g, a, b, n) && Reaches(g, b, c)
    ensures Reaches(g, a, c)
    ensures n > 0 ==> Above(g, a, c)
    decreases n
  {
    if n > 0 {
      var k :| 0 <= k < |g[a]| && Walk(g, g[a][k], b, n - 1);
      WalkTrans(g, g[a][k], b, c, n - 1);
      ReachesStep(g, a, k, c);
    }
  }

  lemma {:induction false} ReachesTrans<T>(g: map<T, seq<T>>, a: T, b: T, c: T)
    requires Reaches(g, a, b) && Reaches(g, b, c)
    ensures Reaches(g, a, c)
  {
    var n: nat :| Walk(g, a, b, n);
    WalkTrans(g, a, b, c, n);
  }

  lemma {:induction false} AboveTrans<T>(g: map<T, seq<T>>, a: T, b: T, c: T)
    requires Above(g, a, b) && Reaches(g, b, c)
    ensures Above(g, a, c)
  {
    var k :| 0 <= k < |g[a]| && Reaches(g, g[a][k], b);
    ReachesTrans(g, g[a][k], b, c);
  }

  lemma {:induction false} ReachesInGraph<T>(g: map<T, seq<T>>, a: T, b: T, n: nat)
    requires Closed(g) && a in g && Walk(g, a, b, n)
    ensures b in g
    decreases n
  {
    if n > 0 {
      var k :| 0 <= k < |g[a]| && Walk(g, g[a][k], b, n - 1);
      ReachesInGraph(g, g[a][k], b, n - 1);
    }
  }

  // In a sorted list, whatever a member reaches is a member further right.
  lemma {:induction false} SortedWalk<T>(g: map<T, seq<T>>, o: seq<T>, i: nat, b: T, n: nat) returns (j: nat)
    requires Sorted(g, o) && i < |o| && Walk(g, o[i], b, n)
    ensures i <= j < |o| && o[j] == b
    ensures n > 0 ==> i < j
    decreases n
  {
    if n == 0 {
      j := i;
    } else {
      var k :| 0 <= k < |g[o[i]]| && Walk(g, g[o[i]][k], b, n - 1);
      assert BeforeNeighbours(g, o, i);
      var m :| i < m < |o| && o[m] == g[o[i]][k];
      j := SortedWalk(g, o, m, b, n - 1);
    }
  }

  lemma {:induction false} SortedReaches<T>(g: map<T, seq<T>>, o: seq<T>, a: T, b: T)
    requires Sorted(g, o) && a in o && Reaches(g, a, b)
    ensures b in o
  {
    var i :| 0 <= i < |o| && o[i] == a;
    var n: nat :| Walk(g, a, b, n);
    var j := SortedWalk(g, o, i, b, n);
  }

  // A sorted list holds no class on a cycle.
  lemma {:induction false} SortedAcyclic<T>(g: map<T, seq<T>>, o: seq<T>, a: T)
    requires Sorted(g, o) && a in o
    ensures !Above(g, a, a)
  {
    if Above(g, a, a) {
      var i :| 0 <= i < |o| && o[i] == a;
      var k :| 0 <= k < |g[a]| && Reaches(g, g[a][k], a);
      var n: nat :| Walk(g, g[a][k], a, n);
      assert Walk(g, a, a, n + 1);
      var j := SortedWalk(g, o, i, a, n + 1);
    }
  }

  // ---------- what a search does ----------

  lemma {:induction false} DfsAppend<T>(g: map<T, seq<T>>, cs: seq<T>, ds: seq<T>, gray: set<T>, order: seq<T>)
    requires Closed(g) && AllIn(g, cs) && AllIn(g, ds)
    ensures AllIn(g, cs + ds)
    ensures Dfs(g, cs + ds, gray, order)
         == match Dfs(g, cs, gray, order) case None => None case Some(o) => Dfs(g, ds, gray, o)
    decreases |cs|
  {
    if cs == [] {
      assert cs + ds == ds;
    } else {
      assert (cs + ds)[1..] == cs[1..] + ds;
      if cs[0] !in gray {
        if cs[0] in order {
          DfsAppend(g, cs[1..], ds, gray, order);
        } else {
          match Dfs(g, g[cs[0]], gray + {cs[0]}, order)
          case None =>
          case Some(o) => DfsAppend(g, cs[1..], ds, gray, [cs[0]] + o);
        }
      }
    }
  }

  ghost predicate IsSuffix<T>(a: seq<T>, b: seq<T>) {
    |a| <= |b| && b[|b| - |a|..] == a
  }

  lemma {:induction false} SuffixHas<T>(a: seq<T>, b: seq<T>, x: T)
    requires IsSuffix(a, b) && x in a
    ensures x in b
  {}

  // What a finished search from `cs` promises of its result `o`.
  ghost predicate Extends<T>(g: map<T, seq<T>>, cs: seq<T>, gray: set<T>, order: seq<T>, o: seq<T>) {
    && Sorted(g, o) && IsSuffix(order, o)
    && (forall x :: x in o ==> x !in gray)
    && (forall k :: 0 <= k < |cs| ==> cs[k] in o)
    && (forall x :: x in o ==> x in order || ReachedFrom(g, cs, x))
  }

  ghost predicate ReachedFrom<T>(g: map<T, seq<T>>, cs: seq<T>, x: T) {
    exists k :: 0 <= k < |cs| && Reaches(g, cs[k], x)
  }

  // A finished search keeps the order sorted, only adds in front, and adds
  // exactly classes that the visited ones reach.
  lemma {:induction false} DfsDone<T>(g: map<T, seq<T>>, cs: seq<T>, gray: set<T>, order: seq<T>)
    requires Closed(g) && AllIn(g, cs) && Sorted(g, order)
    requires forall x :: x in order ==> x !in gray
    requires Dfs(g, cs, gray, order).Some?
    ensures Extends(g, cs, gray, order, Dfs(g, cs, gray, order).value)
    decreases g.Keys - gray, |cs|
  {
    if cs != [] {
      var c, rest := cs[0], cs[1..];
      if c in order {
        DfsDone(g, rest, gray, order);
        SuffixHas(order, Dfs(g, cs, gray, order).value, c);
        ExtendsBoth(g, cs, gray, order, order, Dfs(g, cs, gray, order).value);
      } else {
        assert c in g.Keys - gray;
        DfsDone(g, g[c], gray + {c}, order);
        var o := Dfs(g, g[c], gray + {c}, order).value;
        ExtendsHead(g, c, gray, order, o);
        DfsDone(g, rest, gray, [c] + o);
        ExtendsBoth(g, cs, gray, order, [c] + o, Dfs(g, cs, gray, order).value);
      }
    }
  }

  lemma {:induction false} ExtendsHead<T>(g: map<T, seq<T>>, c: T, gray: set<T>, order: seq<T>, o: seq<T>)
    requires c in g && c !in gray && Extends(g, g[c], gray + {c}, order, o)
    ensures Sorted(g, [c] + o) && IsSuffix(order, [c] + o)
    ensures forall x :: x in [c] + o ==> x !in gray && (x in order || Reaches(g, c, x))
  {
    ExtendSorted(g, c, o);
    var mid := [c] + o;
    assert mid[|mid| - |order|..] == o[|o| - |order|..];
    forall x | x in mid
      ensures x !in gray && (x in order || Reaches(g, c, x))
    {
      if x == c {
        ReachesSelf(g, c);
      } else if x !in order {
        assert x in o;
        var k :| 0 <= k < |g[c]| && Reaches(g, g[c][k], x);
        ReachesStep(g, c, k, x);
      }
    }
  }

  lemma {:induction false} ExtendsBoth<T>(g: map<T, seq<T>>, cs: seq<T>, gray: set<T>, order: seq<T>, mid: seq<T>, o: seq<T>)
    requires cs != [] && cs[0] in mid && IsSuffix(order, mid)
    requires forall x :: x in mid ==> x in order || Reaches(g, cs[0], x)
    requires Extends(g, cs[1..], gray, mid, o)
    ensures Extends(g, cs, gray, order, o)
  {}

  lemma {:induction false} ExtendSorted<T>(g: map<T, seq<T>>, c: T, o: seq<T>)
    requires Sorted(g, o) && c in g && c !in o
    requires forall k :: 0 <= k < |g[c]| ==> g[c][k] in o
    ensures Sorted(g, [c] + o)
  {
    var m := [c] + o;
    forall i | 0 <= i < |m|
      ensures BeforeNeighbours(g, m, i)
    {
      if i > 0 { assert BeforeNeighbours(g, o, i - 1); }
      forall k | 0 <= k < |g[m[i]]|
        ensures Later(m, i, g[m[i]][k])
      {
        if i == 0 {
          var j :| 0 <= j < |o| && o[j] == g[c][k];
          assert m[j + 1] == g[c][k];
        } else {
          assert Later(o, i - 1, g[o[i - 1]][k]);
          var j :| i - 1 < j < |o| && o[j] == g[o[i - 1]][k];
          assert m[j + 1] == g[m[i]][k];
        }
      }
    }
  }

  // A search that gives up has found a cycle below one of the visited classes.
  lemma {:induction false} DfsStuck<T>(g: map<T, seq<T>>, cs: seq<T>, gray: set<T>, order: seq<T>) returns (k: nat, x: T)
    requires Closed(g) && AllIn(g, cs)
    requires forall y, i :: y in gray && 0 <= i < |cs| ==> Above(g, y, cs[i])
    requires Dfs(g, cs, gray, order).None?
    ensures k < |cs| && x in g && Reaches(g, cs[k], x) && Above(g, x, x)
    decreases g.Keys - gray, |cs|
  {
    var c, rest := cs[0], cs[1..];
    if c in gray {
      ReachesSelf(g, c);
      k, x := 0, c;
    } else if c in order {
      k, x := DfsStuck(g, rest, gray, order);
      k := k + 1;
    } else if Dfs(g, g[c], gray + {c}, order).None? {
      assert c in g.Keys - gray;
      forall y, i | y in gray + {c} && 0 <= i < |g[c]|
        ensures Above(g, y, g[c][i])
      {
        ReachesSelf(g, g[c][i]);
        ReachesStep(g, c, i, g[c][i]);
        if y in gray {
          assert Above(g, y, cs[0]);
          AboveTrans(g, y, c, g[c][i]);
        }
      }
      var i;
      i, x := DfsStuck(g, g[c], gray + {c}, order);
      ReachesStep(g, c, i, x);
      k := 0;
    } else {
      k, x := DfsStuck(g, rest, gray, [c] + Dfs(g, g[c], gray + {c}, order).value);
      k := k + 1;
    }
  }

  // TopoSort correctness: it succeeds exactly when no cycle is reachable, and
  // then lists exactly the reachable classes, once each, the start first and
  // every class before its neighbours.
  lemma {:induction false} TopoOrderCorrect<T>(g: map<T, seq<T>>, c: T)
    requires Closed(g) && c in g
    ensures TopoOrder(g, c).Some? <==> AcyclicFrom(g, c)
    ensures TopoOrder(g, c).Some? ==>
      var o := TopoOrder(g, c).value;
      && Sorted(g, o) && o != [] && o[0] == c
      && (forall x :: x in o <==> Reaches(g, c, x))
  {
    if TopoOrder(g, c).Some? {
      var o := TopoOrder(g, c).value;
      DfsDone(g, [c], {}, []);
      forall x
        ensures x in o <==> Reaches(g, c, x)
      {
        if Reaches(g, c, x) {
          assert [c][0] in o;
          SortedReaches(g, o, c, x);
        }
      }
      forall x | x in g && Reaches(g, c, x)
        ensures !Above(g, x, x)
      {
        SortedAcyclic(g, o, x);
      }
    } else {
      var k, x := DfsStuck(g, [c], {}, []);
    }
  }

  lemma {:induction false} TopoOrderExists<T>(g: map<T, seq<T>>, c: T)
    requires Closed(g) && c in g
    ensures TopoOrder(g, c).Some? <==> AcyclicFrom(g, c)
  {
    TopoOrderCorrect(g, c);
  }

  // The order depends only on the neighbour lists of a closed part of the graph.
  lemma {:induction false} DfsLocal<T>(g: map<T, seq<T>>, h: map<T, seq<T>>, part: set<T>, cs: seq<T>, gray: set<T>, order: seq<T>)
    requires Closed(g) && Closed(h) && AllIn(g, cs)
    requires part <= g.Keys && part <= h.Keys
    requires forall x :: x in part ==> g[x] == h[x]
    requires forall x, k :: x in part && 0 <= k < |g[x]| ==> g[x][k] in part
    requires forall k :: 0 <= k < |cs| ==> cs[k] in part
    ensures AllIn(h, cs) && Dfs(g, cs, gray, order) == Dfs(h, cs, gray, order)
    decreases g.Keys - gray, |cs|
  {
    if cs != [] && cs[0] !in gray {
      var c := cs[0];
      if c in order {
        DfsLocal(g, h, part, cs[1..], gray, order);
      } else {
        assert c in g.Keys - gray;
        DfsLocal(g, h, part, g[c], gray + {c}, order);
        match Dfs(g, g[c], gray + {c}, order)
        case None =>
        case Some(o) => DfsLocal(g, h, part, cs[1..], gray, [c] + o);
      }
    }
  }

  // ---------- the order in which superclasses were given ----------

  ghost predicate Before<T>(o: seq<T>, a: T, b: T) {
    exists i, j :: 0 <= i < j < |o| && o[i] == a && o[j] == b
  }

  lemma {:induction false} InFrontOfSuffix<T>(a: seq<T>, o: seq<T>, x: T, y: T)
    requires IsSuffix(a, o) && x in o && x !in a && y in a
    ensures Before(o, x, y)
  {}

  // If no visited class reaches one visited after it, later visits end up
  // further left.
  lemma {:induction false} DfsReversesVisits<T>(g: map<T, seq<T>>, cs: seq<T>, gray: set<T>, order: seq<T>)
    requires Closed(g) && AllIn(g, cs) && Sorted(g, order)
    requires forall x :: x in order ==> x !in gray
    requires Dfs(g, cs, gray, order).Some?
    requires forall i, j :: 0 <= i < j < |cs| ==> !Reaches(g, cs[i], cs[j])
    requires forall j :: 0 <= j < |cs| ==> cs[j] !in order
    ensures forall i, j :: 0 <= i < j < |cs| ==> Before(Dfs(g, cs, gray, order).value, cs[j], cs[i])
    decreases |cs|
  {
    if cs != [] {
      var c, rest := cs[0], cs[1..];
      assert c in g.Keys - gray;
      var o := Dfs(g, g[c], gray + {c}, order).value;
      DfsDone(g, g[c], gray + {c}, order);
      ExtendsHead(g, c, gray, order, o);
      var mid := [c] + o;
      forall j | 0 <= j < |rest|
        ensures rest[j] !in mid
      {
        assert rest[j] == cs[j + 1];
      }
      forall i, j | 0 <= i < j < |rest|
        ensures !Reaches(g, rest[i], rest[j])
      {
        assert rest[i] == cs[i + 1] && rest[j] == cs[j + 1];
      }
      DfsReversesVisits(g, rest, gray, mid);
      DfsDone(g, rest, gray, mid);
      var out := Dfs(g, cs, gray, order).value;
      forall i, j | 0 <= i < j < |cs|
        ensures Before(out, cs[j], cs[i])
      {
        assert cs[j] == rest[j - 1];
        if i == 0 {
          InFrontOfSuffix(mid, out, cs[j], c);
        } else {
          assert cs[i] == rest[i - 1];
        }
      }
    }
  }

  ghost function Reverse<T>(s: seq<T>): (r: seq<T>)
    ensures |r| == |s| && forall i :: 0 <= i < |s| ==> r[i] == s[|s| - 1 - i]
  {
    seq(|s|, i requires 0 <= i < |s| => s[|s| - 1 - i])
  }

  // Local precedence order: the superclasses given as s0..sn keep that order
  // in the precedence of the class they were given to.
  lemma {:induction false} LocalPrecedence<T>(g: map<T, seq<T>>, c: T, given: seq<T>)
    requires Closed(g) && c in g && g[c] == Reverse(given) && AcyclicFrom(g, c)
    requires forall i, j :: 0 <= i < j < |given| ==> !Reaches(g, given[j], given[i])
    ensures TopoOrder(g, c).Some?
    ensures forall i, j :: 0 <= i < j < |given| ==> Before(TopoOrder(g, c).value, given[i], given[j])
  {
    TopoOrderCorrect(g, c);
    var out := TopoOrder(g, c).value;
    var inner := Dfs(g, g[c], {c}, []);
    TopoOrderUnfold(g, c);
    DfsReversesVisits(g, g[c], {c}, []);
    forall i, j | 0 <= i < j < |given|
      ensures Before(out, given[i], given[j])
    {
      var n := |given| - 1;
      assert given[i] == g[c][n - i] && given[j] == g[c][n - j];
      var p, q :| 0 <= p < q < |inner.value| && inner.value[p] == given[i] && inner.value[q] == given[j];
      assert out[p + 1] == given[i] && out[q + 1] == given[j];
    }
  }

  // ---------- changing the superclasses of one class ----------

  // `h` is `g` except for the list of class `c`.
  ghost predicate SameBut<T>(g: map<T, seq<T>>, h: map<T, seq<T>>, c: T) {
    c in g && g.Keys == h.Keys && forall x :: x in g && x != c ==> g[x] == h[x]
  }

  // Reaching `c` does not depend on the list of `c`.
  lemma {:induction false} WalkToChanged<T>(g: map<T, seq<T>>, h: map<T, seq<T>>, c: T, x: T, n: nat)
    requires SameBut(g, h, c) && Walk(g, x, c, n)
    ensures Reaches(h, x, c)
    decreases n
  {
    if x == c {
      ReachesSelf(h, c);
    } else {
      var k :| 0 <= k < |g[x]| && Walk(g, g[x][k], c, n - 1);
      WalkToChanged(g, h, c, g[x][k], n - 1);
      ReachesStep(h, x, k, c);
    }
  }

  lemma {:induction false} ReachesChanged<T>(g: map<T, seq<T>>, h: map<T, seq<T>>, c: T, x: T)
    requires SameBut(g, h, c)
    ensures Reaches(g, x, c) <==> Reaches(h, x, c)
  {
    if Reaches(g, x, c) {
      var n: nat :| Walk(g, x, c, n);
      WalkToChanged(g, h, c, x, n);
    }
    if Reaches(h, x, c) {
      var n: nat :| Walk(h, x, c, n);
      WalkToChanged(h, g, c, x, n);
    }
  }

  lemma {:induction false} WalkThroughChanged<T>(g: map<T, seq<T>>, h: map<T, seq<T>>, c: T, a: T, b: T, n: nat)
    requires SameBut(g, h, c) && Walk(h, a, b, n)
    ensures Reaches(g, a, b) || (Reaches(h, a, c) && Reaches(h, c, b))
    decreases n
  {
    if n == 0 {
      ReachesSelf(g, a);
    } else if a == c {
      ReachesSelf(h, a);
      assert Reaches(h, c, b);
    } else {
      var k :| 0 <= k < |h[a]| && Walk(h, h[a][k], b, n - 1);
      WalkThroughChanged(g, h, c, h[a][k], b, n - 1);
      if Reaches(g, h[a][k], b) {
        ReachesStep(g, a, k, b);
      } else {
        ReachesStep(h, a, k, c);
      }
    }
  }

  // A change that leaves no cycle below `c` leaves no cycle anywhere.
  lemma {:induction false} AcyclicAfterChange<T>(g: map<T, seq<T>>, h: map<T, seq<T>>, c: T)
    requires Closed(g) && Closed(h) && SameBut(g, h, c)
    requires forall x :: x in g ==> !Above(g, x, x)
    requires AcyclicFrom(h, c)
    ensures forall x :: x in h ==> !Above(h, x, x)
  {
    ReachesSelf(h, c);
    forall x | x in h
      ensures !Above(h, x, x)
    {
      if Above(h, x, x) && x != c {
        var k :| 0 <= k < |h[x]| && Reaches(h, h[x][k], x);
        var n: nat :| Walk(h, h[x][k], x, n);
        WalkThroughChanged(g, h, c, h[x][k], x, n);
      }
    }
  }

  // Classes that do not reach `c` keep their precedence order.
  lemma {:induction false} OrderUnaffected<T>(g: map<T, seq<T>>, h: map<T, seq<T>>, c: T, x: T)
    requires Closed(g) && Closed(h) && SameBut(g, h, c) && x in g
    requires !Reaches(g, x, c)
    ensures TopoOrder(g, x) == TopoOrder(h, x)
  {
    var part := set y | y in g && !Reaches(g, y, c);
    ReachesSelf(g, c);
    forall y, k | y in part && 0 <= k < |g[y]|
      ensures g[y][k] in part
    {
      if Reaches(g, g[y][k], c) { ReachesStep(g, y, k, c); }
    }
    DfsLocal(g, h, part, [x], {}, []);
  }

  // New superclasses close a cycle exactly when one of them inherits from the class.
  lemma {:induction false} CycleExactlyWhen<T>(g: map<T, seq<T>>, h: map<T, seq<T>>, c: T)
    requires Closed(g) && Closed(h) && SameBut(g, h, c)
    requires forall x :: x in g ==> !Above(g, x, x)
    ensures AcyclicFrom(h, c) <==> forall k :: 0 <= k < |h[c]| ==> !Reaches(g, h[c][k], c)
  {
    if AcyclicFrom(h, c) {
      ReachesSelf(h, c);
      forall k | 0 <= k < |h[c]|
        ensures !Reaches(g, h[c][k], c)
      {
        ReachesChanged(g, h, c, h[c][k]);
      }
    }
    if forall k :: 0 <= k < |h[c]| ==> !Reaches(g, h[c][k], c) {
      forall k | 0 <= k < |h[c]|
        ensures !Reaches(h, h[c][k], c)
      {
        ReachesChanged(g, h, c, h[c][k]);
      }
      forall x | x in h && Reaches(h, c, x)
        ensures !Above(h, x, x)
      {
        if Above(h, x, x) { NoCycleBelow(g, h, c, x); }
      }
    }
  }

  lemma {:induction false} NoCycleBelow<T>(g: map<T, seq<T>>, h: map<T, seq<T>>, c: T, x: T)
    requires SameBut(g, h, c) && x in h && Reaches(h, c, x) && Above(h, x, x)
    requires !Above(g, x, x)
    ensures Above(h, c, c)
  {
    if x != c {
      var k :| 0 <= k < |h[x]| && Reaches(h, h[x][k], x);
      var n: nat :| Walk(h, h[x][k], x, n);
      WalkThroughChanged(g, h, c, h[x][k], x, n);
      assert Reaches(h, h[x][k], c);
      ReachesStep(h, x, k, c);
      var m: nat :| Walk(h, c, x, m);
      WalkTrans(h, c, x, c, m);
    }
  }

  // ---------- superclass and subclass graphs ----------

  ghost predicate Inverse<T>(up: map<T, seq<T>>, down: map<T, seq<T>>) {
    && up.Keys == down.Keys
    && forall a, b :: a in up && b in up ==> (b in up[a] <==> a in down[b])
  }

  lemma {:induction false} WalkInverse<T>(up: map<T, seq<T>>, down: map<T, seq<T>>, a: T, b: T, n: nat)
    requires Inverse(up, down) && Closed(up) && a in up && Walk(up, a, b, n)
    ensures b in up && Reaches(down, b, a)
    ensures n > 0 ==> Above(down, b, a)
    decreases n
  {
    ReachesSelf(down, a);
    if n > 0 {
      var k :| 0 <= k < |up[a]| && Walk(up, up[a][k], b, n - 1);
      var m := up[a][k];
      assert m in up[a];
      WalkInverse(up, down, m, b, n - 1);
      var i :| 0 <= i < |down[m]| && down[m][i] == a;
      ReachesStep(down, m, i, a);
      var w: nat :| Walk(down, b, m, w);
      WalkTrans(down, b, m, a, w);
      if w == 0 { assert b == m; }
    }
  }

  lemma {:induction false} InverseSwap<T>(up: map<T, seq<T>>, down: map<T, seq<T>>)
    requires Inverse(up, down)
    ensures Inverse(down, up)
  {}

  lemma {:induction false} ReachesInverse<T>(up: map<T, seq<T>>, down: map<T, seq<T>>, a: T, b: T)
    requires Inverse(up, down) && Closed(up) && Closed(down) && a in up && b in up
    ensures Reaches(up, a, b) <==> Reaches(down, b, a)
  {
    if Reaches(up, a, b) {
      var n: nat :| Walk(up, a, b, n);
      WalkInverse(up, down, a, b, n);
    }
    if Reaches(down, b, a) {
      var n: nat :| Walk(down, b, a, n);
      InverseSwap(up, down);
      WalkInverse(down, up, b, a, n);
    }
  }

  lemma {:induction false} AboveInverse<T>(up: map<T, seq<T>>, down: map<T, seq<T>>, a: T)
    requires Inverse(up, down) && Closed(up) && a in up && Above(up, a, a)
    ensures Above(down, a, a)
  {
    var k :| 0 <= k < |up[a]| && Reaches(up, up[a][k], a);
    var n: nat :| Walk(up, up[a][k], a, n);
    assert Walk(up, a, a, n + 1);
    WalkInverse(up, down, a, a, n + 1);
  }
}
