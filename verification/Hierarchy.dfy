// The class hierarchy of OTcl (otcl.c): superclass and subclass lists, cached
// precedence orders, and the operations that change them. The singly linked
// OTclClasses lists are sequences; a null list is the empty sequence.
module Hierarchy {
  import opened Wrappers
  import opened Precedence

  datatype Color = White | Gray | Black

  // The `next` argument of TopoSort: follow superclasses or subclasses.
  datatype Direction = Up | Down

  class OTclClass {
    var super: seq<OTclClass>
    var sub: seq<OTclClass>
    var color: Color
    var order: seq<OTclClass>
    var instprocs: set<string>

    constructor ()
      ensures super == [] && sub == [] && color == White && order == [] && instprocs == {}
    {
      super, sub, color, order, instprocs := [], [], White, [], {};
    }

    function Next(dir: Direction): seq<OTclClass>
      reads this`super, this`sub
    {
      if dir == Up then super else sub
    }
  }

  // `g` is the graph that the lists of the classes in `world` form.
  ghost predicate Follows(g: map<OTclClass, seq<OTclClass>>, world: set<OTclClass>, dir: Direction)
    reads world`super, world`sub
  {
    g.Keys == world && forall c :: c in world ==> g[c] == c.Next(dir)
  }

  // Classes under visit are gray, reported ones black, all others white.
  ghost predicate Colored(world: set<OTclClass>, gray: set<OTclClass>, black: seq<OTclClass>)
    reads world`color
  {
    forall c :: c in world ==>
      c.color == (if c in gray then Gray else if c in black then Black else White)
  }

  ghost function IndexOf<T>(s: seq<T>, x: T): (k: nat)
    ensures k <= |s| && (k < |s| ==> s[k] == x) && x !in s[..k]
  {
    if s == [] || s[0] == x then 0
    else
      var k := IndexOf(s[1..], x);
      assert s[..k + 1] == [s[0]] + s[1..][..k];
      k + 1
  }

  // The classes a search from `base` leaves black: none, except that the search
  // stops without a reset when it meets `base` among its own neighbours.
  ghost function Leftover<T>(g: map<T, seq<T>>, base: T): seq<T>
    requires Closed(g) && base in g
  {
    var k := IndexOf(g[base], base);
    if k == |g[base]| then []
    else
      match Dfs(g, g[base][..k], {base}, [])
      case None => []
      case Some(o) => o
  }

  lemma {:induction false} LeftoverNone<T>(g: map<T, seq<T>>, base: T, i: nat)
    requires Closed(g) && base in g && i <= |g[base]|
    requires base !in g[base][..i]
    requires i == |g[base]| || Dfs(g, g[base][..i], {base}, []).None?
    ensures Leftover(g, base) == []
  {
    var k := IndexOf(g[base], base);
    if k < |g[base]| {
      assert i < |g[base]|;
      assert k >= i by {
        assert forall j :: 0 <= j < i ==> g[base][..i][j] == g[base][j];
      }
      assert g[base][..k] == g[base][..i] + g[base][i..k];
      DfsAppend(g, g[base][..i], g[base][i..k], {base}, []);
    }
  }

  lemma {:induction false} DfsStop<T>(g: map<T, seq<T>>, cs: seq<T>, i: nat, gray: set<T>, order: seq<T>)
    requires Closed(g) && AllIn(g, cs) && i < |cs|
    requires Dfs(g, cs[..i + 1], gray, order).None?
    ensures Dfs(g, cs, gray, order).None?
  {
    assert cs == cs[..i + 1] + cs[i + 1..];
    DfsAppend(g, cs[..i + 1], cs[i + 1..], gray, order);
  }

  lemma {:induction false} DfsOneMore<T>(g: map<T, seq<T>>, cs: seq<T>, i: nat, gray: set<T>, order: seq<T>)
    requires Closed(g) && AllIn(g, cs) && i < |cs|
    requires Dfs(g, cs[..i], gray, order).Some?
    ensures Dfs(g, cs[..i + 1], gray, order)
         == var o := Dfs(g, cs[..i], gray, order).value;
            if cs[i] in gray then None
            else if cs[i] in o then Some(o)
            else match Dfs(g, g[cs[i]], gray + {cs[i]}, o)
                 case None => None
                 case Some(p) => Some([cs[i]] + p)
  {
    assert cs[..i + 1] == cs[..i] + [cs[i]];
    DfsAppend(g, cs[..i], [cs[i]], gray, order);
    var o := Dfs(g, cs[..i], gray, order).value;
    if cs[i] !in gray {
      if cs[i] in o {
        assert Dfs(g, [cs[i]][1..], gray, o) == Some(o);
      } else {
        match Dfs(g, g[cs[i]], gray + {cs[i]}, o)
        case None =>
        case Some(p) => assert Dfs(g, [cs[i]][1..], gray, [cs[i]] + p) == Some([cs[i]] + p);
      }
    }
  }

  // `g` is the graph the search follows; `gray` the classes under visit.
  method TopoSort(cl: OTclClass, base: OTclClass, dir: Direction,
                  ghost world: set<OTclClass>, ghost gray: set<OTclClass>, ghost g: map<OTclClass, seq<OTclClass>>)
    returns (ok: bool)
    requires Follows(g, world, dir) && Closed(g)
    requires cl in world && base in world && gray <= world && cl !in gray
    requires if cl == base then gray == {} && base.order == [] else base in gray
    requires Reported(base.order, world, gray + {cl})
    requires Colored(world, gray, base.order)
    modifies world`color, base`order
    ensures ok == Dfs(g, g[cl], gray + {cl}, old(base.order)).Some?
    ensures ok ==> base.order == [cl] + Dfs(g, g[cl], gray + {cl}, old(base.order)).value
    ensures Reported(base.order, world, gray)
    ensures cl != base ==> Colored(world, gray, base.order)
    ensures cl == base ==> Colored(world, {}, Leftover(g, base))
    decreases world - gray, 0
  {
    ghost var start := base.order;
    var sl := cl.Next(dir);
    cl.color := Gray;
    var i := 0;
    while i < |sl|
      invariant 0 <= i <= |sl| && sl == g[cl] && Follows(g, world, dir)
      invariant Progress(g, cl, base, gray, start, i, base.order)
      invariant Reported(base.order, world, gray + {cl}) && Colored(world, gray + {cl}, base.order)
    {
      ok := VisitNeighbour(cl, i, base, dir, world, gray, g, start);
      if !ok { return false; }
      i := i + 1;
    }
    ProgressEnd(g, cl, base, gray, start, base.order);
    Report(cl, base, world, gray);
    return true;
  }

  // The first `i` neighbours of `cl` have been visited, giving `order`.
  ghost predicate Progress<T>(g: map<T, seq<T>>, cl: T, base: T, gray: set<T>, start: seq<T>, i: nat, order: seq<T>)
    requires Closed(g) && cl in g && i <= |g[cl]|
  {
    && Dfs(g, g[cl][..i], gray + {cl}, start) == Some(order)
    && (cl == base ==> gray == {} && start == [] && base !in g[cl][..i])
  }

  lemma {:induction false} ProgressEnd<T>(g: map<T, seq<T>>, cl: T, base: T, gray: set<T>, start: seq<T>, order: seq<T>)
    requires Closed(g) && cl in g && Progress(g, cl, base, gray, start, |g[cl]|, order)
    ensures Dfs(g, g[cl], gray + {cl}, start) == Some(order)
    ensures cl == base ==> Leftover(g, base) == []
  {
    assert g[cl][..|g[cl]|] == g[cl];
    if cl == base { LeftoverNone(g, base, |g[cl]|); }
  }

  lemma {:induction false} ProgressStep<T>(g: map<T, seq<T>>, cl: T, base: T, gray: set<T>, start: seq<T>, i: nat, order: seq<T>)
    requires Closed(g) && cl in g && i < |g[cl]| && Progress(g, cl, base, gray, start, i, order)
    requires g[cl][i] !in gray + {cl}
    ensures g[cl][i] in order ==> Progress(g, cl, base, gray, start, i + 1, order)
    ensures g[cl][i] !in order ==>
      match Dfs(g, g[g[cl][i]], gray + {cl} + {g[cl][i]}, order)
      case Some(o) => Progress(g, cl, base, gray, start, i + 1, [g[cl][i]] + o)
      case None => Dfs(g, g[cl], gray + {cl}, start).None? && (cl == base ==> Leftover(g, base) == [])
  {
    DfsOneMore(g, g[cl], i, gray + {cl}, start);
    assert g[cl][..i + 1] == g[cl][..i] + [g[cl][i]];
    if Dfs(g, g[cl][..i + 1], gray + {cl}, start).None? {
      DfsStop(g, g[cl], i, gray + {cl}, start);
      if cl == base {
        assert gray + {cl} == {base};
        LeftoverNone(g, base, i + 1);
      }
    }
  }

  lemma {:induction false} ProgressBlocked<T>(g: map<T, seq<T>>, cl: T, base: T, gray: set<T>, start: seq<T>, i: nat, order: seq<T>)
    requires Closed(g) && cl in g && i < |g[cl]| && Progress(g, cl, base, gray, start, i, order)
    requires g[cl][i] in gray + {cl}
    ensures Dfs(g, g[cl], gray + {cl}, start).None?
    ensures cl == base ==> Leftover(g, base) == order
  {
    DfsOneMore(g, g[cl], i, gray + {cl}, start);
    DfsStop(g, g[cl], i, gray + {cl}, start);
    if cl == base {
      assert gray + {cl} == {base};
      LeftoverSelf(g, base, i);
    }
  }

  // The body of the loop over the neighbours of `cl` (lines 184-193).
  method VisitNeighbour(cl: OTclClass, i: nat, base: OTclClass, dir: Direction, ghost world: set<OTclClass>,
                        ghost gray: set<OTclClass>, ghost g: map<OTclClass, seq<OTclClass>>, ghost start: seq<OTclClass>)
    returns (ok: bool)
    requires Follows(g, world, dir) && Closed(g)
    requires cl in world && base in world && gray <= world && cl !in gray && i < |cl.Next(dir)|
    requires base in gray + {cl}
    requires Progress(g, cl, base, gray, start, i, base.order)
    requires Reported(base.order, world, gray + {cl}) && Colored(world, gray + {cl}, base.order)
    modifies world`color, base`order
    ensures ok ==> Progress(g, cl, base, gray, start, i + 1, base.order)
    ensures ok ==> Reported(base.order, world, gray + {cl}) && Colored(world, gray + {cl}, base.order)
    ensures !ok ==> Dfs(g, g[cl], gray + {cl}, start).None? && Reported(base.order, world, gray)
    ensures !ok ==> Colored(world, gray, if cl == base then Leftover(g, base) else base.order)
    decreases world - (gray + {cl}), 1
  {
    var sc := cl.Next(dir)[i];
    assert sc == g[cl][i];
    if sc.color == Gray {
      ProgressBlocked(g, cl, base, gray, start, i, base.order);
      cl.color := White;
      return false;
    }
    ProgressStep(g, cl, base, gray, start, i, base.order);
    if sc.color == White {
      ok := TopoSort(sc, base, dir, world, gray + {cl}, g);
      if !ok { Unwind(cl, base, world, gray); }
      return ok;
    }
    return true;
  }

  // A failed visit below `cl` (lines 187-192).
  method Unwind(cl: OTclClass, base: OTclClass, ghost world: set<OTclClass>, ghost gray: set<OTclClass>)
    requires cl in world && base in world && cl !in gray && (cl == base ==> gray == {})
    requires Colored(world, gray + {cl}, base.order) && Reported(base.order, world, gray + {cl})
    modifies world`color
    ensures Colored(world, gray, if cl == base then [] else base.order)
  {
    cl.color := White;
    if cl == base { ResetColors(base.order, world); }
  }

  // A finished visit of `cl` (lines 195-203).
  method Report(cl: OTclClass, base: OTclClass, ghost world: set<OTclClass>, ghost gray: set<OTclClass>)
    requires cl in world && base in world && cl !in gray && (cl == base ==> gray == {})
    requires Colored(world, gray + {cl}, base.order) && Reported(base.order, world, gray + {cl})
    modifies world`color, base`order
    ensures base.order == [cl] + old(base.order) && Reported(base.order, world, gray)
    ensures Colored(world, gray, if cl == base then [] else base.order)
  {
    cl.color := Black;
    base.order := [cl] + base.order;
    if cl == base { ResetColors(base.order, world); }
  }

  ghost predicate Reported(order: seq<OTclClass>, world: set<OTclClass>, gray: set<OTclClass>) {
    forall x :: x in order ==> x in world && x !in gray
  }

  lemma {:induction false} LeftoverSelf<T>(g: map<T, seq<T>>, base: T, i: nat)
    requires Closed(g) && base in g && i < |g[base]|
    requires base !in g[base][..i] && g[base][i] == base
    requires Dfs(g, g[base][..i], {base}, []).Some?
    ensures Leftover(g, base) == Dfs(g, g[base][..i], {base}, []).value
  {}

  // The loop over `cl->order` at the end of a search.
  method ResetColors(pc: seq<OTclClass>, ghost world: set<OTclClass>)
    requires Colored(world, {}, pc) && Reported(pc, world, {})
    modifies world`color
    ensures Colored(world, {}, [])
  {
    for i := 0 to |pc|
      invariant forall c :: c in world ==> c.color == if c in pc && c !in pc[..i] then Black else White
    {
      assert pc[..i + 1] == pc[..i] + [pc[i]];
      pc[i].color := White;
    }
  }

  // ---------- the state of the hierarchy between operations ----------

  // Superclass and subclass lists stay inside the hierarchy, hold no class
  // twice, and are inverse to each other.
  ghost predicate Linked(up: map<OTclClass, seq<OTclClass>>, down: map<OTclClass, seq<OTclClass>>) {
    && Closed(up) && Closed(down) && Inverse(up, down)
    && (forall c :: c in up ==> Distinct(up[c]))
    && (forall c :: c in down ==> Distinct(down[c]))
  }

  ghost predicate NoCycles<T>(g: map<T, seq<T>>) {
    forall c :: c in g ==> !Above(g, c, c)
  }

  // Every cached order is the one a fresh search would give.
  ghost predicate Coherent(world: set<OTclClass>, up: map<OTclClass, seq<OTclClass>>)
    requires Closed(up) && up.Keys == world
    reads world`order
  {
    forall c :: c in world ==> c.order == [] || TopoOrder(up, c) == Some(c.order)
  }

  ghost predicate AllWhite(world: set<OTclClass>)
    reads world`color
  {
    Colored(world, {}, [])
  }

  // ---------- cached precedence orders ----------

  // A null list stands for a failed search.
  ghost function OrNull<T>(o: Option<seq<T>>): seq<T> {
    match o case None => [] case Some(l) => l
  }

  method ComputePrecedence(cl: OTclClass, ghost world: set<OTclClass>, ghost up: map<OTclClass, seq<OTclClass>>)
    returns (pl: seq<OTclClass>)
    requires Follows(up, world, Up) && Closed(up)
    requires cl in world && AllWhite(world)
    modifies world`color, cl`order
    ensures pl == cl.order
    ensures old(cl.order) != [] ==> cl.order == old(cl.order) && AllWhite(world)
    ensures old(cl.order) == [] ==> cl.order == OrNull(TopoOrder(up, cl)) && Colored(world, {}, Leftover(up, cl))
  {
    if cl.order == [] {
      TopoOrderUnfold(up, cl);
      assert {} + {cl} == {cl};
      var ok := TopoSort(cl, cl, Up, world, {}, up);
      if !ok { cl.order := []; }
    }
    pl := cl.order;
  }

  method ComputeDependents(cl: OTclClass, ghost world: set<OTclClass>, ghost down: map<OTclClass, seq<OTclClass>>)
    returns (pl: seq<OTclClass>)
    requires Follows(down, world, Down) && Closed(down)
    requires cl in world && AllWhite(world) && cl.order == []
    modifies world`color, cl`order
    ensures pl == cl.order == OrNull(TopoOrder(down, cl))
    ensures Reported(pl, world, {})
    ensures Colored(world, {}, Leftover(down, cl))
  {
    TopoOrderUnfold(down, cl);
    assert {} + {cl} == {cl};
    var ok := TopoSort(cl, cl, Down, world, {}, down);
    if !ok { cl.order := []; }
    pl := cl.order;
  }

  // The classes whose cached order FlushPrecedences drops.
  ghost function Flushed(down: map<OTclClass, seq<OTclClass>>, cl: OTclClass): seq<OTclClass>
    requires Closed(down) && cl in down
  {
    match TopoOrder(down, cl) case None => [cl] case Some(o) => o
  }

  method FlushPrecedences(cl: OTclClass, ghost world: set<OTclClass>, ghost down: map<OTclClass, seq<OTclClass>>)
    requires Follows(down, world, Down) && Closed(down)
    requires cl in world && AllWhite(world)
    modifies world`color, world`order
    ensures Colored(world, {}, Leftover(down, cl))
    ensures forall c :: c in world ==> c.order == if c in Flushed(down, cl) then [] else old(c.order)
  {
    TopoOrderUnfold(down, cl);
    cl.order := [];
    var pc := ComputeDependents(cl, world, down);
    if pc != [] {
      assert pc == Flushed(down, cl);
      DropOrders(pc[1..], world);
    }
    cl.order := [];
  }

  method DropOrders(pc: seq<OTclClass>, ghost world: set<OTclClass>)
    requires Reported(pc, world, {})
    modifies world`order
    ensures forall c :: c in world ==> c.order == if c in pc then [] else old(c.order)
  {
    for i := 0 to |pc|
      invariant forall c :: c in world ==> c.order == if c in pc[..i] then [] else old(c.order)
    {
      assert pc[..i + 1] == pc[..i] + [pc[i]];
      pc[i].order := [];
    }
  }
}
