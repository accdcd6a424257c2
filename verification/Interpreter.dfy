// The operations of an OTcl interpreter on its class hierarchy (otcl.c): the
// `superclass` method with its rollback, class creation and destruction.
module Interpreter {
  import opened Wrappers
  import opened Precedence
  import opened Hierarchy
  import opened Superclasses

  datatype Reply = Accepted | NotInOrder | Cyclic

  class Interp {
    // All classes, with what their superclass and subclass lists hold.
    ghost var world: set<OTclClass>
    ghost var up: ClassGraph
    ghost var down: ClassGraph

    // What every operation keeps: inverse, duplicate-free lists, no cycle, and
    // only correct precedence orders in the caches.
    ghost predicate Sound()
      reads this, world
    {
      && Links(world, up, down) && Linked(up, down) && NoCycles(up) && Coherent(world, up)
    }

    ghost predicate Valid()
      reads this, world
    {
      Sound() && AllWhite(world)
    }

    constructor ()
      ensures Valid() && world == {}
    {
      world, up, down := {}, map[], map[];
    }

    lemma {:induction false} NoSelfEdges(cl: OTclClass)
      requires Sound() && cl in world
      ensures cl !in up[cl] && cl !in down[cl]
      ensures Leftover(up, cl) == [] && Leftover(down, cl) == []
    {
      if cl in up[cl] { SelfEdgeAbove(up, cl); }
      LeftoverNone(up, cl, |up[cl]|);
      LeftoverNone(down, cl, |down[cl]|);
    }

    // The precedence order of a class, from the cache or computed now.
    method Precedence(cl: OTclClass) returns (pl: seq<OTclClass>)
      requires Valid() && cl in world
      modifies world`color, cl`order
      ensures Valid() && pl == cl.order && Some(pl) == TopoOrder(up, cl)
    {
      NoSelfEdges(cl);
      TopoOrderExists(up, cl);
      pl := ComputePrecedence(cl, world, up);
    }

    // The innermost loop: whether `sc` is in the precedence order `dl` of `c`.
    static method Occurs(dl: seq<OTclClass>, sc: OTclClass, ghost g: ClassGraph, ghost c: OTclClass) returns (found: bool)
      requires Closed(g) && c in g && TopoOrder(g, c) == Some(dl)
      ensures found == Reaches(g, c, sc)
    {
      TopoOrderCorrect(g, c);
      var d := 0;
      while d < |dl| && dl[d] != sc
        invariant 0 <= d <= |dl| && sc !in dl[..d]
      {
        d := d + 1;
      }
      found := d != |dl|;
      assert !found ==> dl[..d] == dl;
    }

    // The loops that look for a superclass given before one of its subclasses.
    method FindReversed(given: seq<OTclClass>) returns (reversed: bool)
      requires Valid() && forall c :: c in given ==> c in world
      modifies world`color, world`order
      ensures Valid() && reversed == !InDependenceOrder(up, given)
    {
      assert Closed(up) && up.Keys == world;
      hide Valid, TopoOrder;
      reversed := false;
      for i := 0 to |given|
        invariant Valid()
        invariant reversed ==> !InDependenceOrder(up, given)
        invariant !reversed ==> forall a, b :: 0 <= a < i && a < b < |given| ==> !Reaches(up, given[b], given[a])
      {
        if reversed { break; }
        for j := i + 1 to |given|
          invariant Valid()
          invariant reversed ==> !InDependenceOrder(up, given)
          invariant !reversed ==> forall b :: i < b < j ==> !Reaches(up, given[b], given[i])
        {
          var dl := Precedence(given[j]);
          if reversed { break; }
          reversed := Occurs(dl, given[i], up, given[j]);
        }
      }
    }

    // Unlink all superclasses of `cl`, remembering them latest first.
    method TakeSupers(cl: OTclClass) returns (osl: seq<OTclClass>)
      requires Links(world, up, down) && Linked(up, down) && cl in world
      modifies this`up, this`down, world`super, world`sub
      ensures Links(world, up, down) && Linked(up, down)
      ensures osl == Reverse(old(up[cl])) && up == old(up)[cl := []]
      ensures cl !in old(down[cl]) ==> down[cl] == old(down[cl])
    {
      hide Linked, Reverse;
      osl := [];
      ghost var g, d := up, down;
      TakeStart(up, down, cl);
      hide Taking;
      while cl.super != []
        invariant Links(world, up, down) && Taking(g, d, up, down, cl, osl)
        decreases |cl.super|
      {
        var sc := TakeOne(cl, g, d, osl);
        osl := [sc] + osl;
      }
      TakeEnds(g, d, up, down, cl, osl);
    }

    method TakeOne(cl: OTclClass, ghost g: ClassGraph, ghost d: ClassGraph, ghost osl: seq<OTclClass>) returns (sc: OTclClass)
      requires Links(world, up, down) && Taking(g, d, up, down, cl, osl) && cl in world && cl.super != []
      modifies this`up, this`down, world`super, world`sub
      ensures Links(world, up, down) && Taking(g, d, up, down, cl, [sc] + osl) && |cl.super| < |old(cl.super)|
    {
      sc := cl.super[0];
      assert ([sc] + osl)[1..] == osl;
      TakeStep(g, d, up, down, cl, [sc] + osl);
      hide Linked, Taking;
      var _ := RemoveSuper(cl, sc, world, up, down);
      up, down := WithoutEdge(up, cl, sc), WithoutEdge(down, sc, cl);
      RemoveFirstIs(old(cl.super), sc);
    }

    // Link the classes of `given` as superclasses of `cl`, each in front.
    method GiveSupers(cl: OTclClass, given: seq<OTclClass>)
      requires Links(world, up, down) && Linked(up, down) && cl in world && up[cl] == []
      requires Distinct(given) && forall c :: c in given ==> c in world
      modifies this`up, this`down, world`super, world`sub
      ensures Links(world, up, down) && Linked(up, down)
      ensures up == old(up)[cl := Reverse(given)]
      ensures cl !in old(down[cl]) ==> down[cl] == if cl in given then [cl] + old(down[cl]) else old(down[cl])
    {
      hide Linked;
      ghost var g, d := up, down;
      for i := 0 to |given|
        invariant Links(world, up, down) && Giving(g, d, up, down, cl, given[..i])
      {
        GiveStep(g, d, up, down, cl, given, i);
        AddSuper(cl, given[i], world, up, down);
        up, down := WithEdge(up, cl, given[i]), WithEdge(down, given[i], cl);
      }
      assert given[..|given|] == given;
    }

    // PrimitiveCCreate: `root` is the class Object, if it exists.
    method Create(root: OTclClass?) returns (cl: OTclClass)
      requires Valid() && (root != null ==> root in world)
      modifies this, world`sub
      ensures Valid() && fresh(cl) && world == old(world) + {cl}
      ensures up == old(up)[cl := OnlySuper(root)]
    {
      hide Linked, NoCycles, Coherent, WithEdge;
      KeysAgree(up, down);
      cl := new OTclClass();
      assert cl !in world;
      ghost var g, d := up[cl := []], down[cl := []];
      LinkedGrown(up, down, cl);
      if root != null {
        FirstEdge(up, down, cl, root);
        AddSuper(cl, root, world + {cl}, g, d);
        g, d := WithEdge(g, cl, root), WithEdge(d, root, cl);
      }
      Admit(cl, OnlySuper(root), g, d);
    }

    ghost method Admit(cl: OTclClass, l: seq<OTclClass>, g: ClassGraph, d: ClassGraph)
      requires cl !in world && Closed(up) && up.Keys == world && NoCycles(up) && Coherent(world, up)
      requires Links(world + {cl}, g, d) && Linked(g, d) && g == up[cl := l] && AllIn(up, l)
      requires cl.order == [] && cl.color == White && AllWhite(world)
      modifies this
      ensures Valid() && world == old(world) + {cl} && up == g
    {
      hide Linked, NoCycles, TopoOrder;
      GrownGraph(up, g, cl, l);
      world, up, down := world + {cl}, g, d;
    }

    // PrimitiveCDestroy from "flush all caches" on: no class mentions `cl` any more.
    method Destroy(cl: OTclClass)
      requires Valid() && cl in world
      modifies this, world`super, world`sub, world`color, world`order
      ensures Valid() && world == old(world) - {cl} && Without(old(up), up, cl)
      ensures forall c :: c in world ==> cl !in c.super && cl !in c.sub && cl !in c.order
    {
      hide Linked, NoCycles, TopoOrder, Flushed, Without, Closed, Coherent, AllWhite, FlushedCaches;
      ghost var g, d := up, down;
      FlushForDestroy(cl);
      Unlink(cl);
      LinkedFacts(g, d, cl);
      CoherentWithout(world, g, d, up - {cl}, cl);
      Forget(cl);
    }

    method FlushForDestroy(cl: OTclClass)
      requires Valid() && cl in world
      modifies world`color, world`order
      ensures Closed(up) && Closed(down) && up.Keys == down.Keys == world
      ensures AllWhite(world) && FlushedCaches(world, up, down, cl)
    {
      hide Linked, NoCycles, TopoOrder, Flushed;
      LinkedFacts(up, down, cl);
      NoSelfEdges(cl);
      FlushPrecedences(cl, world, down);
    }

    ghost method Forget(cl: OTclClass)
      requires Links(world, up, down) && cl in world && AllWhite(world)
      requires Linked(up - {cl}, down - {cl}) && Closed(up - {cl}) && NoCycles(up - {cl})
      requires Coherent(world - {cl}, up - {cl})
      modifies this
      ensures Valid() && world == old(world) - {cl} && up == old(up) - {cl}
    {
      hide Linked, NoCycles, TopoOrder, Closed;
      world, up, down := world - {cl}, up - {cl}, down - {cl};
    }

    method Unlink(cl: OTclClass)
      requires Links(world, up, down) && Linked(up, down) && cl in world
      modifies this`up, this`down, world`super, world`sub
      ensures Links(world, up, down)
      ensures Linked(up - {cl}, down - {cl}) && Closed(up - {cl}) && Without(old(up), up - {cl}, cl)
      ensures forall c :: c in world ==> cl !in up[c] && cl !in down[c]
    {
      hide RemoveFirst, Distinct;
      ghost var g := up;
      var _ := TakeSupers(cl);
      DropSubs(cl);
      DropEnd(g[cl := []], up, down, cl);
    }

    // Unlink all subclasses of `cl`.
    method DropSubs(cl: OTclClass)
      requires Links(world, up, down) && Linked(up, down) && cl in world && up[cl] == []
      modifies this`up, this`down, world`super, world`sub
      ensures Links(world, up, down) && Dropping(old(up), up, down, cl) && down[cl] == []
    {
      hide Linked;
      ghost var g := up;
      AllDistinct(up, down);
      while cl.sub != []
        invariant Links(world, up, down) && Dropping(g, up, down, cl)
        decreases |cl.sub|
      {
        var sc := cl.sub[0];
        DropStep(g, up, down, cl);
        var _ := RemoveSuper(sc, cl, world, up, down);
        up, down := WithoutEdge(up, sc, cl), WithoutEdge(down, cl, sc);
      }
    }

    // The `superclass` method. A list that is rejected leaves the superclass
    // lists exactly as they were; a list that is accepted replaces them.
    method SuperClass(cl: OTclClass, given: seq<OTclClass>) returns (reply: Reply)
      requires Valid() && cl in world && forall c :: c in given ==> c in world
      modifies this`up, this`down, world`super, world`sub, world`color, world`order
      ensures Sound()
      ensures reply == NotInOrder <==> !InDependenceOrder(old(up), given)
      ensures reply == Accepted <==> InDependenceOrder(old(up), given) && !ClosesCycle(old(up), cl, given)
      ensures up == if reply == Accepted then old(up)[cl := Reverse(given)] else old(up)
      ensures reply != Accepted ==> forall c, x :: c in world ==> (x in down[c] <==> x in old(down)[c])
      ensures reply == Accepted ==>
        Some(cl.order) == TopoOrder(up, cl) && forall i, j :: 0 <= i < j < |given| ==> Before(cl.order, given[i], given[j])
      ensures AllWhite(world) <==> !(reply != NotInOrder && NamesItselfEarly(cl, given))
    {
      hide Linked, Coherent, AllWhite, NoCycles, InDependenceOrder, ClosesCycle, NamesItselfEarly, Regiven, TopoOrder, Distinct, Before, Closed;
      var reversed := FindReversed(given);
      if reversed { return NotInOrder; }
      reply := Exchange(cl, given);
    }

    // The change once the list is known to be in order.
    method Exchange(cl: OTclClass, given: seq<OTclClass>) returns (reply: Reply)
      requires Valid() && cl in world && (forall c :: c in given ==> c in world) && InDependenceOrder(up, given)
      modifies this`up, this`down, world`super, world`sub, world`color, world`order
      ensures Sound()
      ensures reply == if ClosesCycle(old(up), cl, given) then Cyclic else Accepted
      ensures up == if reply == Accepted then old(up)[cl := Reverse(given)] else old(up)
      ensures reply != Accepted ==> forall c, x :: c in world ==> (x in down[c] <==> x in old(down)[c])
      ensures reply == Accepted ==>
        Some(cl.order) == TopoOrder(up, cl) && forall i, j :: 0 <= i < j < |given| ==> Before(cl.order, given[i], given[j])
      ensures AllWhite(world) <==> !NamesItselfEarly(cl, given)
    {
      hide Linked, Coherent, AllWhite, NoCycles, InDependenceOrder, ClosesCycle, NamesItselfEarly, Regiven, TopoOrder, Distinct, Before, Closed;
      ghost var g := up;
      InOrderDistinct(up, given);
      NoSelfEdges(cl);
      LinkedFacts(up, down, cl);
      ReverseDistinct(up[cl]);
      var osl := TakeSupers(cl);
      GiveSupers(cl, given);
      RegivenNow(g, up, down, cl, given);
      ghost var h, d := up, down;
      reply := Settle(cl, given, osl, g);
      if reply == Accepted {
        AcceptedOrder(g, h, d, cl, given);
      } else {
        SubsDetermined(up, old(down), down);
      }
    }

    // From FlushPrecedences on: `g` is the hierarchy before the change.
    method Settle(cl: OTclClass, given: seq<OTclClass>, osl: seq<OTclClass>, ghost g: ClassGraph) returns (reply: Reply)
      requires Links(world, up, down) && Regiven(g, up, down, cl, given) && Coherent(world, g) && AllWhite(world)
      requires cl in given ==> down[cl] != [] && down[cl][0] == cl
      requires osl == Reverse(g[cl]) && Distinct(osl) && forall c :: c in osl ==> c in world
      modifies this`up, this`down, world`super, world`sub, world`color, world`order
      ensures Sound()
      ensures reply == if ClosesCycle(g, cl, given) then Cyclic else Accepted
      ensures up == if reply == Accepted then g[cl := Reverse(given)] else g
      ensures reply == Accepted ==> Some(cl.order) == TopoOrder(up, cl)
      ensures AllWhite(world) <==> !NamesItselfEarly(cl, given)
    {
      hide Linked, ClosesCycle, TopoOrder, Coherent, AllWhite, NamesItselfEarly, NoCycles, Regiven;
      RegivenFacts(g, up, down, cl, given);
      var pl := Recompute(cl, given, g);
      if pl == [] {
        // cycle in the superclass graph, backtrack
        Revert(cl, osl, g);
        return Cyclic;
      }
      return Accepted;
    }

    // The backtracking that restores the old superclass list.
    method Revert(cl: OTclClass, osl: seq<OTclClass>, ghost g: ClassGraph)
      requires Links(world, up, down) && Linked(up, down) && cl in world && cl in g && g == up[cl := g[cl]]
      requires osl == Reverse(g[cl]) && Distinct(osl) && forall c :: c in osl ==> c in world
      modifies this`up, this`down, world`super, world`sub
      ensures Links(world, up, down) && Linked(up, down) && up == g
    {
      hide Linked;
      var _ := TakeSupers(cl);
      GiveSupers(cl, osl);
      assert Reverse(osl) == g[cl];
    }

    method Recompute(cl: OTclClass, given: seq<OTclClass>, ghost g: ClassGraph) returns (pl: seq<OTclClass>)
      requires Links(world, up, down) && Regiven(g, up, down, cl, given) && Coherent(world, g) && AllWhite(world)
      requires cl in given ==> down[cl] != [] && down[cl][0] == cl
      modifies world`color, world`order
      ensures pl == [] <==> ClosesCycle(g, cl, given)
      ensures pl == cl.order == OrNull(TopoOrder(up, cl))
      ensures if pl == [] then Coherent(world, g) else NoCycles(up) && Coherent(world, up)
      ensures AllWhite(world) <==> !NamesItselfEarly(cl, given)
    {
      hide Linked, ClosesCycle, TopoOrder, NoCycles, Regiven, NamesItselfEarly, AllWhite, Flushed, Reported, Coherent, CachesBut;
      RegivenFacts(g, up, down, cl, given);
      OrderWhite(g, up, down, cl, given);
      FlushForChange(cl, given, g);
      pl := ComputePrecedence(cl, world, up);
      WhiteExactlyWhen(world, Leftover(up, cl));
      RegivenSearches(g, up, down, cl, given);
      CachesRecomputed(world, g, up, down, cl, given);
    }

    method FlushForChange(cl: OTclClass, given: seq<OTclClass>, ghost g: ClassGraph)
      requires Links(world, up, down) && Regiven(g, up, down, cl, given) && Coherent(world, g) && AllWhite(world)
      requires cl in given ==> down[cl] != [] && down[cl][0] == cl
      modifies world`color, world`order
      ensures AllWhite(world) && cl.order == [] && CachesBut(world, g, down, cl)
    {
      hide Linked, ClosesCycle, TopoOrder, NoCycles, Regiven;
      RegivenFacts(g, up, down, cl, given);
      DependentsWhite(g, up, down, cl, given);
      RegivenSearches(g, up, down, cl, given);
      FlushPrecedences(cl, world, down);
    }
  }
}
