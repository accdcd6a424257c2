// Method lookup (otcl.c): dispatch on an object and the `next` chain.
module Dispatch {
  import opened Wrappers
  import opened Precedence
  import opened Hierarchy
  import opened Superclasses
  import opened Interpreter

  // Which implementation runs: the object's own proc, which carries no class
  // name, or the instproc of a class.
  datatype Running<T> = Own | Of(cl: T)

  // Where the search for the next implementation starts: right after the first
  // occurrence of the class that is running, or at the end if it is not there.
  ghost function Start<T>(pl: seq<T>, current: Running<T>): (k: nat)
    ensures k <= |pl|
  {
    match current
    case Own => 0
    case Of(c) => if c in pl then IndexIn(pl, c) + 1 else |pl|
  }

  ghost function IndexIn<T>(pl: seq<T>, c: T): (k: nat)
    requires c in pl
    ensures k < |pl| && pl[k] == c && c !in pl[..k]
  {
    if pl[0] == c then 0
    else
      var k := IndexIn(pl[1..], c);
      assert pl[..k + 1] == [pl[0]] + pl[1..][..k];
      k + 1
  }

  ghost function FirstIn<T>(pl: seq<T>, defs: set<T>): (r: Option<T>)
    ensures r.Some? ==> r.value in defs && r.value in pl
    ensures r.None? ==> forall c :: c in pl ==> c !in defs
  {
    if pl == [] then None
    else if pl[0] in defs then Some(pl[0])
    else FirstIn(pl[1..], defs)
  }

  ghost function Filter<T>(pl: seq<T>, defs: set<T>): seq<T> {
    if pl == [] then []
    else if pl[0] in defs then [pl[0]] + Filter(pl[1..], defs)
    else Filter(pl[1..], defs)
  }

  // The implementations run by repeated `next` after `current`, where `defs`
  // are the classes that define the method.
  ghost function Chain<T>(pl: seq<T>, defs: set<T>, current: Running<T>): seq<T>
    requires Distinct(pl)
    decreases |pl| - Start(pl, current)
  {
    match FirstIn(pl[Start(pl, current)..], defs)
    case None => []
    case Some(c) =>
      StartMoves(pl, current, c);
      [c] + Chain(pl, defs, Of(c))
  }

  lemma {:induction false} StartMoves<T>(pl: seq<T>, current: Running<T>, c: T)
    requires Distinct(pl) && c in pl[Start(pl, current)..]
    ensures Start(pl, Of(c)) > Start(pl, current)
  {}

  // From any point of a precedence order, the chain runs exactly the later
  // classes that define the method.
  lemma {:induction false} ChainRuns<T>(pl: seq<T>, defs: set<T>, current: Running<T>)
    requires Distinct(pl)
    ensures Chain(pl, defs, current) == Filter(pl[Start(pl, current)..], defs)
    decreases |pl| - Start(pl, current)
  {
    var i := ChainStep(pl, defs, current);
    hide Chain, Start, Filter, Distinct;
    FilterAt(pl, defs, i);
    if i < |pl| {
      StartAt(pl, i);
      ChainRuns(pl, defs, Of(pl[i]));
    }
  }

  // One step of the chain: to the next class that defines the method.
  lemma {:induction false} ChainStep<T>(pl: seq<T>, defs: set<T>, current: Running<T>) returns (i: nat)
    requires Distinct(pl)
    ensures Start(pl, current) <= i <= |pl| && (i < |pl| ==> pl[i] in defs)
    ensures Chain(pl, defs, current) == if i < |pl| then [pl[i]] + Chain(pl, defs, Of(pl[i])) else []
    ensures Filter(pl[Start(pl, current)..], defs) == Filter(pl[i..], defs)
  {
    hide Start, Filter, Distinct;
    i := FirstInAt(pl, defs, Start(pl, current));
    FilterSkip(pl, defs, Start(pl, current), i);
  }

  lemma {:induction false} StartAt<T>(pl: seq<T>, i: nat)
    requires Distinct(pl) && i < |pl|
    ensures Start(pl, Of(pl[i])) == i + 1
  {}

  lemma {:induction false} FilterAt<T>(pl: seq<T>, defs: set<T>, i: nat)
    requires i <= |pl| && (i < |pl| ==> pl[i] in defs)
    ensures Filter(pl[i..], defs) == if i < |pl| then [pl[i]] + Filter(pl[i + 1..], defs) else []
  {}

  lemma {:induction false} FirstInAt<T>(pl: seq<T>, defs: set<T>, k: nat) returns (i: nat)
    requires k <= |pl|
    ensures k <= i <= |pl| && forall j :: k <= j < i ==> pl[j] !in defs
    ensures i < |pl| ==> pl[i] in defs
    ensures FirstIn(pl[k..], defs) == if i < |pl| then Some(pl[i]) else None
    decreases |pl| - k
  {
    if k == |pl| || pl[k] in defs {
      i := k;
    } else {
      assert pl[k..][1..] == pl[k + 1..];
      i := FirstInAt(pl, defs, k + 1);
    }
  }

  lemma {:induction false} FilterSkip<T>(pl: seq<T>, defs: set<T>, k: nat, i: nat)
    requires k <= i <= |pl| && forall j :: k <= j < i ==> pl[j] !in defs
    ensures Filter(pl[k..], defs) == Filter(pl[i..], defs)
    decreases i - k
  {
    if k < i {
      assert pl[k..][1..] == pl[k + 1..];
      FilterSkip(pl, defs, k + 1, i);
    }
  }

  // ---------- lookup on the heap ----------

  class OTclObject {
    var cl: OTclClass
    var procs: set<string>

    constructor (cl: OTclClass)
      ensures this.cl == cl && procs == {}
    {
      this.cl, procs := cl, {};
    }
  }

  ghost function Defining(world: set<OTclClass>, nm: string): set<OTclClass>
    reads world`instprocs
  {
    set c | c in world && nm in c.instprocs
  }

  method SearchCMethod(pl: seq<OTclClass>, nm: string, ghost world: set<OTclClass>) returns (r: Option<OTclClass>)
    requires Reported(pl, world, {})
    ensures r == FirstIn(pl, Defining(world, nm))
  {
    var l := 0;
    while l < |pl| && nm !in pl[l].instprocs
      invariant 0 <= l <= |pl|
      invariant FirstIn(pl, Defining(world, nm)) == FirstIn(pl[l..], Defining(world, nm))
    {
      assert pl[l..][1..] == pl[l + 1..];
      l := l + 1;
    }
    if l == |pl| { return None; }
    return Some(pl[l]);
  }

  // OTclDispatch: the object's own proc first, then the class hierarchy.
  method Dispatch(interp: Interp, self: OTclObject, nm: string) returns (r: Option<Running<OTclClass>>)
    requires interp.Valid() && self.cl in interp.world
    modifies interp.world`color, interp.world`order
    ensures interp.Valid()
    ensures nm in self.procs ==> r == Some(Own)
    ensures TopoOrder(interp.up, self.cl).Some?
    ensures nm !in self.procs ==> r == AsRunning(FirstIn(TopoOrder(interp.up, self.cl).value, Defining(interp.world, nm)))
  {
    TopoOrderExists(interp.up, self.cl);
    if nm in self.procs { return Some(Own); }
    var pl := interp.Precedence(self.cl);
    CacheInside(interp.up, self.cl, pl);
    var c := SearchCMethod(pl, nm, interp.world);
    r := AsRunning(c);
  }

  function AsRunning<T>(c: Option<T>): Option<Running<T>> {
    match c case None => None case Some(x) => Some(Of(x))
  }

  // OTclNextMethod: advance past the class that is running, if one is.
  method NextMethod(interp: Interp, obj: OTclObject, current: Running<OTclClass>, nm: string)
    returns (r: Option<OTclClass>)
    requires interp.Valid() && obj.cl in interp.world
    modifies interp.world`color, interp.world`order
    ensures interp.Valid()
    ensures TopoOrder(interp.up, obj.cl).Some?
    ensures var pl := TopoOrder(interp.up, obj.cl).value;
      r == FirstIn(pl[Start(pl, current)..], Defining(interp.world, nm))
  {
    var pl := interp.Precedence(obj.cl);
    CacheInside(interp.up, obj.cl, pl);
    var l, cl := 0, current;
    while l < |pl| && cl.Of?
      invariant 0 <= l <= |pl| && (cl.Of? ==> cl == current && cl.cl !in pl[..l])
      invariant cl.Own? ==> l == Start(pl, current)
    {
      if pl[l] == cl.cl {
        assert Start(pl, current) == l + 1;
        cl := Own;
      }
      assert pl[..l + 1] == pl[..l] + [pl[l]];
      l := l + 1;
    }
    assert pl[..|pl|] == pl;
    r := SearchCMethod(pl[l..], nm, interp.world);
  }

  // All implementations of `nm` that dispatch on an object followed by repeated
  // `next` runs: its own proc if it has one, then exactly the classes of its
  // precedence order that define the method, in that order, each once.
  lemma {:induction false} WholeChain(up: ClassGraph, c: OTclClass, defs: set<OTclClass>)
    requires Closed(up) && NoCycles(up) && c in up
    ensures TopoOrder(up, c).Some? && Distinct(TopoOrder(up, c).value)
    ensures Chain(TopoOrder(up, c).value, defs, Own) == Filter(TopoOrder(up, c).value, defs)
    ensures Distinct(Filter(TopoOrder(up, c).value, defs))
    ensures forall x :: x in Filter(TopoOrder(up, c).value, defs) <==> x in defs && Reaches(up, c, x)
  {
    TopoOrderCorrect(up, c);
    var pl := TopoOrder(up, c).value;
    assert pl[0..] == pl;
    ChainRuns(pl, defs, Own);
    FilterMembers(pl, defs);
  }

  lemma {:induction false} FilterMembers<T>(pl: seq<T>, defs: set<T>)
    requires Distinct(pl)
    ensures Distinct(Filter(pl, defs))
    ensures forall x :: x in Filter(pl, defs) <==> x in defs && x in pl
  {
    if pl != [] {
      FilterMembers(pl[1..], defs);
      assert pl == [pl[0]] + pl[1..];
      assert pl[0] !in pl[1..];
    }
  }

  // ---------- the chain that is run ----------

  ghost function Instprocs<T>(cs: seq<T>): seq<Running<T>> {
    seq(|cs|, i requires 0 <= i < |cs| => Of(cs[i]))
  }

  // What the chain after `current` amounts to when the next implementation is `next`.
  lemma {:induction false} ChainHead<T>(pl: seq<T>, defs: set<T>, current: Running<T>, next: Option<T>)
    requires Distinct(pl) && next == FirstIn(pl[Start(pl, current)..], defs)
    ensures next.None? ==> Chain(pl, defs, current) == []
    ensures next.Some? ==> Start(pl, Of(next.value)) > Start(pl, current)
    ensures next.Some? ==> Instprocs(Chain(pl, defs, current)) == [Of(next.value)] + Instprocs(Chain(pl, defs, Of(next.value)))
  {
    hide Distinct, Start, FirstIn, Instprocs;
    if next.Some? {
      StartMoves(pl, current, next.value);
      InstprocsCons(next.value, Chain(pl, defs, Of(next.value)));
    }
  }

  lemma {:induction false} InstprocsCons<T>(c: T, cs: seq<T>)
    ensures Instprocs([c] + cs) == [Of(c)] + Instprocs(cs)
  {}

  // `ran` has been run and `current` is next, on the way to running `all`.
  ghost predicate OnTheWay<T>(pl: seq<T>, defs: set<T>, ran: seq<Running<T>>, current: Option<Running<T>>, all: seq<Running<T>>)
    requires Distinct(pl)
  {
    match current
    case None => ran == all
    case Some(x) => ran + ([x] + Instprocs(Chain(pl, defs, x))) == all
  }

  lemma {:induction false} RunStarts<T>(pl: seq<T>, defs: set<T>, own: bool)
    requires Distinct(pl) && Chain(pl, defs, Own) == Filter(pl, defs)
    ensures OnTheWay(pl, defs, [], if own then Some(Own) else AsRunning(FirstIn(pl, defs)),
                     (if own then [Own] else []) + Instprocs(Filter(pl, defs)))
  {
    assert pl[0..] == pl;
    ChainHead(pl, defs, Own, FirstIn(pl, defs));
  }

  lemma {:induction false} RunContinues<T>(pl: seq<T>, defs: set<T>, ran: seq<Running<T>>, x: Running<T>, next: Option<T>, all: seq<Running<T>>)
    requires Distinct(pl) && OnTheWay(pl, defs, ran, Some(x), all) && next == FirstIn(pl[Start(pl, x)..], defs)
    ensures OnTheWay(pl, defs, ran + [x], AsRunning(next), all)
    ensures next.Some? ==> Start(pl, Of(next.value)) > Start(pl, x)
  {
    ChainHead(pl, defs, x, next);
    hide Chain, Start, FirstIn;
    assert (ran + [x]) + Instprocs(Chain(pl, defs, x)) == all;
  }

  // A message to an object whose implementations all call `next`: the list of what is
  // run. The object's own proc comes first if it has one, then exactly the classes of
  // its precedence order that define the method, in that order, and then it stops.
  method RunAll(interp: Interp, self: OTclObject, nm: string) returns (ran: seq<Running<OTclClass>>)
    requires interp.Valid() && self.cl in interp.world
    modifies interp.world`color, interp.world`order
    ensures interp.Valid() && TopoOrder(interp.up, self.cl).Some?
    ensures ran == (if nm in self.procs then [Own] else [])
                   + Instprocs(Filter(TopoOrder(interp.up, self.cl).value, Defining(interp.world, nm)))
  {
    var current := Dispatch(interp, self, nm);
    ghost var pl := TopoOrder(interp.up, self.cl).value;
    ghost var defs := Defining(interp.world, nm);
    ghost var all := (if nm in self.procs then [Own] else []) + Instprocs(Filter(pl, defs));
    WholeChain(interp.up, self.cl, defs);
    RunStarts(pl, defs, nm in self.procs);
    hide Chain, Filter, TopoOrder, Distinct, Start, Instprocs, OnTheWay, FirstIn, Defining;
    ran := [];
    while current.Some?
      invariant interp.Valid() && TopoOrder(interp.up, self.cl) == Some(pl) && Defining(interp.world, nm) == defs
      invariant OnTheWay(pl, defs, ran, current, all)
      decreases if current.Some? then |pl| - Start(pl, current.value) + 1 else 0
    {
      var next := NextMethod(interp, self, current.value, nm);
      RunContinues(pl, defs, ran, current.value, next, all);
      ran := ran + [current.value];
      current := AsRunning(next);
    }
    assert OnTheWay(pl, defs, ran, None, all);
    RunEnds(pl, defs, ran, all);
  }

  lemma {:induction false} RunEnds<T>(pl: seq<T>, defs: set<T>, ran: seq<Running<T>>, all: seq<Running<T>>)
    requires Distinct(pl) && OnTheWay(pl, defs, ran, None, all)
    ensures ran == all
  {}
}
