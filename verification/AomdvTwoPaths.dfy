// What AOMDV is for: one discovery finds two disjoint paths. In a new network the request
// runs along two paths that share only their ends, and the replies come back along them.
module AomdvTwoPaths {
  import opened Wrappers
  import opened AomdvRoute
  import opened AomdvAgent
  import opened AomdvNetwork
  import opened AomdvSafety

  // How the agents are configured, and the memory of their entries.
  datatype Setup = Setup(maxPaths: nat, lenDiff: int, memory: (Addr, Addr) -> nat)

  ghost function Newcomer(c: Setup, r: Addr): (n: Node)
    ensures n == NewNode(r, c.maxPaths, c.lenDiff, n.memory)
  {
    Initial(r + 1, c.maxPaths, c.lenDiff, c.memory).nodes[r]
  }

  ghost predicate NoRepeats(path: seq<Addr>) {
    forall i, j :: 0 <= i < j < |path| ==> path[i] != path[j]
  }

  // A path from its first agent to its last with at least one agent in between, and at
  // most 30 hops.
  ghost predicate Way(path: seq<Addr>, size: nat) {
    3 <= |path| <= 31 && NoRepeats(path) && forall i :: 0 <= i < |path| ==> path[i] < size
  }

  ghost function Far(path: seq<Addr>): Addr
    requires path != []
  {
    path[|path| - 1]
  }

  lemma {:induction false} OneStep(s: Net, ev: Event, evs: seq<Event>)
    requires Possible(s, ev) && Legal(Apply(s, ev), evs)
    ensures Legal(s, [ev] + evs) && Run(s, [ev] + evs) == Run(Apply(s, ev), evs)
  {
    assert ([ev] + evs)[1..] == evs;
  }

  lemma {:induction false} TwoRuns(s: Net, a: seq<Event>, b: seq<Event>)
    requires Legal(s, a) && Legal(Run(s, a), b)
    ensures Legal(s, a + b) && Run(s, a + b) == Run(Run(s, a), b)
    decreases |a|
  {
    hide Handle;
    if a == [] {
      assert a + b == b;
    } else {
      TwoRuns(Apply(s, a[0]), a[1..], b);
      assert (a + b)[1..] == a[1..] + b;
    }
  }

  // Agent r receives m, which is known to leave it as `n` and make it send `out`.
  lemma {:induction false} Received(s: Net, r: Addr, m: Msg, n: Node, out: seq<Msg>)
    requires r < |s.nodes| && m in s.msgs && Handle(s.nodes[r], Deliver(r, m)) == (n, out)
    ensures var t := Apply(s, Deliver(r, m));
      && Possible(s, Deliver(r, m)) && t.nodes == s.nodes[r := n] && s.msgs <= t.msgs
      && forall k :: k in out ==> k in t.msgs
  {}

  // ---------- the way out ----------

  // The copy of the request that path[j] receives.
  ghost function Outbound(path: seq<Addr>, j: nat): Msg
    requires |path| >= 3 && 1 <= j < |path|
  {
    Rreq(path[0], 4, Far(path), 0, 1, j - 1, if j == 1 then 0 else path[1], 31 - j, path[j - 1])
  }

  // The agent path[j] on the way, once it has.
  ghost function Asked(c: Setup, path: seq<Addr>, j: nat): Node
    requires |path| >= 3 && 1 <= j < |path|
  {
    Newcomer(c, path[j]).(
      table := map[path[0] := Entry(path[0], 4, Finite(j), Up, [Path(path[j - 1], j, path[1])], 0, false)],
      ids := map[(path[0], 1) := 0])
  }

  lemma {:induction false} OutStep(c: Setup, path: seq<Addr>, j: nat, size: nat)
    requires Way(path, size) && 1 <= j < |path| - 1
    ensures Handle(Newcomer(c, path[j]), Deliver(path[j], Outbound(path, j))) == (Asked(c, path, j), [Outbound(path, j + 1)])
  {
    var n, m := Newcomer(c, path[j]), Outbound(path, j);
    assert path[j] != path[0] && path[j] != Far(path) && path[0] != Far(path);
    var p := Path(path[j - 1], j, path[1]);
    assert FirstHop(n, m) == path[1];
    assert ReversePath(n, Fresh(path[0]), m) == Learned(Restart(Fresh(path[0]), 4, p), true, false);
    assert [p][..0] == [] && MaxCount([]) == 0 && MaxCount([p]) == j;
    assert RecvRequest(n, m).0.table == Asked(c, path, j).table;
    assert RecvRequest(n, m).0.ids == Asked(c, path, j).ids;
  }

  // The agents of the way from path[j] on are as new, and those before have been asked.
  ghost predicate AskedTo(s: Net, c: Setup, path: seq<Addr>, j: nat) {
    && |path| >= 3 && 1 <= j < |path|
    && (forall i :: 1 <= i < j ==> path[i] < |s.nodes| && s.nodes[path[i]] == Asked(c, path, i))
    && (forall i :: j <= i < |path| - 1 ==> path[i] < |s.nodes| && s.nodes[path[i]] == Newcomer(c, path[i]))
  }

  // Only agents strictly between the ends of the path differ.
  ghost predicate OnlyBetween(s: Net, t: Net, path: seq<Addr>) {
    && |path| >= 3 && |t.nodes| == |s.nodes| && s.msgs <= t.msgs
    && forall r: Addr :: r < |s.nodes| && r !in path[1..|path| - 1] ==> t.nodes[r] == s.nodes[r]
  }

  lemma {:induction false} AskedNext(s: Net, t: Net, c: Setup, path: seq<Addr>, j: nat)
    requires NoRepeats(path) && AskedTo(s, c, path, j) && j < |path| - 1
    requires t.nodes == s.nodes[path[j] := Asked(c, path, j)] && s.msgs <= t.msgs
    ensures AskedTo(t, c, path, j + 1) && OnlyBetween(s, t, path)
  {
    hide Asked, Newcomer;
    assert path[j] == path[1..|path| - 1][j - 1];
    forall i | 1 <= i < |path| - 1 && i != j ensures path[i] != path[j] {}
  }

  lemma {:induction false} BetweenTwice(s: Net, t: Net, u: Net, path: seq<Addr>)
    requires OnlyBetween(s, t, path) && OnlyBetween(t, u, path)
    ensures OnlyBetween(s, u, path)
  {}

  // The request runs from path[j] to the last agent before the end.
  lemma {:induction false} Spread(s: Net, c: Setup, path: seq<Addr>, j: nat) returns (evs: seq<Event>)
    requires Way(path, |s.nodes|) && AskedTo(s, c, path, j) && Outbound(path, j) in s.msgs
    ensures Legal(s, evs)
    ensures var t := Run(s, evs);
      AskedTo(t, c, path, |path| - 1) && OnlyBetween(s, t, path) && Outbound(path, |path| - 1) in t.msgs
    decreases |path| - j
  {
    if j == |path| - 1 {
      evs := [];
    } else {
      var ev := Deliver(path[j], Outbound(path, j));
      OutStep(c, path, j, |s.nodes|);
      hide Handle, Asked;
      Received(s, path[j], Outbound(path, j), Asked(c, path, j), [Outbound(path, j + 1)]);
      var t := Apply(s, ev);
      AskedNext(s, t, c, path, j);
      assert Outbound(path, j + 1) in [Outbound(path, j + 1)];
      hide Apply, AskedTo, OnlyBetween, Outbound, Run, Legal, Possible;
      var rest := Spread(t, c, path, j + 1);
      OneStep(s, ev, rest);
      evs := [ev] + rest;
      BetweenTwice(s, t, Run(t, rest), path);
    }
  }

  // ---------- the way back ----------

  // The copy of the reply that path[j] receives.
  ghost function Homeward(path: seq<Addr>, j: nat): Msg
    requires |path| >= 3 && j < |path| - 1
  {
    Rrep(Far(path), 2, |path| - 2 - j, path[|path| - 2], 1, path[0], 32 + j - |path|, path[j + 1], path[j])
  }

  // The agent path[j] on the way, once it has.
  ghost function Told(c: Setup, path: seq<Addr>, j: nat): Node
    requires |path| >= 3 && 1 <= j < |path| - 1
  {
    var n := Asked(c, path, j);
    n.(table := n.table[Far(path) :=
         Entry(Far(path), 2, Finite(|path| - 1 - j), Up, [Path(path[j + 1], |path| - 1 - j, path[|path| - 2])], 0, true)],
       ids := map[(path[0], 1) := 1])
  }

  lemma {:induction false} HomeStep(c: Setup, path: seq<Addr>, j: nat, size: nat)
    requires Way(path, size) && 1 <= j < |path| - 1
    ensures Handle(Asked(c, path, j), Deliver(path[j], Homeward(path, j))) == (Told(c, path, j), [Homeward(path, j - 1)])
  {
    var n, m := Asked(c, path, j), Homeward(path, j);
    assert path[j] != path[0] && path[j] != Far(path) && path[0] != Far(path);
    var h := |path| - 1 - j;
    var p := Path(path[j + 1], h, path[|path| - 2]);
    assert ForwardPath(n, Fresh(Far(path)), m) == (Restart(Fresh(Far(path)), 2, p), true);
    assert [p][..0] == [] && MaxCount([]) == 0 && MaxCount([p]) == h;
    assert RecvReply(n, m).0.table == Told(c, path, j).table;
    assert RecvReply(n, m).0.ids == Told(c, path, j).ids;
  }

  // The agents of the way after path[j] have been told, and the others asked.
  ghost predicate ToldFrom(s: Net, c: Setup, path: seq<Addr>, j: nat) {
    && |path| >= 3 && j < |path| - 1
    && (forall i :: 1 <= i <= j ==> path[i] < |s.nodes| && s.nodes[path[i]] == Asked(c, path, i))
    && (forall i :: j < i < |path| - 1 ==> path[i] < |s.nodes| && s.nodes[path[i]] == Told(c, path, i))
  }

  lemma {:induction false} ToldNext(s: Net, t: Net, c: Setup, path: seq<Addr>, j: nat)
    requires NoRepeats(path) && ToldFrom(s, c, path, j) && 1 <= j
    requires t.nodes == s.nodes[path[j] := Told(c, path, j)] && s.msgs <= t.msgs
    ensures ToldFrom(t, c, path, j - 1) && OnlyBetween(s, t, path)
  {
    hide Asked, Told;
    assert path[j] == path[1..|path| - 1][j - 1];
    forall i | 1 <= i < |path| - 1 && i != j ensures path[i] != path[j] {}
  }

  // The reply runs from path[j] to the first agent after the start.
  lemma {:induction false} Return(s: Net, c: Setup, path: seq<Addr>, j: nat) returns (evs: seq<Event>)
    requires Way(path, |s.nodes|) && ToldFrom(s, c, path, j) && Homeward(path, j) in s.msgs
    ensures Legal(s, evs)
    ensures var t := Run(s, evs); ToldFrom(t, c, path, 0) && OnlyBetween(s, t, path) && Homeward(path, 0) in t.msgs
    decreases j
  {
    if j == 0 {
      evs := [];
    } else {
      var ev := Deliver(path[j], Homeward(path, j));
      assert j < |path| - 1 && NoRepeats(path) && path[j] < |s.nodes| && s.nodes[path[j]] == Asked(c, path, j);
      HomeStep(c, path, j, |s.nodes|);
      hide *;
      Received(s, path[j], Homeward(path, j), Told(c, path, j), [Homeward(path, j - 1)]);
      var t := Apply(s, ev);
      ToldNext(s, t, c, path, j);
      assert Homeward(path, j - 1) in [Homeward(path, j - 1)];
      var rest := Return(t, c, path, j - 1);
      OneStep(s, ev, rest);
      evs := [ev] + rest;
      BetweenTwice(s, t, Run(t, rest), path);
    }
  }

  // ---------- the two ends ----------

  // The path by which the far end of `path` got the request, and the one by which its
  // start got the reply.
  ghost function WayBack(path: seq<Addr>): Path
    requires |path| >= 3
  {
    Path(path[|path| - 2], |path| - 1, path[1])
  }

  ghost function WayThere(path: seq<Addr>): Path
    requires |path| >= 3
  {
    Path(path[1], |path| - 1, path[|path| - 2])
  }

  // Two ways with the same ends and nothing else in common.
  ghost predicate Disjointed(p: seq<Addr>, q: seq<Addr>, size: nat) {
    && Way(p, size) && Way(q, size) && p[0] == q[0] && Far(p) == Far(q)
    && forall i, j :: 1 <= i < |p| - 1 && 1 <= j < |q| - 1 ==> p[i] != q[j]
  }

  // The agents may keep both paths: the second is at most `lenDiff` longer.
  ghost predicate TwoWays(c: Setup, p: seq<Addr>, q: seq<Addr>, size: nat) {
    Disjointed(p, q, size) && c.maxPaths >= 2 && c.lenDiff >= 0 && |q| - |p| <= c.lenDiff
  }

  lemma {:induction false} ApartEnds(c: Setup, p: seq<Addr>, q: seq<Addr>, size: nat)
    requires TwoWays(c, p, q, size)
    ensures p[1] != q[1] && p[|p| - 2] != q[|q| - 2]
  {}

  ghost function OneWay(n: Node, d: Addr, seqno: nat, paths: seq<Path>): Node {
    n.(table := n.table[d := Entry(d, seqno, Infinity, Up, paths, 0, false)])
  }

  // The far end, once the request has come along the first way, and along both.
  ghost function End1(c: Setup, p: seq<Addr>): Node
    requires |p| >= 3
  {
    OneWay(Newcomer(c, Far(p)), p[0], 4, [WayBack(p)]).(ids := map[(p[0], 1) := 0])
  }

  ghost function End2(c: Setup, p: seq<Addr>, q: seq<Addr>): Node
    requires |p| >= 3 && |q| >= 3
  {
    OneWay(Newcomer(c, Far(p)), p[0], 4, [WayBack(p), WayBack(q)]).(ids := map[(p[0], 1) := 0])
  }

  lemma {:induction false} EndFirst(c: Setup, p: seq<Addr>, size: nat)
    requires Way(p, size)
    ensures Handle(Newcomer(c, Far(p)), Deliver(Far(p), Outbound(p, |p| - 1))) == (End1(c, p), [Homeward(p, |p| - 2)])
  {
    var n, m := Newcomer(c, Far(p)), Outbound(p, |p| - 1);
    assert p[0] != Far(p);
    assert ReversePath(n, Fresh(p[0]), m) == Learned(Restart(Fresh(p[0]), 4, WayBack(p)), true, false);
    assert RecvRequest(n, m).0.table == End1(c, p).table && RecvRequest(n, m).0.ids == End1(c, p).ids;
  }

  lemma {:induction false} MinOfOne(a: Path, b: Path)
    requires a.hopcount <= 255
    ensures MinCount([a]) == a.hopcount && MinCount([a, b]) == if b.hopcount < a.hopcount then b.hopcount else a.hopcount
  {
    assert [a][..0] == [] && [a, b][..1] == [a];
  }

  lemma {:induction false} EndSecond(c: Setup, p: seq<Addr>, q: seq<Addr>, size: nat)
    requires TwoWays(c, p, q, size)
    ensures Handle(End1(c, p), Deliver(Far(p), Outbound(q, |q| - 1))) == (End2(c, p, q), [Homeward(q, |q| - 2)])
  {
    var n, m := End1(c, p), Outbound(q, |q| - 1);
    assert p[0] != Far(p);
    ApartEnds(c, p, q, size);
    MinOfOne(WayBack(p), WayBack(q));
    var e := n.table[p[0]];
    assert [WayBack(p)] + [WayBack(q)] == [WayBack(p), WayBack(q)];
    assert ReversePath(n, e, m) == Learned(e.(paths := [WayBack(p), WayBack(q)]), true, false);
    assert RecvRequest(n, m).0.table == End2(c, p, q).table && RecvRequest(n, m).0.ids == End2(c, p, q).ids;
  }

  // The start: searching, with one reply, and with both.
  ghost function Start0(c: Setup, p: seq<Addr>): Node
    requires |p| >= 3
  {
    var n := Newcomer(c, p[0]);
    n.(seqno := 4, bid := 2, table := map[Far(p) := Fresh(Far(p))])
  }

  ghost function Start1(c: Setup, p: seq<Addr>): Node
    requires |p| >= 3
  {
    OneWay(Start0(c, p), Far(p), 2, [WayThere(p)])
  }

  ghost function Start2(c: Setup, p: seq<Addr>, q: seq<Addr>): Node
    requires |p| >= 3 && |q| >= 3
  {
    OneWay(Start0(c, p), Far(p), 2, [WayThere(p), WayThere(q)])
  }

  lemma {:induction false} Searches(c: Setup, p: seq<Addr>, size: nat)
    requires Way(p, size)
    ensures Handle(Newcomer(c, p[0]), Discover(p[0], Far(p), 30)) == (Start0(c, p), [Outbound(p, 1)])
  {
    assert SendRequest(Newcomer(c, p[0]), Far(p), 30).0.table == Start0(c, p).table;
  }

  lemma {:induction false} StartFirst(c: Setup, p: seq<Addr>, size: nat)
    requires Way(p, size)
    ensures Handle(Start0(c, p), Deliver(p[0], Homeward(p, 0))) == (Start1(c, p), [])
  {
    var n, m := Start0(c, p), Homeward(p, 0);
    assert p[0] != Far(p);
    assert ForwardPath(n, Fresh(Far(p)), m) == (Restart(Fresh(Far(p)), 2, WayThere(p)), true);
    assert RecvReply(n, m).0.table == Start1(c, p).table;
  }

  lemma {:induction false} StartSecond(c: Setup, p: seq<Addr>, q: seq<Addr>, size: nat)
    requires TwoWays(c, p, q, size)
    ensures Handle(Start1(c, p), Deliver(p[0], Homeward(q, 0))) == (Start2(c, p, q), [])
  {
    var n, m := Start1(c, p), Homeward(q, 0);
    assert p[0] != Far(p);
    ApartEnds(c, p, q, size);
    MinOfOne(WayThere(p), WayThere(q));
    var e := n.table[Far(p)];
    assert [WayThere(p)] + [WayThere(q)] == [WayThere(p), WayThere(q)];
    assert ForwardPath(n, e, m) == (e.(paths := [WayThere(p), WayThere(q)]), true);
    assert RecvReply(n, m).0.table == Start2(c, p, q).table;
  }

  // ---------- the whole discovery ----------

  datatype Stage = Untouched | AllAsked | AllTold

  ghost predicate At(s: Net, c: Setup, path: seq<Addr>, stage: Stage) {
    && |path| >= 3
    && match stage
       case Untouched => AskedTo(s, c, path, 1)
       case AllAsked => AskedTo(s, c, path, |path| - 1)
       case AllTold => ToldFrom(s, c, path, 0)
  }

  // The agents between the ends of the two ways, and those at the ends.
  ghost predicate State(s: Net, c: Setup, p: seq<Addr>, q: seq<Addr>, a: Stage, b: Stage, start: Node, end: Node) {
    && Disjointed(p, q, |s.nodes|) && At(s, c, p, a) && At(s, c, q, b)
    && s.nodes[p[0]] == start && s.nodes[Far(p)] == end
  }

  lemma {:induction false} Swapped(s: Net, c: Setup, p: seq<Addr>, q: seq<Addr>, a: Stage, b: Stage, start: Node, end: Node)
    requires State(s, c, p, q, a, b, start, end)
    ensures State(s, c, q, p, b, a, start, end)
  {}

  // Nothing between the ends of the path differs.
  ghost predicate SameOn(s: Net, t: Net, path: seq<Addr>) {
    |t.nodes| == |s.nodes| && forall i :: 1 <= i < |path| - 1 && path[i] < |s.nodes| ==> t.nodes[path[i]] == s.nodes[path[i]]
  }

  lemma {:induction false} AtSame(s: Net, t: Net, c: Setup, path: seq<Addr>, stage: Stage)
    requires At(s, c, path, stage) && SameOn(s, t, path)
    ensures At(t, c, path, stage)
  {
    hide Asked, Told, Newcomer;
  }

  lemma {:induction false} Elsewhere(s: Net, t: Net, p: seq<Addr>, q: seq<Addr>)
    requires Disjointed(p, q, |s.nodes|) && OnlyBetween(s, t, p)
    ensures SameOn(s, t, q) && t.nodes[p[0]] == s.nodes[p[0]] && t.nodes[Far(p)] == s.nodes[Far(p)]
  {
    NotBetween(p, p[0]);
    NotBetween(p, Far(p));
    forall i | 1 <= i < |q| - 1 && q[i] < |s.nodes| ensures t.nodes[q[i]] == s.nodes[q[i]] {
      NotBetween(p, q[i]);
    }
  }

  lemma {:induction false} NotBetween(p: seq<Addr>, r: Addr)
    requires |p| >= 3 && forall k :: 1 <= k < |p| - 1 ==> p[k] != r
    ensures r !in p[1..|p| - 1]
  {}

  // The agents between the ends of `p` act, the others do not.
  lemma {:induction false} Acted(s: Net, t: Net, c: Setup, p: seq<Addr>, q: seq<Addr>, a: Stage, b: Stage, start: Node, end: Node, next: Stage)
    requires State(s, c, p, q, a, b, start, end) && OnlyBetween(s, t, p) && At(t, c, p, next)
    ensures State(t, c, p, q, next, b, start, end)
  {
    hide At;
    Elsewhere(s, t, p, q);
    AtSame(s, t, c, q, b);
  }

  // One of the ends acts.
  lemma {:induction false} EndActs(s: Net, t: Net, c: Setup, p: seq<Addr>, q: seq<Addr>, a: Stage, b: Stage, start: Node, end: Node, n: Node, atStart: bool)
    requires State(s, c, p, q, a, b, start, end)
    requires t.nodes == s.nodes[(if atStart then p[0] else Far(p)) := n]
    ensures State(t, c, p, q, a, b, if atStart then n else start, if atStart then end else n)
  {
    hide At;
    var r := if atStart then p[0] else Far(p);
    assert p[0] != Far(p);
    forall i | 1 <= i < |p| - 1 ensures p[i] != r {}
    forall i | 1 <= i < |q| - 1 ensures q[i] != r {}
    AtSame(s, t, c, p, a);
    AtSame(s, t, c, q, b);
  }

  // The request runs along one way, and the end receives it.
  lemma {:induction false} GoesOut(s: Net, c: Setup, p: seq<Addr>, q: seq<Addr>, b: Stage, start: Node, end: Node, n: Node) returns (evs: seq<Event>)
    requires State(s, c, p, q, Untouched, b, start, end) && Outbound(p, 1) in s.msgs
    requires Handle(end, Deliver(Far(p), Outbound(p, |p| - 1))) == (n, [Homeward(p, |p| - 2)])
    ensures Legal(s, evs)
    ensures var t := Run(s, evs); State(t, c, p, q, AllAsked, b, start, n) && s.msgs <= t.msgs && Homeward(p, |p| - 2) in t.msgs
  {
    hide Outbound, Homeward, Handle, Asked, Told, Legal, Run, AskedTo, OnlyBetween;
    var out := Spread(s, c, p, 1);
    var t := Run(s, out);
    assert s.msgs <= t.msgs by { BetweenMsgs(s, t, p); }
    Acted(s, t, c, p, q, Untouched, b, start, end, AllAsked);
    Received(t, Far(p), Outbound(p, |p| - 1), n, [Homeward(p, |p| - 2)]);
    var ev := Deliver(Far(p), Outbound(p, |p| - 1));
    var u := Apply(t, ev);
    EndActs(t, u, c, p, q, AllAsked, b, start, end, n, false);
    assert Homeward(p, |p| - 2) in [Homeward(p, |p| - 2)];
    hide Apply, State, Possible;
    NoStep(u);
    OneStep(t, ev, []);
    TwoRuns(s, out, [ev] + []);
    evs := out + ([ev] + []);
  }

  lemma {:induction false} BetweenMsgs(s: Net, t: Net, p: seq<Addr>)
    requires OnlyBetween(s, t, p)
    ensures s.msgs <= t.msgs
  {}

  lemma {:induction false} NoStep(s: Net)
    ensures Legal(s, []) && Run(s, []) == s
  {}

  lemma {:induction false} AskedAll(s: Net, c: Setup, p: seq<Addr>)
    requires At(s, c, p, AllAsked)
    ensures ToldFrom(s, c, p, |p| - 2)
  {}

  // The reply runs back along one way, and the start receives it.
  lemma {:induction false} ComesHome(s: Net, c: Setup, p: seq<Addr>, q: seq<Addr>, b: Stage, start: Node, end: Node, n: Node) returns (evs: seq<Event>)
    requires State(s, c, p, q, AllAsked, b, start, end) && Homeward(p, |p| - 2) in s.msgs
    requires Handle(start, Deliver(p[0], Homeward(p, 0))) == (n, [])
    ensures Legal(s, evs)
    ensures var t := Run(s, evs); State(t, c, p, q, AllTold, b, n, end) && s.msgs <= t.msgs
  {
    AskedAll(s, c, p);
    hide Outbound, Homeward, Handle, Asked, Told, Legal, Run, ToldFrom, AskedTo, OnlyBetween;
    var out := Return(s, c, p, |p| - 2);
    var t := Run(s, out);
    assert s.msgs <= t.msgs by { BetweenMsgs(s, t, p); }
    Acted(s, t, c, p, q, AllAsked, b, start, end, AllTold);
    Received(t, p[0], Homeward(p, 0), n, []);
    var ev := Deliver(p[0], Homeward(p, 0));
    var u := Apply(t, ev);
    EndActs(t, u, c, p, q, AllTold, b, start, end, n, true);
    hide Apply, State, Possible;
    NoStep(u);
    OneStep(t, ev, []);
    TwoRuns(s, out, [ev] + []);
    evs := out + ([ev] + []);
  }

  // The search begins.
  lemma {:induction false} Begins(c: Setup, p: seq<Addr>, q: seq<Addr>, size: nat)
    requires Disjointed(p, q, size)
    ensures var s := Initial(size, c.maxPaths, c.lenDiff, c.memory);
      var ev := Discover(p[0], Far(p), 30);
      && Possible(s, ev)
      && var t := Apply(s, ev);
         State(t, c, p, q, Untouched, Untouched, Start0(c, p), Newcomer(c, Far(p))) && Outbound(p, 1) in t.msgs && Outbound(q, 1) == Outbound(p, 1)
  {
    var s := Initial(size, c.maxPaths, c.lenDiff, c.memory);
    var ev := Discover(p[0], Far(p), 30);
    forall r: Addr | r < size ensures s.nodes[r] == Newcomer(c, r) {}
    hide Initial, Newcomer;
    assert State(s, c, p, q, Untouched, Untouched, Newcomer(c, p[0]), Newcomer(c, Far(p)));
    Searches(c, p, size);
    assert Outbound(p, 1) in [Outbound(p, 1)];
    EndActs(s, Apply(s, ev), c, p, q, Untouched, Untouched, Newcomer(c, p[0]), Newcomer(c, Far(p)), Start0(c, p), true);
    hide State, Handle;
  }

  // AOMDV finds two paths: there is a run of a new network, with any two disjoint ways
  // between two agents in it, after which the start holds both ways to the far end, the
  // far end both ways to the start, and each agent on them the way it is on.
  lemma {:induction false} FindsBoth(size: nat, c: Setup, p: seq<Addr>, q: seq<Addr>) returns (evs: seq<Event>)
    requires TwoWays(c, p, q, size)
    ensures Legal(Initial(size, c.maxPaths, c.lenDiff, c.memory), evs)
    ensures BothWays(Run(Initial(size, c.maxPaths, c.lenDiff, c.memory), evs), p, q)
  {
    var s := Initial(size, c.maxPaths, c.lenDiff, c.memory);
    var ev := Discover(p[0], Far(p), 30);
    assert |p| >= 3 && |q| >= 3;
    Begins(c, p, q, size);
    var s0 := Apply(s, ev);
    hide *;
    var rest := Continues(s0, size, c, p, q);
    OneStep(s, ev, rest);
    evs := [ev] + rest;
    BothFound(Run(s0, rest), c, p, q);
  }

  ghost predicate BothWays(t: Net, p: seq<Addr>, q: seq<Addr>) {
    && |p| >= 3 && |q| >= 3 && p[0] < |t.nodes| && Far(p) < |t.nodes|
    && Get(t.nodes[p[0]].table, Far(p)).paths == [WayThere(p), WayThere(q)]
    && Get(t.nodes[Far(p)].table, p[0]).paths == [WayBack(p), WayBack(q)]
    && Follows(t, p) && Follows(t, q)
  }

  lemma {:induction false} Continues(s0: Net, size: nat, c: Setup, p: seq<Addr>, q: seq<Addr>) returns (evs: seq<Event>)
    requires TwoWays(c, p, q, size) && |p| >= 3 && |q| >= 3
    requires State(s0, c, p, q, Untouched, Untouched, Start0(c, p), Newcomer(c, Far(p)))
    requires Outbound(p, 1) in s0.msgs && Outbound(q, 1) == Outbound(p, 1)
    ensures Legal(s0, evs) && State(Run(s0, evs), c, p, q, AllTold, AllTold, Start2(c, p, q), End2(c, p, q))
  {
    assert Way(p, size);
    EndFirst(c, p, size);
    EndSecond(c, p, q, size);
    StartFirst(c, p, size);
    StartSecond(c, p, q, size);
    hide *;
    var e1, e2, e3, e4 := AllPhases(s0, c, p, q, Start0(c, p), Start1(c, p), Start2(c, p, q), Newcomer(c, Far(p)), End1(c, p), End2(c, p, q));
    var s1 := Run(s0, e1);
    var s2 := Run(s1, e2);
    TwoRuns(s2, e3, e4);
    TwoRuns(s1, e2, e3 + e4);
    TwoRuns(s0, e1, e2 + (e3 + e4));
    evs := e1 + (e2 + (e3 + e4));
  }

  lemma {:induction false} AllPhases(s0: Net, c: Setup, p: seq<Addr>, q: seq<Addr>, start0: Node, start1: Node, start2: Node, end0: Node, end1: Node, end2: Node)
      returns (e1: seq<Event>, e2: seq<Event>, e3: seq<Event>, e4: seq<Event>)
    requires State(s0, c, p, q, Untouched, Untouched, start0, end0) && Outbound(p, 1) in s0.msgs && Outbound(q, 1) == Outbound(p, 1)
    requires Handle(end0, Deliver(Far(p), Outbound(p, |p| - 1))) == (end1, [Homeward(p, |p| - 2)])
    requires Handle(end1, Deliver(Far(p), Outbound(q, |q| - 1))) == (end2, [Homeward(q, |q| - 2)])
    requires Handle(start0, Deliver(p[0], Homeward(p, 0))) == (start1, [])
    requires Handle(start1, Deliver(p[0], Homeward(q, 0))) == (start2, [])
    ensures Legal(s0, e1) && Legal(Run(s0, e1), e2) && Legal(Run(Run(s0, e1), e2), e3) && Legal(Run(Run(Run(s0, e1), e2), e3), e4)
    ensures State(Run(Run(Run(Run(s0, e1), e2), e3), e4), c, p, q, AllTold, AllTold, start2, end2)
  {
    assert Far(p) == Far(q) && p[0] == q[0];
    hide Outbound, Homeward, Handle, Legal, Run, State, Way, Disjointed;
    e1 := GoesOut(s0, c, p, q, Untouched, start0, end0, end1);
    var s1 := Run(s0, e1);
    Swapped(s1, c, p, q, AllAsked, Untouched, start0, end1);
    e2 := GoesOut(s1, c, q, p, AllAsked, start0, end1, end2);
    var s2 := Run(s1, e2);
    Swapped(s2, c, q, p, AllAsked, AllAsked, start0, end2);
    e3 := ComesHome(s2, c, p, q, AllAsked, start0, end2, start1);
    var s3 := Run(s2, e3);
    Swapped(s3, c, p, q, AllTold, AllAsked, start1, end2);
    e4 := ComesHome(s3, c, q, p, AllTold, start1, end2, start2);
    Swapped(Run(s3, e4), c, q, p, AllTold, AllTold, start2, end2);
  }

  // Each agent of the path, but for the last, has a path through the next to the far end;
  // each but for the first, one through the agent before it to the start.
  ghost predicate Follows(t: Net, path: seq<Addr>) {
    path != [] && forall k :: 0 <= k < |path| - 1 ==>
      Edge(t, path[k], path[k + 1], Far(path)) && Edge(t, path[k + 1], path[k], path[0])
  }

  lemma {:induction false} BothFound(t: Net, c: Setup, p: seq<Addr>, q: seq<Addr>)
    requires |p| >= 3 && |q| >= 3 && State(t, c, p, q, AllTold, AllTold, Start2(c, p, q), End2(c, p, q))
    ensures BothWays(t, p, q)
  {
    assert p[0] != Far(p);
    FollowsWay(t, c, p, [WayThere(p), WayThere(q)], [WayBack(p), WayBack(q)]);
    FollowsWay(t, c, q, [WayThere(p), WayThere(q)], [WayBack(p), WayBack(q)]);
  }

  lemma {:induction false} FollowsWay(t: Net, c: Setup, path: seq<Addr>, there: seq<Path>, back: seq<Path>)
    requires Way(path, |t.nodes|) && At(t, c, path, AllTold)
    requires Get(t.nodes[path[0]].table, Far(path)).paths == there && WayThere(path) in there
    requires Get(t.nodes[Far(path)].table, path[0]).paths == back && WayBack(path) in back
    ensures Follows(t, path)
  {
    forall k | 0 <= k < |path| - 1
      ensures Edge(t, path[k], path[k + 1], Far(path)) && Edge(t, path[k + 1], path[k], path[0])
    {
      if k > 0 { InTheWay(t, c, path, k); }
      if k + 1 < |path| - 1 { InTheWay(t, c, path, k + 1); }
    }
  }

  lemma {:induction false} InTheWay(t: Net, c: Setup, path: seq<Addr>, k: nat)
    requires Way(path, |t.nodes|) && At(t, c, path, AllTold) && 1 <= k < |path| - 1
    ensures Edge(t, path[k], path[k + 1], Far(path)) && Edge(t, path[k], path[k - 1], path[0])
  {
    assert t.nodes[path[k]] == Told(c, path, k);
    ToldThrough(c, path, k, |t.nodes|);
    assert path[k + 1] < |t.nodes| && path[k - 1] < |t.nodes|;
    hide Told, At, Get, Through;
  }

  lemma {:induction false} ToldThrough(c: Setup, path: seq<Addr>, k: nat, size: nat)
    requires Way(path, size) && 1 <= k < |path| - 1
    ensures Through(Get(Told(c, path, k).table, Far(path)).paths, path[k + 1])
    ensures Through(Get(Told(c, path, k).table, path[0]).paths, path[k - 1])
  {
    assert path[0] != Far(path);
    var there, back := Get(Told(c, path, k).table, Far(path)).paths, Get(Told(c, path, k).table, path[0]).paths;
    assert there[0] in there && back[0] in back;
  }
}
