// Safety of AOMDV over whole runs: multipath loop freedom, disjoint path lists,
// lost neighbours, and the assertions in the handlers.
module AomdvSafety {
  import opened Wrappers
  import opened AomdvRoute
  import opened AomdvAgent
  import opened AomdvNetwork

  lemma {:induction false} InitialInv(size: nat, maxPaths: nat, lenDiff: int, memory: (Addr, Addr) -> nat)
    ensures Inv(Initial(size, maxPaths, lenDiff, memory))
  {}

  lemma {:induction false} RunInv(s: Net, evs: seq<Event>)
    requires Inv(s) && Legal(s, evs)
    ensures Inv(Run(s, evs)) && |Run(s, evs).nodes| == |s.nodes|
    decreases |evs|
  {
    hide Inv, Sound;
    if evs != [] {
      HandlerSound(s, evs[0]);
      SoundKeepsInv(s, evs[0]);
      RunInv(Apply(s, evs[0]), evs[1..]);
    }
  }

  lemma {:induction false} ReachableInv(size: nat, maxPaths: nat, lenDiff: int, memory: (Addr, Addr) -> nat, evs: seq<Event>)
    requires Legal(Initial(size, maxPaths, lenDiff, memory), evs)
    ensures Inv(Run(Initial(size, maxPaths, lenDiff, memory), evs))
  {
    InitialInv(size, maxPaths, lenDiff, memory);
    RunInv(Initial(size, maxPaths, lenDiff, memory), evs);
  }

  // Over a whole run an advertised hop count, once fixed, stays until the
  // sequence number grows, and sequence numbers never fall.
  lemma {:induction false} AdvertisedFixed(s: Net, evs: seq<Event>, r: Addr, d: Addr)
    requires Inv(s) && Legal(s, evs) && r < |s.nodes|
    ensures |Run(s, evs).nodes| == |s.nodes|
    ensures Evolves(Get(s.nodes[r].table, d), Get(Run(s, evs).nodes[r].table, d))
    decreases |evs|
  {
    hide Inv, Handle, Get;
    if evs != [] {
      HandlerSound(s, evs[0]);
      SoundKeepsInv(s, evs[0]);
      assert Evolves(Get(s.nodes[r].table, d), Get(Apply(s, evs[0]).nodes[r].table, d));
      AdvertisedFixed(Apply(s, evs[0]), evs[1..], r, d);
    }
  }

  // ---------- loop freedom ----------

  // Agent `i` stores a path to `d` through agent `j`.
  ghost predicate Edge(s: Net, i: Addr, j: Addr, d: Addr) {
    i < |s.nodes| && j < |s.nodes| && Through(Get(s.nodes[i].table, d).paths, j)
  }

  // A cycle over stored paths to `d`, mixing them freely, that avoids `d`.
  ghost predicate Cycle(s: Net, p: seq<Addr>, d: Addr) {
    && |p| >= 2 && p[0] == p[|p| - 1]
    && (forall k :: 0 <= k < |p| ==> p[k] != d)
    && (forall k :: 0 <= k < |p| - 1 ==> Edge(s, p[k], p[k + 1], d))
  }

  ghost predicate Closer(e: Entry, f: Entry) {
    e.seqno > f.seqno
    || (e.seqno == f.seqno && e.advertised.Finite? && (f.advertised.Infinity? || e.advertised.n < f.advertised.n))
  }

  // Every path of an entry leads to an agent with a larger sequence number, or
  // the same and an advertised hop count below the path's, which is at most the
  // entry's own.
  lemma {:induction false} PathRank(s: Net, i: Addr, d: Addr, p: Path)
    requires Inv(s) && i < |s.nodes| && p in Get(s.nodes[i].table, d).paths && p.nexthop != d
    ensures p.nexthop < |s.nodes|
    ensures var e, f := Get(s.nodes[i].table, d), Get(s.nodes[p.nexthop].table, d);
      && (f.seqno > e.seqno || (f.seqno == e.seqno && f.advertised.Finite? && f.advertised.n + 1 == p.hopcount))
      && (e.advertised.Finite? ==> p.hopcount <= e.advertised.n)
  {
    var e := Get(s.nodes[i].table, d);
    assert NodeOk(s, i, s.nodes[i]);
    assert EntryHeard(s.msgs, e) && Heard(s.msgs, PathClaim(e, p));
    var m :| m in s.msgs && ClaimOf(m) == Some(PathClaim(e, p));
    assert MsgOk(s, m);
  }

  lemma {:induction false} EdgeCloser(s: Net, i: Addr, j: Addr, d: Addr)
    requires Inv(s) && Edge(s, i, j, d) && j != d
    ensures Closer(Get(s.nodes[j].table, d), Get(s.nodes[i].table, d))
  {}

  lemma {:induction false} WalkCloser(s: Net, p: seq<Addr>, d: Addr, k: nat)
    requires Inv(s) && 1 <= k < |p|
    requires forall i :: 0 <= i < |p| ==> p[i] != d
    requires forall i :: 0 <= i < |p| - 1 ==> Edge(s, p[i], p[i + 1], d)
    ensures p[0] < |s.nodes| && p[k] < |s.nodes|
    ensures Closer(Get(s.nodes[p[k]].table, d), Get(s.nodes[p[0]].table, d))
    decreases k
  {
    assert Edge(s, p[k - 1], p[k - 1 + 1], d);
    EdgeCloser(s, p[k - 1], p[k], d);
    if k > 1 { WalkCloser(s, p, d, k - 1); }
  }

  lemma {:induction false} NoCycle(s: Net, p: seq<Addr>, d: Addr)
    requires Inv(s)
    ensures !Cycle(s, p, d)
  {
    if Cycle(s, p, d) { WalkCloser(s, p, d, |p| - 1); }
  }

  // AOMDV loop freedom: in every reachable state the union of all stored paths
  // to a destination is free of cycles.
  lemma {:induction false} LoopFree(size: nat, maxPaths: nat, lenDiff: int, memory: (Addr, Addr) -> nat, evs: seq<Event>, p: seq<Addr>, d: Addr)
    requires Legal(Initial(size, maxPaths, lenDiff, memory), evs)
    ensures !Cycle(Run(Initial(size, maxPaths, lenDiff, memory), evs), p, d)
  {
    ReachableInv(size, maxPaths, lenDiff, memory, evs);
    NoCycle(Run(Initial(size, maxPaths, lenDiff, memory), evs), p, d);
  }

  // ---------- path lists ----------

  // Reachable entries hold pairwise disjoint paths, and are up exactly when they
  // hold any.
  lemma {:induction false} PathLists(s: Net, r: Addr, d: Addr)
    requires Inv(s) && r < |s.nodes|
    ensures var e := Get(s.nodes[r].table, d); PairwiseDisjoint(e.paths) && (e.flags == Up <==> e.paths != [])
  {}

  // After the loss of a neighbour no route uses it.
  lemma {:induction false} LostNeighbour(s: Net, r: Addr, id: Addr, d: Addr)
    requires Inv(s) && r < |s.nodes|
    ensures !Through(Get(LinkFailure(s.nodes[r], id).0.table, d).paths, id)
  {
    var n := s.nodes[r];
    assert NodeOk(s, r, n);
    if d in n.table {
      BrokenWorn(n.table[d], id);
      PathLists(s, r, d);
    }
  }

  ghost predicate WithinMax(n: Node) {
    forall d :: d in n.table ==> |n.table[d].paths| <= Max(1, n.maxPaths)
  }

  // No handler lets a path list outgrow the configured maximum.
  lemma {:induction false} BoundedLists(s: Net, ev: Event)
    requires Inv(s) && Possible(s, ev) && WithinMax(s.nodes[ev.r])
    ensures WithinMax(Handle(s.nodes[ev.r], ev).0) && Handle(s.nodes[ev.r], ev).0.maxPaths == s.nodes[ev.r].maxPaths
  {
    hide RecvRequest, RecvReply, RecvError, LinkFailure, RtPurge, EntryOk, PathsHeard;
    var n := s.nodes[ev.r];
    assert NodeOk(s, ev.r, n);
    match ev
    case Deliver(_, m) =>
      if m.Rreq? { BoundedRequest(n, m); }
      else if m.Rrep? { BoundedReply(n, m); }
      else if m.Hello? { BoundedReply(n, Rrep(m.origin, m.originSeqno, 0, n.index, 0, n.index, 0, m.origin, n.index)); }
      else { BoundedError(n, m); }
    case LinkBreaks(_, id) => BoundedFailure(n, id);
    case Expire(_, now, expired) => BoundedPurge(n, now, expired);
    case _ =>
  }

  lemma {:induction false} BoundedError(n: Node, m: Msg)
    requires EntriesOk(n.table) && WithinMax(n) && m.Rerr?
    ensures WithinMax(RecvError(n, m).0) && RecvError(n, m).0.maxPaths == n.maxPaths
  {
    forall d | d in n.table
      ensures |RecvError(n, m).0.table[d].paths| <= |n.table[d].paths|
    {
      DeleteAll(n.table[d].paths, m.sender);
    }
  }

  lemma {:induction false} BoundedFailure(n: Node, id: Addr)
    requires EntriesOk(n.table) && WithinMax(n)
    ensures WithinMax(LinkFailure(n, id).0) && LinkFailure(n, id).0.maxPaths == n.maxPaths
  {
    forall d | d in n.table
      ensures |LinkFailure(n, id).0.table[d].paths| <= |n.table[d].paths|
    {
      DeleteAll(n.table[d].paths, id);
    }
  }

  lemma {:induction false} BoundedPurge(n: Node, now: real, expired: set<(Addr, Addr)>)
    requires EntriesOk(n.table) && WithinMax(n)
    ensures WithinMax(RtPurge(n, now, expired).0) && RtPurge(n, now, expired).0.maxPaths == n.maxPaths
  {
    forall d | d in n.table
      ensures |RtPurge(n, now, expired).0.table[d].paths| <= |n.table[d].paths|
    {
      PurgeIs(n.table[d].paths, Expired(expired, d));
    }
  }

  lemma {:induction false} RunBounded(s: Net, evs: seq<Event>)
    requires Inv(s) && Legal(s, evs) && forall r :: 0 <= r < |s.nodes| ==> WithinMax(s.nodes[r])
    ensures |Run(s, evs).nodes| == |s.nodes|
    ensures forall r :: 0 <= r < |s.nodes| ==> WithinMax(Run(s, evs).nodes[r]) && Run(s, evs).nodes[r].maxPaths == s.nodes[r].maxPaths
    decreases |evs|
  {
    hide Inv, Handle, WithinMax, Sound;
    if evs != [] {
      BoundedLists(s, evs[0]);
      HandlerSound(s, evs[0]);
      SoundKeepsInv(s, evs[0]);
      RunBounded(Apply(s, evs[0]), evs[1..]);
    }
  }

  // In every reachable state an entry's paths have distinct next hops and distinct
  // last hops, there are at most the maximum (read as at least one) of them, and
  // the entry is up exactly when there are any.
  lemma {:induction false} ReachableLists(size: nat, maxPaths: nat, lenDiff: int, memory: (Addr, Addr) -> nat, evs: seq<Event>, r: Addr, d: Addr)
    requires Legal(Initial(size, maxPaths, lenDiff, memory), evs) && r < size
    ensures |Run(Initial(size, maxPaths, lenDiff, memory), evs).nodes| == size
    ensures var e := Get(Run(Initial(size, maxPaths, lenDiff, memory), evs).nodes[r].table, d);
      && PairwiseDisjoint(e.paths) && (e.flags == Up <==> e.paths != []) && |e.paths| <= Max(1, maxPaths)
  {
    var s := Initial(size, maxPaths, lenDiff, memory);
    InitialInv(size, maxPaths, lenDiff, memory);
    assert forall k :: 0 <= k < size ==> WithinMax(s.nodes[k]) && s.nodes[k].maxPaths == maxPaths;
    RunInv(s, evs);
    RunBounded(s, evs);
    hide Run, Inv, Legal;
    PathLists(Run(s, evs), r, d);
    assert WithinMax(Run(s, evs).nodes[r]);
  }

  lemma {:induction false} BoundedRequest(n: Node, m: Msg)
    requires m.Rreq? && WithinMax(n)
    ensures WithinMax(RecvRequest(n, m).0) && RecvRequest(n, m).0.maxPaths == n.maxPaths
  {
    hide ReversePath;
    ReversePathBounded(n, Get(n.table, m.src), m);
  }

  lemma {:induction false} ReversePathBounded(n: Node, e: Entry, m: Msg)
    requires m.Rreq? && |e.paths| <= Max(1, n.maxPaths)
    ensures |ReversePath(n, e, m).e.paths| <= Max(1, n.maxPaths)
  {}

  lemma {:induction false} BoundedReply(n: Node, m: Msg)
    requires m.Rrep? && WithinMax(n)
    ensures WithinMax(RecvReply(n, m).0) && RecvReply(n, m).0.maxPaths == n.maxPaths
  {}

  // ---------- assertions ----------

  // The assertions in the handlers.
  ghost predicate AssertsHold(n: Node, ev: Event) {
    match ev
    case Deliver(_, m) =>
      if m.Rreq? then
        // lines 856, 862 and 959
        && SamePath(Get(n.table, m.src), m.src != n.index, m.srcSeqno, Path(m.sender, m.hopCount + 1, FirstHop(n, m)))
        && (forall d :: d in RecvRequest(n, m).0.table && RecvRequest(n, m).0.table[d].flags == Up
              ==> RecvRequest(n, m).0.table[d].seqno % 2 == 0)
      else if m.Rrep? then
        // lines 1114 and 1117
        SamePath(Get(n.table, m.dst), m.dst != n.index, m.dstSeqno, Path(m.sender, m.hopCount + 1, m.firstHop))
      else if m.Hello? then
        SamePath(Get(n.table, m.origin), m.origin != n.index, m.originSeqno, Path(m.origin, 1, n.index))
      else
        // line 1301
        forall d :: d in n.table && d in m.unreachable && ErrorHits(n.table[d], m.sender, m.unreachable[d])
          ==> n.table[d].seqno % 2 == 0
    case LinkBreaks(_, id) =>
      // lines 486 and 1733
      n.seqno % 2 == 0 && forall d :: d in n.table && Uses(n.table[d], id) ==> n.table[d].seqno % 2 == 0
    case Discover(_, d, _) =>
      // lines 1428 and 1527
      (Get(n.table, d).flags == Up ==> n.memory(d) != INFINITY2) && n.seqno % 2 == 0
    case Forward(_, d) =>
      // line 589
      Get(n.table, d).flags == Up ==> n.memory(d) != INFINITY2
    case Unroutable(_, d) =>
      // line 589
      Get(n.table, d).flags == Up ==> n.memory(d) != INFINITY2
    case Expire(_, now, _) =>
      // line 663
      forall d :: d in n.table && n.table[d].flags == Up && !(RT_EXPIRE < now) ==> n.memory(d) != INFINITY2
    case _ => true
  }

  // An entry that a message with the same sequence number is compared with is
  // up, and a path it already has to the same ends has the length on offer.
  ghost predicate SamePath(e: Entry, relevant: bool, seqno: nat, p: Path) {
    relevant && e.seqno == seqno && p.hopcount >= 1 && Above(e.advertised, p.hopcount - 1) ==>
      && e.flags == Up
      && forall q :: q in e.paths && q.nexthop == p.nexthop && q.lasthop == p.lasthop ==> q.hopcount == p.hopcount
  }

  lemma {:induction false} SamePathHolds(s: Net, r: Addr, d: Addr, m: Msg, p: Path, relevant: bool)
    requires Inv(s) && r < |s.nodes| && m in s.msgs && p.hopcount >= 1
    requires ClaimOf(m).Some? && ClaimOf(m).value == Claim(d, ClaimOf(m).value.seqno, p.nexthop, p.hopcount - 1)
    ensures SamePath(Get(s.nodes[r].table, d), relevant, ClaimOf(m).value.seqno, p)
  {}

  // The entries whose rt_hops the handler asserts on: those it meets while they are up.
  ghost predicate MeetsUp(n: Node, ev: Event, d: Addr) {
    && Get(n.table, d).flags == Up
    && ((ev.Discover? && ev.d == d) || (ev.Forward? && ev.d == d) || (ev.Unroutable? && ev.d == d)
        || (ev.Expire? && ev.now <= RT_EXPIRE))
  }

  // In every sound state the assertions of a handler hold exactly when the memory of
  // the entries it meets while they are up did not happen to hold 255.
  lemma {:induction false} AssertsExactly(s: Net, ev: Event)
    requires Inv(s) && Possible(s, ev)
    ensures AssertsHold(s.nodes[ev.r], ev) <==> forall d: Addr :: MeetsUp(s.nodes[ev.r], ev, d) ==> s.nodes[ev.r].memory(d) != INFINITY2
  {
    hide RecvRequest, SamePath, Sound;
    var n := s.nodes[ev.r];
    assert NodeOk(s, ev.r, n);
    match ev
    case Deliver(_, m) =>
      if m.Rreq? {
        SamePathHolds(s, ev.r, m.src, m, Path(m.sender, m.hopCount + 1, FirstHop(n, m)), m.src != n.index);
        HandlerSound(s, ev);
        UpEven(s.msgs, n, RecvRequest(n, m));
      } else if m.Rrep? {
        SamePathHolds(s, ev.r, m.dst, m, Path(m.sender, m.hopCount + 1, m.firstHop), m.dst != n.index);
      } else if m.Hello? {
        SamePathHolds(s, ev.r, m.origin, m, Path(m.origin, 1, n.index), m.origin != n.index);
      }
    case Discover(_, d, _) => assert MeetsUp(n, ev, d) <==> Get(n.table, d).flags == Up;
    case Forward(_, d) => assert MeetsUp(n, ev, d) <==> Get(n.table, d).flags == Up;
    case Unroutable(_, d) => assert MeetsUp(n, ev, d) <==> Get(n.table, d).flags == Up;
    case Expire(_, now, _) =>
      assert forall d :: d in n.table && n.table[d].flags == Up && !(RT_EXPIRE < now) ==> MeetsUp(n, ev, d);
    case _ =>
  }

  lemma {:induction false} RunMemory(s: Net, evs: seq<Event>)
    requires Inv(s) && Legal(s, evs)
    ensures |Run(s, evs).nodes| == |s.nodes|
    ensures forall r :: 0 <= r < |s.nodes| ==> Run(s, evs).nodes[r].memory == s.nodes[r].memory
    decreases |evs|
  {
    hide Inv, Handle;
    if evs != [] {
      HandlerSound(s, evs[0]);
      SoundKeepsInv(s, evs[0]);
      RunMemory(Apply(s, evs[0]), evs[1..]);
    }
  }

  // If no entry's memory holds 255, no run aborts an agent.
  lemma {:induction false} NeverAborts(size: nat, maxPaths: nat, lenDiff: int, memory: (Addr, Addr) -> nat, evs: seq<Event>, ev: Event)
    requires Legal(Initial(size, maxPaths, lenDiff, memory), evs) && Possible(Run(Initial(size, maxPaths, lenDiff, memory), evs), ev)
    requires forall r: Addr, d: Addr :: memory(r, d) != INFINITY2
    ensures AssertsHold(Run(Initial(size, maxPaths, lenDiff, memory), evs).nodes[ev.r], ev)
  {
    ReachableInv(size, maxPaths, lenDiff, memory, evs);
    InitialInv(size, maxPaths, lenDiff, memory);
    RunMemory(Initial(size, maxPaths, lenDiff, memory), evs);
    AssertsExactly(Run(Initial(size, maxPaths, lenDiff, memory), evs), ev);
  }

  // Agent 1 looks for some destination and agent 0 hears it.
  const Search: Msg := Rreq(1, 4, 7, 0, 1, 0, 0, 30, 1)

  ghost function Opening(): seq<Event> {
    [Discover(1, 7, 30), Deliver(0, Search)]
  }

  // If the memory of agent 0's entry for agent 1 holds 255, forwarding to agent 1 over
  // the route just learnt aborts agent 0.
  lemma {:induction false} MemoryAborts(maxPaths: nat, lenDiff: int, memory: (Addr, Addr) -> nat)
    requires memory(0, 1) == INFINITY2
    ensures Legal(Initial(2, maxPaths, lenDiff, memory), Opening())
    ensures !AssertsHold(Run(Initial(2, maxPaths, lenDiff, memory), Opening()).nodes[0], Forward(0, 1))
  {
    var s := Initial(2, maxPaths, lenDiff, memory);
    assert Handle(s.nodes[1], Opening()[0]).1 == [Search];
    var t := Apply(s, Opening()[0]);
    assert Search in [Search] && t.nodes[0] == s.nodes[0];
    var n := Handle(t.nodes[0], Opening()[1]).0;
    assert n.memory == t.nodes[0].memory && Get(n.table, 1).flags == Up;
    assert Opening()[1..] == [Opening()[1]] && Opening()[1..][1..] == [];
  }

  lemma {:induction false} UpEven(msgs: set<Msg>, n: Node, p: (Node, seq<Msg>))
    requires Sound(msgs, n, p)
    ensures forall d :: d in p.0.table && p.0.table[d].flags == Up ==> p.0.table[d].seqno % 2 == 0
  {}
}
