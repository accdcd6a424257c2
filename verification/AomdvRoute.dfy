// AOMDV routing table entries and their path lists (aomdv_rtable.cc).
module AomdvRoute {
  import opened Wrappers

  type Addr = nat

  // A hop count, with INFINITY and INFINITY2 read as one value above all others.
  datatype Hops = Finite(n: nat) | Infinity

  datatype Flag = Down | Up

  datatype Path = Path(nexthop: Addr, hopcount: nat, lasthop: Addr)

  datatype Entry = Entry(
    dst: Addr,
    seqno: nat,
    advertised: Hops,
    flags: Flag,
    paths: seq<Path>,
    highestHeard: nat,
    error: bool
  )

  const INFINITY2: int := 255

  function Fresh(d: Addr): Entry {
    Entry(d, 0, Infinity, Down, [], 0, false)
  }

  function Above(advertised: Hops, h: nat): bool {
    advertised.Infinity? || advertised.n > h
  }

  // ---------- path lists ----------

  // path_lookup: the first path through neighbour `id`.
  predicate Through(paths: seq<Path>, id: Addr) {
    exists p :: p in paths && p.nexthop == id
  }

  predicate Has(paths: seq<Path>, nexthop: Addr, lasthop: Addr) {
    exists p :: p in paths && p.nexthop == nexthop && p.lasthop == lasthop
  }

  // new_disjoint_path
  predicate Disjoint(paths: seq<Path>, nexthop: Addr, lasthop: Addr) {
    forall p :: p in paths ==> p.nexthop != nexthop && p.lasthop != lasthop
  }

  // path_delete(id): the first path through `id` goes.
  function DeleteFirst(paths: seq<Path>, id: Addr): seq<Path> {
    if paths == [] then []
    else if paths[0].nexthop == id then paths[1..]
    else [paths[0]] + DeleteFirst(paths[1..], id)
  }

  // path_lookup_lasthop
  function FirstByLasthop(paths: seq<Path>, lasthop: Addr): Option<Path> {
    if paths == [] then None
    else if paths[0].lasthop == lasthop then Some(paths[0])
    else FirstByLasthop(paths[1..], lasthop)
  }

  // path_get_max_hopcount
  function MaxCount(paths: seq<Path>): nat {
    if paths == [] then 0
    else
      var m := MaxCount(paths[..|paths| - 1]);
      if paths[|paths| - 1].hopcount > m then paths[|paths| - 1].hopcount else m
  }

  function MaxHops(paths: seq<Path>): Hops {
    if MaxCount(paths) == 0 then Infinity else Finite(MaxCount(paths))
  }

  // path_get_min_hopcount
  function MinCount(paths: seq<Path>): int {
    if paths == [] then INFINITY2
    else
      var m := MinCount(paths[..|paths| - 1]);
      if paths[|paths| - 1].hopcount < m then paths[|paths| - 1].hopcount else m
  }

  // path_purge: all paths whose next hop has expired go.
  function Purge(paths: seq<Path>, expired: set<Addr>): seq<Path> {
    if paths == [] then []
    else
      var rest := Purge(paths[..|paths| - 1], expired);
      if paths[|paths| - 1].nexthop in expired then rest else rest + [paths[|paths| - 1]]
  }

  // No two paths share a next hop or a last hop.
  ghost predicate PairwiseDisjoint(paths: seq<Path>) {
    forall i, j :: 0 <= i < j < |paths| ==>
      paths[i].nexthop != paths[j].nexthop && paths[i].lasthop != paths[j].lasthop
  }

  lemma {:induction false} AppendDisjoint(paths: seq<Path>, p: Path)
    requires PairwiseDisjoint(paths) && Disjoint(paths, p.nexthop, p.lasthop)
    ensures PairwiseDisjoint(paths + [p])
  {}

  lemma {:induction false} PrependDisjoint(p: Path, paths: seq<Path>)
    requires PairwiseDisjoint(paths) && Disjoint(paths, p.nexthop, p.lasthop)
    ensures PairwiseDisjoint([p] + paths)
  {}

  lemma {:induction false} HeadDisjoint(paths: seq<Path>)
    requires paths != [] && PairwiseDisjoint(paths)
    ensures PairwiseDisjoint(paths[1..]) && Disjoint(paths[1..], paths[0].nexthop, paths[0].lasthop)
    ensures forall p :: p in paths <==> p == paths[0] || p in paths[1..]
  {}

  // Deleting the first path through `id` deletes every path through `id`.
  lemma {:induction false} DeleteAll(paths: seq<Path>, id: Addr)
    requires PairwiseDisjoint(paths)
    ensures PairwiseDisjoint(DeleteFirst(paths, id))
    ensures forall p :: p in DeleteFirst(paths, id) <==> p in paths && p.nexthop != id
    ensures |DeleteFirst(paths, id)| == |paths| - if Through(paths, id) then 1 else 0
  {
    if paths != [] {
      HeadDisjoint(paths);
      if paths[0].nexthop != id {
        DeleteAll(paths[1..], id);
        PrependDisjoint(paths[0], DeleteFirst(paths[1..], id));
      }
    }
  }

  lemma {:induction false} MaxCountIs(paths: seq<Path>)
    ensures forall p :: p in paths ==> p.hopcount <= MaxCount(paths)
  {
    if paths != [] {
      MaxCountIs(paths[..|paths| - 1]);
      assert paths == paths[..|paths| - 1] + [paths[|paths| - 1]];
    }
  }

  lemma {:induction false} PurgeIs(paths: seq<Path>, expired: set<Addr>)
    ensures forall p :: p in Purge(paths, expired) <==> p in paths && p.nexthop !in expired
    ensures PairwiseDisjoint(paths) ==> PairwiseDisjoint(Purge(paths, expired))
    ensures |Purge(paths, expired)| <= |paths|
  {
    if paths != [] {
      var rest, last := paths[..|paths| - 1], paths[|paths| - 1];
      assert paths == rest + [last];
      PurgeIs(rest, expired);
      if PairwiseDisjoint(paths) {
        assert forall i :: 0 <= i < |rest| ==> rest[i] == paths[i];
        assert Disjoint(rest, last.nexthop, last.lasthop);
        if last.nexthop !in expired { AppendDisjoint(Purge(rest, expired), last); }
      }
    }
  }

  // ---------- entries ----------

  // rt_down
  function Downed(e: Entry): Entry {
    if e.flags == Down then e
    else e.(flags := Down, advertised := Infinity, paths := [])
  }

  // A fresher sequence number: all old paths go and the new one comes.
  function Restart(e: Entry, seqno: nat, p: Path): Entry {
    e.(seqno := seqno, advertised := Infinity, flags := Up, paths := [p])
  }

  // "route advertisement": fix the advertised hop count once.
  function Advertise(e: Entry): Entry {
    if e.advertised == Infinity then e.(advertised := MaxHops(e.paths)) else e
  }

  // What holds of every entry between handlers.
  ghost predicate EntryOk(e: Entry) {
    && (e.highestHeard % 2 == 1 || e.highestHeard == 0)
    && PairwiseDisjoint(e.paths)
    && (if e.flags == Down then
          e.paths == [] && e.advertised == Infinity && (e.seqno % 2 == 1 || e.seqno == 0)
        else
          e.paths != [] && e.seqno >= 2 && e.seqno % 2 == 0
          && forall p :: p in e.paths ==> p.hopcount >= 1 && (e.advertised.Finite? ==> p.hopcount <= e.advertised.n))
  }

  // The sequence number grows, or it stays and a fixed advertised hop count
  // stays with it.
  ghost predicate Evolves(e: Entry, f: Entry) {
    f.seqno > e.seqno || (f.seqno == e.seqno && (e.advertised.Finite? ==> f.advertised == e.advertised))
  }

  lemma {:induction false} AdvertiseOk(e: Entry)
    requires EntryOk(e) && e.flags == Up
    ensures EntryOk(Advertise(e)) && Evolves(e, Advertise(e)) && Advertise(e).advertised.Finite?
    ensures Advertise(e).paths == e.paths && Advertise(e).seqno == e.seqno && Advertise(e).flags == Up
  {
    MaxCountIs(e.paths);
    assert e.paths[0] in e.paths;
  }
}
