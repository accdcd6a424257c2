// The AOMDV agent as the objects it is made of: routing table entries that
// update their path lists in place (aomdv_rtable.cc) and the handlers that
// update the entries (aomdv.cc). Each is proved to do what the function of the
// same name on values does.
module AomdvHandlers {
  import opened Wrappers
  import R = AomdvRoute
  import A = AomdvAgent

  type Addr = R.Addr
  type Path = R.Path

  class RtEntry {
    const dst: Addr
    const rtHops: nat
    var seqno: nat
    var advertised: R.Hops
    var flags: R.Flag
    var pathList: seq<Path>
    var numPaths: int
    var highestHeard: nat
    var error: bool

    ghost predicate Valid()
      reads this
    {
      numPaths == |pathList|
    }

    // The entry as a value.
    ghost function Abs(): R.Entry
      reads this
    {
      R.Entry(dst, seqno, advertised, flags, pathList, highestHeard, error)
    }

    // The original leaves rt_hops as it finds it; `h` is what that is.
    constructor (d: Addr, h: nat)
      ensures Valid() && Abs() == R.Fresh(d) && rtHops == h
    {
      rtHops := h;
      dst, seqno, advertised, flags := d, 0, R.Infinity, R.Down;
      pathList, numPaths, highestHeard, error := [], 0, 0, false;
    }

    method PathInsert(nexthop: Addr, hopcount: nat, lasthop: Addr)
      requires Valid()
      modifies this
      ensures Valid() && Abs() == A.Insert(old(Abs()), R.Path(nexthop, hopcount, lasthop))
    {
      pathList, numPaths := pathList + [R.Path(nexthop, hopcount, lasthop)], numPaths + 1;
    }

    method PathLookup(id: Addr) returns (found: bool)
      ensures found == R.Through(pathList, id)
    {
      var i := 0;
      while i < |pathList|
        invariant 0 <= i <= |pathList| && forall p :: p in pathList[..i] ==> p.nexthop != id
      {
        if pathList[i].nexthop == id { return true; }
        assert pathList[..i + 1] == pathList[..i] + [pathList[i]];
        i := i + 1;
      }
      assert pathList[..i] == pathList;
      return false;
    }

    method DisjointPathLookup(nexthop: Addr, lasthop: Addr) returns (found: bool)
      ensures found == R.Has(pathList, nexthop, lasthop)
    {
      var i := 0;
      while i < |pathList|
        invariant 0 <= i <= |pathList| && !R.Has(pathList[..i], nexthop, lasthop)
      {
        if pathList[i].nexthop == nexthop && pathList[i].lasthop == lasthop { return true; }
        assert pathList[..i + 1] == pathList[..i] + [pathList[i]];
        i := i + 1;
      }
      assert pathList[..i] == pathList;
      return false;
    }

    method NewDisjointPath(nexthop: Addr, lasthop: Addr) returns (disjoint: bool)
      ensures disjoint == R.Disjoint(pathList, nexthop, lasthop)
    {
      var i := 0;
      while i < |pathList|
        invariant 0 <= i <= |pathList| && R.Disjoint(pathList[..i], nexthop, lasthop)
      {
        if pathList[i].nexthop == nexthop || pathList[i].lasthop == lasthop { return false; }
        assert pathList[..i + 1] == pathList[..i] + [pathList[i]];
        i := i + 1;
      }
      assert pathList[..i] == pathList;
      return true;
    }

    method PathLookupLasthop(id: Addr) returns (r: Option<Path>)
      ensures r == R.FirstByLasthop(pathList, id)
    {
      var i := 0;
      while i < |pathList|
        invariant 0 <= i <= |pathList| && R.FirstByLasthop(pathList, id) == R.FirstByLasthop(pathList[i..], id)
      {
        if pathList[i].lasthop == id { return Some(pathList[i]); }
        assert pathList[i..][1..] == pathList[i + 1..];
        i := i + 1;
      }
      return None;
    }

    method PathDelete(id: Addr)
      requires Valid()
      modifies this
      ensures Valid() && Abs() == old(Abs()).(paths := R.DeleteFirst(old(pathList), id))
    {
      var i := 0;
      while i < |pathList| && pathList[i].nexthop != id
        invariant 0 <= i <= |pathList| && forall j :: 0 <= j < i ==> pathList[j].nexthop != id
      {
        i := i + 1;
      }
      DeleteAt(pathList, id, i);
      if i < |pathList| {
        pathList, numPaths := pathList[..i] + pathList[i + 1..], numPaths - 1;
      }
    }

    method PathDeleteAll()
      requires Valid()
      modifies this
      ensures Valid() && Abs() == old(Abs()).(paths := [])
    {
      pathList, numPaths := [], 0;
    }

    method PathEmpty() returns (empty: bool)
      requires Valid()
      ensures empty == (pathList == []) == (numPaths == 0)
    {
      empty := pathList == [];
    }

    method PathGetMaxHopcount() returns (h: R.Hops)
      ensures h == R.MaxHops(pathList)
    {
      var max := 0;
      for i := 0 to |pathList|
        invariant max == R.MaxCount(pathList[..i])
      {
        assert pathList[..i + 1][..i] == pathList[..i];
        if pathList[i].hopcount > max { max := pathList[i].hopcount; }
      }
      assert pathList[..|pathList|] == pathList;
      h := if max == 0 then R.Infinity else R.Finite(max);
    }

    method PathGetMinHopcount() returns (min: int)
      ensures min == R.MinCount(pathList)
    {
      min := R.INFINITY2;
      for i := 0 to |pathList|
        invariant min == R.MinCount(pathList[..i])
      {
        assert pathList[..i + 1][..i] == pathList[..i];
        if pathList[i].hopcount < min { min := pathList[i].hopcount; }
      }
      assert pathList[..|pathList|] == pathList;
    }

    // path_purge: after each removal the scan starts again from the head.
    method PathPurge(expired: set<Addr>)
      requires Valid()
      modifies this
      ensures Valid() && Abs() == old(Abs()).(paths := R.Purge(old(pathList), expired))
    {
      var cond := true;
      while cond
        invariant Valid() && Abs() == old(Abs()).(paths := pathList)
        invariant R.Purge(pathList, expired) == R.Purge(old(pathList), expired)
        invariant !cond ==> forall p :: p in pathList ==> p.nexthop !in expired
        decreases |pathList|, cond
      {
        cond := false;
        var i := 0;
        while i < |pathList| && pathList[i].nexthop !in expired
          invariant 0 <= i <= |pathList| && forall p :: p in pathList[..i] ==> p.nexthop !in expired
        {
          assert pathList[..i + 1] == pathList[..i] + [pathList[i]];
          i := i + 1;
        }
        if i < |pathList| {
          cond := true;
          PurgeSkips(pathList, i, expired);
          pathList, numPaths := pathList[..i] + pathList[i + 1..], numPaths - 1;
        } else {
          assert pathList[..i] == pathList;
        }
      }
      PurgeNone(pathList, expired);
    }

    // rt_down
    method RtDown()
      requires Valid()
      modifies this
      ensures Valid() && Abs() == R.Downed(old(Abs()))
    {
      if flags == R.Down { return; }
      flags, advertised := R.Down, R.Infinity;
      PathDeleteAll();
    }

    method Advertise()
      requires Valid()
      modifies this
      ensures Valid() && Abs() == R.Advertise(old(Abs()))
    {
      if advertised == R.Infinity { advertised := PathGetMaxHopcount(); }
    }

    // The hop count to advertise and the last hop to name.
    method Offer() returns (hops: nat, lasthop: Addr)
      requires Valid()
      modifies this
      ensures Valid() && Abs() == R.Advertise(old(Abs()))
      ensures hops == A.AdvHops(Abs()) && lasthop == A.FirstLasthop(Abs())
    {
      Advertise();
      hops := if advertised.Finite? then advertised.n else 255;
      lasthop := if pathList != [] then pathList[0].lasthop else 0;
    }

    // The same, noting that errors on the route must be reported from now on.
    method OfferReported() returns (hops: nat, lasthop: Addr)
      requires Valid()
      modifies this
      ensures Valid() && Abs() == R.Advertise(old(Abs())).(error := true)
      ensures hops == A.AdvHops(Abs()) && lasthop == A.FirstLasthop(Abs())
    {
      hide R.Advertise;
      hops, lasthop := Offer();
      error := true;
    }

    // The body of the loop of recvError: an error from `from` with sequence number `s`.
    method RecvError(from: Addr, s: nat) returns (report: bool)
      requires Valid()
      modifies this
      ensures Valid() && Abs() == A.ErrorEntry(old(Abs()), from, s)
      ensures report == A.ErrorReport(old(Abs()), from, s)
    {
      report := false;
      var path := PathLookup(from);
      if flags == R.Up && path && seqno <= s {
        PathDelete(from);
        highestHeard := A.Max(highestHeard, s);
        var empty := PathEmpty();
        if empty {
          seqno := highestHeard;
          RtDown();
          if error { report, error := true, false; }
        }
      }
    }

    // The body of the loop of handle_link_failure: neighbour `id` is lost.
    method LinkFailure(id: Addr) returns (report: bool)
      requires Valid()
      modifies this
      ensures Valid() && Abs() == A.BrokenEntry(old(Abs()), id)
      ensures report == A.BrokenReport(old(Abs()), id)
    {
      report := false;
      var path := PathLookup(id);
      if flags == R.Up && path {
        PathDelete(id);
        var empty := PathEmpty();
        if empty {
          seqno := A.Max(seqno + 1, highestHeard);
          if error { report, error := true, false; }
          RtDown();
        }
      }
    }

    // The body of the loop of rt_purge.
    method RtPurge(gone: set<Addr>)
      requires Valid()
      modifies this
      ensures Valid() && Abs() == A.PurgedEntry(old(Abs()), gone)
    {
      if flags == R.Up {
        PathPurge(gone);
        var empty := PathEmpty();
        if empty {
          seqno := A.Max(seqno + 1, highestHeard);
          if seqno % 2 == 0 { seqno := seqno + 1; }
          RtDown();
        }
      }
    }
  }

  lemma {:induction false} DeleteAt(paths: seq<Path>, id: Addr, i: nat)
    requires i <= |paths| && (i < |paths| ==> paths[i].nexthop == id)
    requires forall j :: 0 <= j < i ==> paths[j].nexthop != id
    ensures R.DeleteFirst(paths, id) == if i < |paths| then paths[..i] + paths[i + 1..] else paths
  {
    if i > 0 {
      DeleteAt(paths[1..], id, i - 1);
      assert paths == [paths[0]] + paths[1..];
      if i < |paths| {
        assert paths[..i] + paths[i + 1..] == [paths[0]] + (paths[1..][..i - 1] + paths[1..][i..]);
      }
    }
  }

  lemma {:induction false} PurgeAppend(a: seq<Path>, b: seq<Path>, expired: set<Addr>)
    ensures R.Purge(a + b, expired) == R.Purge(a, expired) + R.Purge(b, expired)
    decreases |b|
  {
    if b == [] {
      assert a + b == a;
    } else {
      assert (a + b)[..|a + b| - 1] == a + b[..|b| - 1];
      PurgeAppend(a, b[..|b| - 1], expired);
    }
  }

  // Removing one expired path does not change what a purge leaves.
  lemma {:induction false} PurgeSkips(paths: seq<Path>, i: nat, expired: set<Addr>)
    requires i < |paths| && paths[i].nexthop in expired
    ensures R.Purge(paths[..i] + paths[i + 1..], expired) == R.Purge(paths, expired)
  {
    assert paths == paths[..i] + ([paths[i]] + paths[i + 1..]);
    PurgeAppend(paths[..i], [paths[i]] + paths[i + 1..], expired);
    PurgeAppend([paths[i]], paths[i + 1..], expired);
    PurgeAppend(paths[..i], paths[i + 1..], expired);
    assert R.Purge([paths[i]], expired) == [];
  }

  lemma {:induction false} PurgeNone(paths: seq<Path>, expired: set<Addr>)
    requires forall p :: p in paths ==> p.nexthop !in expired
    ensures R.Purge(paths, expired) == paths
  {
    if paths != [] {
      assert paths == paths[..|paths| - 1] + [paths[|paths| - 1]];
      PurgeNone(paths[..|paths| - 1], expired);
    }
  }

  class AOMDV {
    const index: Addr
    const maxPaths: nat
    const lenDiff: int
    const memory: Addr -> nat
    var seqno: nat
    var bid: nat
    var rtable: map<Addr, RtEntry>
    var bihead: map<(Addr, nat), nat>

    // The agent and its table entries hold the state `n`.
    ghost predicate Holds(n: A.Node)
      reads this, rtable.Values
    {
      && n.index == index && n.maxPaths == maxPaths && n.lenDiff == lenDiff && n.memory == memory
      && n.seqno == seqno && n.bid == bid && n.ids == bihead
      && TableIs(n.table)
    }

    ghost predicate TableIs(t: map<Addr, R.Entry>)
      reads this`rtable, rtable.Values
    {
      && t.Keys == rtable.Keys
      && forall d :: d in rtable ==> rtable[d].dst == d && rtable[d].rtHops == memory(d) && rtable[d].Valid() && rtable[d].Abs() == t[d]
    }

    constructor (id: Addr, maxPaths: nat, lenDiff: int, memory: Addr -> nat)
      ensures Holds(A.NewNode(id, maxPaths, lenDiff, memory)) && rtable == map[]
    {
      index, this.maxPaths, this.lenDiff, this.memory := id, maxPaths, lenDiff, memory;
      seqno, bid, rtable, bihead := 2, 1, map[], map[];
    }

    // rt_lookup, and rt_add if there is no entry.
    method LookupOrAdd(d: Addr, ghost t: map<Addr, R.Entry>)
      requires TableIs(t)
      modifies this`rtable
      ensures TableIs(t[d := A.Get(t, d)]) && d in rtable && rtable[d].Abs() == A.Get(t, d)
      ensures rtable.Values <= old(rtable.Values) + {rtable[d]} && fresh(rtable.Values - old(rtable.Values))
    {
      if d !in rtable {
        var rt := new RtEntry(d, memory(d));
        rtable := rtable[d := rt];
      }
    }

    // ---------- route requests ----------

    // Lines 837-907; `e` is the entry of the source of the request.
    method ReversePath(e: RtEntry, m: A.Msg, ghost n: A.Node) returns (known: bool, drop: bool)
      requires m.Rreq? && e.Valid() && n.index == index && n.maxPaths == maxPaths && n.lenDiff == lenDiff
      modifies e
      ensures e.Valid() && A.Learned(e.Abs(), known, drop) == A.ReversePath(n, old(e.Abs()), m)
    {
      var first := if m.hopCount == 0 then index else m.firstHop;
      if e.seqno < m.srcSeqno {
        e.seqno, e.advertised := m.srcSeqno, R.Infinity;
        e.PathDeleteAll();
        e.flags := R.Up;
        e.PathInsert(m.sender, m.hopCount + 1, first);
        return true, false;
      }
      if e.seqno != m.srcSeqno || !R.Above(e.advertised, m.hopCount) { return false, true; }
      var stored := e.DisjointPathLookup(m.sender, first);
      if stored { return true, false; }
      var disjoint := e.NewDisjointPath(m.sender, first);
      if disjoint {
        known := false;
        var min := e.PathGetMinHopcount();
        if e.numPaths < maxPaths && m.hopCount + 1 - min <= lenDiff {
          e.PathInsert(m.sender, m.hopCount + 1, first);
          known := true;
        }
        min := e.PathGetMinHopcount();
        return known, m.hopCount + 1 - min > lenDiff;
      }
      var erp := e.PathLookupLasthop(first);
      return false, m.dst == index && (erp.None? || m.hopCount + 1 > erp.value.hopcount);
    }

    method RecvRequest(m: A.Msg, ghost n: A.Node) returns (out: seq<A.Msg>)
      requires m.Rreq? && Holds(n)
      modifies this, rtable.Values
      ensures Holds(A.RecvRequest(n, m).0) && out == A.RecvRequest(n, m).1
    {
      hide A.ReversePath, A.AnswerFromTable, A.Rebroadcast, A.AnswerAsDestination, A.Get, A.CanReply, TableIs;
      if m.src == index { return []; }
      var seen := (m.src, m.bcastId) in bihead;
      if !seen { bihead := bihead[(m.src, m.bcastId) := 0]; }
      ghost var n0 := n.(ids := bihead);
      assert Holds(n0);
      var known, drop;
      ghost var learned := A.ReversePath(n, A.Get(n.table, m.src), m);
      ghost var n1 := n0.(table := n.table[m.src := learned.e]);
      known, drop := LearnReverse(m, n0, n);
      assert Holds(n1);
      if drop { return []; }
      if m.dst == index {
        out := AnswerAsDestination(m, n1);
        return out;
      }
      var enough := FreshEnough(m, n1);
      if enough {
        out := AnswerFromTable(m, known, n1);
        return out;
      }
      if seen { return []; }
      out := Rebroadcast(m, n1);
    }

    // Whether the table answers the request.
    method FreshEnough(m: A.Msg, ghost n: A.Node) returns (enough: bool)
      requires m.Rreq? && Holds(n)
      ensures enough == A.CanReply(A.Get(n.table, m.dst), m) && (enough ==> m.dst in rtable)
    {
      enough := m.dst in rtable && rtable[m.dst].flags == R.Up && rtable[m.dst].seqno >= m.dstSeqno;
    }

    method LearnReverse(m: A.Msg, ghost n0: A.Node, ghost n: A.Node) returns (known: bool, drop: bool)
      requires m.Rreq? && Holds(n0) && n0 == n.(ids := n0.ids)
      modifies this`rtable, rtable.Values
      ensures A.Learned(A.ReversePath(n, A.Get(n.table, m.src), m).e, known, drop) == A.ReversePath(n, A.Get(n.table, m.src), m)
      ensures Holds(n0.(table := n.table[m.src := A.ReversePath(n, A.Get(n.table, m.src), m).e])) && m.src in rtable
      ensures fresh(rtable.Values - old(rtable.Values))
    {
      hide A.ReversePath, TableIs;
      LookupOrAdd(m.src, n.table);
      known, drop := ReverseAt(m, n, n.table[m.src := A.Get(n.table, m.src)]);
      assert n.table[m.src := A.Get(n.table, m.src)][m.src := A.ReversePath(n, A.Get(n.table, m.src), m).e]
          == n.table[m.src := A.ReversePath(n, A.Get(n.table, m.src), m).e];
    }

    method ReverseAt(m: A.Msg, ghost n: A.Node, ghost t: map<Addr, R.Entry>) returns (known: bool, drop: bool)
      requires m.Rreq? && TableIs(t) && m.src in rtable && n.index == index && n.maxPaths == maxPaths && n.lenDiff == lenDiff
      modifies rtable[m.src]
      ensures A.Learned(A.ReversePath(n, t[m.src], m).e, known, drop) == A.ReversePath(n, t[m.src], m)
      ensures TableIs(t[m.src := A.ReversePath(n, t[m.src], m).e])
    {
      hide A.ReversePath;
      known, drop := ReversePath(rtable[m.src], m, n);
    }

    method AnswerAsDestination(m: A.Msg, ghost n: A.Node) returns (out: seq<A.Msg>)
      requires m.Rreq? && Holds(n)
      modifies this`seqno
      ensures Holds(A.AnswerAsDestination(n, m).0) && out == A.AnswerAsDestination(n, m).1
    {
      if seqno < m.dstSeqno { seqno := m.dstSeqno + 1; }
      if seqno % 2 == 1 { seqno := seqno + 1; }
      out := [A.Rrep(index, seqno, 0, m.sender, m.bcastId, m.src, A.NETWORK_DIAMETER, index, m.sender)];
    }

    // "route advertisement" before a reply: fix the hop count, and remember that
    // errors on this route must be reported.
    method AdvertiseRoute(d: Addr, ghost n: A.Node) returns (hops: nat, lasthop: Addr)
      requires Holds(n) && d in rtable
      modifies rtable[d]
      ensures var f := R.Advertise(n.table[d]).(error := true);
        Holds(n.(table := n.table[d := f])) && hops == A.AdvHops(f) && lasthop == A.FirstLasthop(f)
    {
      hide R.Advertise;
      hops, lasthop := rtable[d].OfferReported();
    }

    // The same before a request is passed on.
    method AdvertiseBack(d: Addr, ghost n: A.Node) returns (hops: nat, lasthop: Addr)
      requires Holds(n) && d in rtable
      modifies rtable[d]
      ensures var f := R.Advertise(n.table[d]);
        Holds(n.(table := n.table[d := f])) && hops == A.AdvHops(f) && lasthop == A.FirstLasthop(f)
    {
      hide R.Advertise;
      hops, lasthop := rtable[d].Offer();
    }

    method AnswerFromTable(m: A.Msg, known: bool, ghost n: A.Node) returns (out: seq<A.Msg>)
      requires m.Rreq? && Holds(n) && m.dst in rtable && (m.src, m.bcastId) in bihead
      modifies this`bihead, rtable[m.dst]
      ensures Holds(A.AnswerFromTable(n, m, known).0) && out == A.AnswerFromTable(n, m, known).1
    {
      hide R.Advertise;
      if !known || bihead[(m.src, m.bcastId)] != 0 { return []; }
      bihead := bihead[(m.src, m.bcastId) := 1];
      var hops, lasthop := AdvertiseRoute(m.dst, n.(ids := bihead));
      out := [A.Rrep(m.dst, rtable[m.dst].seqno, hops, lasthop, m.bcastId, m.src, A.NETWORK_DIAMETER, index, m.sender)];
    }

    method Rebroadcast(m: A.Msg, ghost n: A.Node) returns (out: seq<A.Msg>)
      requires m.Rreq? && Holds(n) && m.src in rtable
      modifies rtable[m.src]
      ensures Holds(A.Rebroadcast(n, m).0) && out == A.Rebroadcast(n, m).1
    {
      var wanted := m.dstSeqno;
      if m.dst in rtable { wanted := A.Max(rtable[m.dst].seqno, wanted); }
      var hops, lasthop := AdvertiseBack(m.src, n);
      out := if m.ttl - 1 == 0 then []
             else [A.Rreq(m.src, m.srcSeqno, m.dst, wanted, m.bcastId, hops, lasthop, m.ttl - 1, index)];
    }

    // ---------- route replies ----------

    // Lines 1098-1143; `e` is the entry of the destination of the reply.
    method ForwardPath(e: RtEntry, m: A.Msg, ghost n: A.Node) returns (ok: bool)
      requires m.Rrep? && e.Valid() && n.maxPaths == maxPaths && n.lenDiff == lenDiff
      modifies e
      ensures e.Valid() && (e.Abs(), ok) == A.ForwardPath(n, old(e.Abs()), m)
    {
      ghost var p := R.Path(m.sender, m.hopCount + 1, m.firstHop);
      assert [] + [p] == [p];
      if e.seqno < m.dstSeqno {
        e.seqno, e.advertised := m.dstSeqno, R.Infinity;
        e.PathDeleteAll();
        e.flags := R.Up;
        e.PathInsert(m.sender, m.hopCount + 1, m.firstHop);
        return true;
      }
      if e.seqno != m.dstSeqno || !R.Above(e.advertised, m.hopCount) { return false; }
      var stored := e.DisjointPathLookup(m.sender, m.firstHop);
      if stored { return true; }
      var disjoint := e.NewDisjointPath(m.sender, m.firstHop);
      var min := e.PathGetMinHopcount();
      if disjoint && e.numPaths < maxPaths && m.hopCount + 1 - min <= lenDiff {
        e.PathInsert(m.sender, m.hopCount + 1, m.firstHop);
        return true;
      }
      return false;
    }

    method RecvReply(m: A.Msg, ghost n: A.Node) returns (out: seq<A.Msg>)
      requires m.Rrep? && Holds(n)
      modifies this, rtable.Values
      ensures Holds(A.RecvReply(n, m).0) && out == A.RecvReply(n, m).1
    {
      hide A.ForwardPath, A.Relay, A.Get, TableIs;
      if m.dst == index { return []; }
      var ok := LearnForward(m, n);
      ghost var n1 := n.(table := n.table[m.dst := A.ForwardPath(n, A.Get(n.table, m.dst), m).0]);
      if !ok || m.target == index { return []; }
      var relayed := MayRelay(m, n1);
      if relayed { out := RelayReply(m, n1); } else { out := []; }
    }

    // Lines 1183-1188: a route back, and no reply to the request relayed yet.
    method MayRelay(m: A.Msg, ghost n: A.Node) returns (may: bool)
      requires m.Rrep? && Holds(n)
      ensures may == (A.Get(n.table, m.target).flags == R.Up && (m.target, m.bcastId) in n.ids && n.ids[(m.target, m.bcastId)] == 0)
      ensures may ==> m.target in rtable
    {
      var key := (m.target, m.bcastId);
      may := m.target in rtable && rtable[m.target].flags == R.Up && key in bihead && bihead[key] == 0;
    }

    method LearnForward(m: A.Msg, ghost n: A.Node) returns (ok: bool)
      requires m.Rrep? && Holds(n)
      modifies this`rtable, rtable.Values
      ensures ok == A.ForwardPath(n, A.Get(n.table, m.dst), m).1
      ensures Holds(n.(table := n.table[m.dst := A.ForwardPath(n, A.Get(n.table, m.dst), m).0])) && m.dst in rtable
      ensures fresh(rtable.Values - old(rtable.Values))
    {
      hide A.ForwardPath, TableIs;
      LookupOrAdd(m.dst, n.table);
      ok := ForwardAt(m, n, n.table[m.dst := A.Get(n.table, m.dst)]);
      assert n.table[m.dst := A.Get(n.table, m.dst)][m.dst := A.ForwardPath(n, A.Get(n.table, m.dst), m).0]
          == n.table[m.dst := A.ForwardPath(n, A.Get(n.table, m.dst), m).0];
    }

    method ForwardAt(m: A.Msg, ghost n: A.Node, ghost t: map<Addr, R.Entry>) returns (ok: bool)
      requires m.Rrep? && TableIs(t) && m.dst in rtable && n.maxPaths == maxPaths && n.lenDiff == lenDiff
      modifies rtable[m.dst]
      ensures ok == A.ForwardPath(n, t[m.dst], m).1
      ensures TableIs(t[m.dst := A.ForwardPath(n, t[m.dst], m).0])
    {
      hide A.ForwardPath;
      ok := ForwardPath(rtable[m.dst], m, n);
    }

    // Lines 1194-1214: advertise the route and pass the reply on.
    method RelayReply(m: A.Msg, ghost n: A.Node) returns (out: seq<A.Msg>)
      requires m.Rrep? && Holds(n) && m.dst in rtable && m.target in rtable
      modifies this`bihead, rtable[m.dst]
      ensures Holds(A.Relay(n, m).0) && out == A.Relay(n, m).1
    {
      hide R.Advertise;
      bihead := bihead[(m.target, m.bcastId) := 1];
      var rt0 := rtable[m.target];
      var nexthop := if rt0.pathList != [] then rt0.pathList[0].nexthop else 0;
      var hops, lasthop := AdvertiseRoute(m.dst, n.(ids := bihead));
      out := if m.ttl - 1 == 0 then []
             else [A.Rrep(m.dst, m.dstSeqno, hops, lasthop, m.bcastId, m.target, m.ttl - 1, index, nexthop)];
    }

    // recvHello: the packet is turned into a reply addressed to this agent.
    method RecvHello(m: A.Msg, ghost n: A.Node) returns (out: seq<A.Msg>)
      requires m.Hello? && Holds(n)
      modifies this, rtable.Values
      ensures Holds(A.RecvHello(n, m).0) && out == A.RecvHello(n, m).1
    {
      hide A.RecvReply;
      out := RecvReply(A.Rrep(m.origin, m.originSeqno, 0, index, 0, index, 0, m.origin, index), n);
    }

    // ---------- sending ----------

    // sendRequest at a time when a request is permitted
    method SendRequest(d: Addr, ttl: nat, ghost n: A.Node) returns (out: seq<A.Msg>)
      requires Holds(n)
      modifies this
      ensures Holds(A.SendRequest(n, d, ttl).0) && out == A.SendRequest(n, d, ttl).1
    {
      hide TableIs;
      LookupOrAdd(d, n.table);
      if rtable[d].flags == R.Up { return []; }
      bid, seqno := bid + 1, seqno + 2;
      out := [A.Rreq(index, seqno, d, rtable[d].seqno, bid - 1, 0, 0, ttl, index)];
    }

    // The last branch of rt_resolve
    method NoRoute(d: Addr, ghost n: A.Node) returns (out: seq<A.Msg>)
      requires Holds(n)
      modifies this`rtable
      ensures Holds(A.NoRoute(n, d).0) && out == A.NoRoute(n, d).1
    {
      hide TableIs;
      LookupOrAdd(d, n.table);
      out := if rtable[d].flags == R.Down then [A.Rerr(map[d := rtable[d].seqno], index)] else [];
    }

    // ---------- route errors and failures ----------

    method RecvError(m: A.Msg, ghost n: A.Node) returns (out: seq<A.Msg>)
      requires m.Rerr? && Holds(n)
      modifies rtable.Values
      ensures Holds(A.RecvError(n, m).0) && out == A.RecvError(n, m).1
    {
      hide A.ErrorEntry, A.ErrorReport;
      var dests := MarkErrors(m, n);
      out := if dests == map[] then [] else [A.Rerr(dests, index)];
    }

    method MarkErrors(m: A.Msg, ghost n: A.Node) returns (dests: map<Addr, nat>)
      requires m.Rerr? && TableIs(n.table)
      modifies rtable.Values
      ensures TableIs(A.ErrorTable(n, m)) && dests == A.ErrorDests(n, m)
    {
      hide A.ErrorEntry, A.ErrorReport, ErrorsSoFar, DestsSoFar;
      ErrorsEnds(n, m);
      assert rtable.Keys == n.table.Keys;
      hide TableIs;
      var todo := m.unreachable.Keys;
      dests := map[];
      while todo != {}
        invariant todo <= m.unreachable.Keys && rtable.Keys == n.table.Keys
        invariant TableIs(ErrorsSoFar(n.table, m, todo)) && dests == DestsSoFar(n.table, m, todo)
        decreases todo
      {
        var d :| d in todo;
        ErrorsStep(n.table, m, todo, d);
        if d in rtable {
          var report := ErrorAt(d, m.sender, m.unreachable[d], ErrorsSoFar(n.table, m, todo));
          if report { dests := dests[d := rtable[d].seqno]; }
        }
        todo := todo - {d};
      }
    }

    method ErrorAt(d: Addr, from: Addr, s: nat, ghost t: map<Addr, R.Entry>) returns (report: bool)
      requires TableIs(t) && d in rtable
      modifies rtable[d]
      ensures TableIs(t[d := A.ErrorEntry(t[d], from, s)]) && report == A.ErrorReport(t[d], from, s)
      ensures rtable[d].seqno == A.ErrorEntry(t[d], from, s).seqno
    {
      hide A.ErrorEntry, A.ErrorReport;
      report := rtable[d].RecvError(from, s);
    }

    // nb_delete and handle_link_failure
    method LinkFailure(id: Addr, ghost n: A.Node) returns (out: seq<A.Msg>)
      requires Holds(n)
      modifies this`seqno, rtable.Values
      ensures Holds(A.LinkFailure(n, id).0) && out == A.LinkFailure(n, id).1
    {
      hide A.BrokenEntry, A.BrokenReport;
      seqno := seqno + 2;
      var dests := BreakRoutes(id, n);
      out := if dests == map[] then [] else [A.Rerr(dests, index)];
    }

    method BreakRoutes(id: Addr, ghost n: A.Node) returns (dests: map<Addr, nat>)
      requires TableIs(n.table)
      modifies rtable.Values
      ensures TableIs(A.BrokenTable(n, id)) && dests == A.BrokenDests(n, id)
    {
      hide A.BrokenEntry, A.BrokenReport, BrokenSoFar, BrokenDestsSoFar;
      BrokenEnds(n, id);
      var todo := rtable.Keys;
      dests := map[];
      assert rtable.Keys == n.table.Keys;
      hide TableIs, A.BrokenTable, A.BrokenDests;
      while todo != {}
        invariant todo <= n.table.Keys && rtable.Keys == n.table.Keys
        invariant TableIs(BrokenSoFar(n.table, id, todo)) && dests == BrokenDestsSoFar(n.table, id, todo)
        decreases todo
      {
        var d :| d in todo;
        BrokenStep(n.table, id, todo, d);
        dests := BreakAt(d, id, dests, BrokenSoFar(n.table, id, todo));
        todo := todo - {d};
      }
    }

    method BreakAt(d: Addr, id: Addr, dests: map<Addr, nat>, ghost t: map<Addr, R.Entry>) returns (more: map<Addr, nat>)
      requires TableIs(t) && d in rtable
      modifies rtable[d]
      ensures TableIs(t[d := A.BrokenEntry(t[d], id)])
      ensures more == if A.BrokenReport(t[d], id) then dests[d := A.BrokenEntry(t[d], id).seqno] else dests
    {
      hide A.BrokenEntry, A.BrokenReport;
      var report := rtable[d].LinkFailure(id);
      more := if report then dests[d := rtable[d].seqno] else dests;
    }

    method RtPurge(now: real, expired: set<(Addr, Addr)>, ghost n: A.Node)
      requires Holds(n)
      modifies rtable.Values
      ensures Holds(A.RtPurge(n, now, expired).0)
    {
      hide A.PurgedEntry;
      if A.RT_EXPIRE < now { PurgeRoutes(expired, n.table); }
    }

    method PurgeRoutes(expired: set<(Addr, Addr)>, ghost t: map<Addr, R.Entry>)
      requires TableIs(t)
      modifies rtable.Values
      ensures TableIs(A.PurgedTable(t, expired))
    {
      hide A.PurgedEntry, PurgedSoFar;
      PurgedEnds(t, expired);
      var todo := rtable.Keys;
      assert todo == t.Keys;
      hide TableIs, A.PurgedTable, A.Expired;
      while todo != {}
        invariant todo <= t.Keys && rtable.Keys == t.Keys && TableIs(PurgedSoFar(t, expired, todo))
        decreases todo
      {
        var d :| d in todo;
        PurgedStep(t, expired, todo, d);
        PurgeAt(d, A.Expired(expired, d), PurgedSoFar(t, expired, todo));
        todo := todo - {d};
      }
    }

    method PurgeAt(d: Addr, gone: set<Addr>, ghost t: map<Addr, R.Entry>)
      requires TableIs(t) && d in rtable
      modifies rtable[d]
      ensures TableIs(t[d := A.PurgedEntry(t[d], gone)])
    {
      hide A.PurgedEntry;
      rtable[d].RtPurge(gone);
    }
  }

  // ---------- the loops over the table, part way through ----------

  // The table and the report of recvError once all but `todo` have been looked at.
  ghost function ErrorsSoFar(t: map<Addr, R.Entry>, m: A.Msg, todo: set<Addr>): map<Addr, R.Entry>
    requires m.Rerr?
  {
    map d | d in t :: if d in m.unreachable && d !in todo then A.ErrorEntry(t[d], m.sender, m.unreachable[d]) else t[d]
  }

  ghost function DestsSoFar(t: map<Addr, R.Entry>, m: A.Msg, todo: set<Addr>): map<Addr, nat>
    requires m.Rerr?
  {
    map d | d in t && d in m.unreachable && d !in todo && A.ErrorReport(t[d], m.sender, m.unreachable[d])
      :: A.ErrorEntry(t[d], m.sender, m.unreachable[d]).seqno
  }

  lemma {:induction false} ErrorsEnds(n: A.Node, m: A.Msg)
    requires m.Rerr?
    ensures ErrorsSoFar(n.table, m, m.unreachable.Keys) == n.table && DestsSoFar(n.table, m, m.unreachable.Keys) == map[]
    ensures ErrorsSoFar(n.table, m, {}) == A.ErrorTable(n, m) && DestsSoFar(n.table, m, {}) == A.ErrorDests(n, m)
  {}

  lemma {:induction false} ErrorsStep(t: map<Addr, R.Entry>, m: A.Msg, todo: set<Addr>, d: Addr)
    requires m.Rerr? && d in todo && d in m.unreachable
    ensures ErrorsSoFar(t, m, todo).Keys == t.Keys
    ensures d !in t ==> ErrorsSoFar(t, m, todo - {d}) == ErrorsSoFar(t, m, todo) && DestsSoFar(t, m, todo - {d}) == DestsSoFar(t, m, todo)
    ensures d in t ==> ErrorsSoFar(t, m, todo)[d] == t[d]
    ensures d in t ==> ErrorsSoFar(t, m, todo - {d}) == ErrorsSoFar(t, m, todo)[d := A.ErrorEntry(t[d], m.sender, m.unreachable[d])]
    ensures d in t && A.ErrorReport(t[d], m.sender, m.unreachable[d]) ==>
      DestsSoFar(t, m, todo - {d}) == DestsSoFar(t, m, todo)[d := A.ErrorEntry(t[d], m.sender, m.unreachable[d]).seqno]
    ensures d in t && !A.ErrorReport(t[d], m.sender, m.unreachable[d]) ==> DestsSoFar(t, m, todo - {d}) == DestsSoFar(t, m, todo)
  {
    hide A.ErrorEntry, A.ErrorReport;
  }

  // The same for handle_link_failure.
  ghost function BrokenSoFar(t: map<Addr, R.Entry>, id: Addr, todo: set<Addr>): map<Addr, R.Entry> {
    map d | d in t :: if d !in todo then A.BrokenEntry(t[d], id) else t[d]
  }

  ghost function BrokenDestsSoFar(t: map<Addr, R.Entry>, id: Addr, todo: set<Addr>): map<Addr, nat> {
    map d | d in t && d !in todo && A.BrokenReport(t[d], id) :: A.BrokenEntry(t[d], id).seqno
  }

  lemma {:induction false} BrokenEnds(n: A.Node, id: Addr)
    ensures BrokenSoFar(n.table, id, n.table.Keys) == n.table && BrokenDestsSoFar(n.table, id, n.table.Keys) == map[]
    ensures BrokenSoFar(n.table, id, {}) == A.BrokenTable(n, id) && BrokenDestsSoFar(n.table, id, {}) == A.BrokenDests(n, id)
  {}

  lemma {:induction false} BrokenStep(t: map<Addr, R.Entry>, id: Addr, todo: set<Addr>, d: Addr)
    requires d in todo && d in t
    ensures d in BrokenSoFar(t, id, todo) && BrokenSoFar(t, id, todo)[d] == t[d]
    ensures BrokenSoFar(t, id, todo - {d}) == BrokenSoFar(t, id, todo)[d := A.BrokenEntry(t[d], id)]
    ensures BrokenDestsSoFar(t, id, todo - {d}) ==
      if A.BrokenReport(t[d], id) then BrokenDestsSoFar(t, id, todo)[d := A.BrokenEntry(t[d], id).seqno] else BrokenDestsSoFar(t, id, todo)
  {
    hide A.BrokenEntry, A.BrokenReport;
  }

  // The same for rt_purge.
  ghost function PurgedSoFar(t: map<Addr, R.Entry>, expired: set<(Addr, Addr)>, todo: set<Addr>): map<Addr, R.Entry> {
    map d | d in t :: if d !in todo then A.PurgedEntry(t[d], A.Expired(expired, d)) else t[d]
  }

  lemma {:induction false} PurgedEnds(t: map<Addr, R.Entry>, expired: set<(Addr, Addr)>)
    ensures PurgedSoFar(t, expired, t.Keys) == t && PurgedSoFar(t, expired, {}) == A.PurgedTable(t, expired)
  {}

  lemma {:induction false} PurgedStep(t: map<Addr, R.Entry>, expired: set<(Addr, Addr)>, todo: set<Addr>, d: Addr)
    requires d in todo && d in t
    ensures d in PurgedSoFar(t, expired, todo) && PurgedSoFar(t, expired, todo)[d] == t[d]
    ensures PurgedSoFar(t, expired, todo - {d}) == PurgedSoFar(t, expired, todo)[d := A.PurgedEntry(t[d], A.Expired(expired, d))]
  {}
}
