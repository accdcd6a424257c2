// The AODV agent as the object it is in aodv.cc: handlers that search and update
// the routing table and the broadcast id cache in place. Each is proved to do
// what the function of the same name in AodvAgent says.
module AodvHandlers {
  import opened AodvRoute
  import opened AodvAgent

  // Updating an entry where it stands is storing it in the table.
  lemma {:induction false} PutAt(t: seq<Entry>, k: nat, e: Entry)
    requires k == Find(t, e.dst) < |t|
    ensures Put(t, e) == t[k := e]
    ensures forall d: Addr :: Find(t[k := e], d) == Find(t, d)
  {
    forall d: Addr
      ensures Find(t[k := e], d) == Find(t, d)
    {
      FindKept(t, k, e, d);
    }
  }

  lemma {:induction false} FindKept(t: seq<Entry>, k: nat, e: Entry, d: Addr)
    requires k < |t| && t[k].dst == e.dst
    ensures Find(t[k := e], d) == Find(t, d)
  {
    if t[0].dst != d && k > 0 {
      assert t[k := e][1..] == t[1..][k - 1 := e];
      FindKept(t[1..], k - 1, e, d);
    } else if t[0].dst != d {
      assert t[k := e][1..] == t[1..];
    }
  }

  class AODV {
    const index: Addr
    var seqno: nat
    var bid: nat
    var rtable: seq<Entry>
    var bihead: seq<(Addr, nat)>

    ghost function State(): Node
      reads this
    {
      Node(index, seqno, bid, rtable, set b | b in bihead)
    }

    constructor (id: Addr)
      ensures State() == NewNode(id)
    {
      index, seqno, bid, rtable, bihead := id, 2, 1, [], [];
    }

    // ---------- tables ----------

    method RtLookup(d: Addr) returns (k: nat)
      ensures k == Find(rtable, d)
      ensures Get(rtable, d) == if k < |rtable| then rtable[k] else Fresh(d)
    {
      k := 0;
      while k < |rtable| && rtable[k].dst != d
        invariant k <= |rtable| && forall j :: 0 <= j < k ==> rtable[j].dst != d
      {
        k := k + 1;
      }
      if k < |rtable| { FindAt(rtable, d, k); }
    }

    // rt_lookup, and rt_add if there is no entry.
    method LookupOrAdd(d: Addr) returns (k: nat)
      modifies this`rtable
      ensures rtable == Put(old(rtable), Get(old(rtable), d))
      ensures k == Find(rtable, d) < |rtable| && rtable[k] == Get(old(rtable), d) == Get(rtable, d)
    {
      GetPut(rtable, Get(rtable, d), d);
      k := RtLookup(d);
      if k == |rtable| {
        rtable, k := [Fresh(d)] + rtable, 0;
      }
    }

    method Store(k: nat, e: Entry)
      requires k == Find(rtable, e.dst) < |rtable|
      modifies this`rtable
      ensures rtable == Put(old(rtable), e) && |rtable| == |old(rtable)| && rtable[k] == e
      ensures forall d: Addr :: Find(rtable, d) == Find(old(rtable), d)
    {
      PutAt(rtable, k, e);
      rtable := rtable[k := e];
    }

    method IdInsert(id: Addr, b: nat)
      modifies this`bihead
      ensures bihead == [(id, b)] + old(bihead)
    {
      bihead := [(id, b)] + bihead;
    }

    method IdLookup(id: Addr, b: nat) returns (found: bool)
      ensures found == ((id, b) in bihead)
    {
      var i := 0;
      while i < |bihead|
        invariant 0 <= i <= |bihead| && (id, b) !in bihead[..i]
      {
        if bihead[i] == (id, b) { return true; }
        assert bihead[..i + 1] == bihead[..i] + [bihead[i]];
        i := i + 1;
      }
      assert bihead[..i] == bihead;
      return false;
    }

    method IdPurge(gone: set<(Addr, nat)>)
      modifies this`bihead
      ensures (State(), []) == AodvAgent.IdPurge(old(State()), gone)
    {
      var kept: seq<(Addr, nat)> := [];
      for i := 0 to |bihead|
        invariant forall x :: x in kept <==> x in bihead[..i] && x !in gone
      {
        assert bihead[..i + 1] == bihead[..i] + [bihead[i]];
        if bihead[i] !in gone { kept := kept + [bihead[i]]; }
      }
      assert bihead[..|bihead|] == bihead;
      bihead := kept;
      assert State().seen == old(State()).seen - gone;
    }

    // ---------- sending ----------

    method SendRequest(d: Addr, now: real, perHop: real) returns (out: seq<Msg>)
      modifies this
      ensures (State(), out) == AodvAgent.SendRequest(old(State()), d, now, perHop)
    {
      hide Put, Get, Find;
      var k := LookupOrAdd(d);
      var rt := rtable[k];
      if rt.flags == Up || rt.reqTimeout > now { return []; }
      if rt.reqCnt > RREQ_RETRIES {
        PutPut(old(rtable), rt, rt.(reqTimeout := now + MAX_RREQ_TIMEOUT, reqCnt := 0));
        Store(k, rt.(reqTimeout := now + MAX_RREQ_TIMEOUT, reqCnt := 0));
        return [];
      }
      var ttl;
      rt, ttl := WidenSearch(rt, now, perHop);
      PutPut(old(rtable), Get(old(rtable), d), rt);
      Store(k, rt);
      seqno := seqno + 2;
      out := [Rreq(index, seqno, d, rt.seqno, bid, 1, ttl, index)];
      bid := bid + 1;
    }

    // The TTL and the time-out of the next request (lines 1112-1144).
    method WidenSearch(rt: Entry, now: real, perHop: real) returns (e: Entry, ttl: nat)
      requires rt.flags != Up && rt.reqTimeout <= now && rt.reqCnt <= RREQ_RETRIES
      ensures (e, Sent(ttl)) == RequestEntry(rt, now, perHop)
    {
      hide RequestTimeout;
      e := rt;
      var last := Max(e.reqLastTtl, e.lastHopCount);
      if last == 0 {
        ttl := TTL_START;
      } else if last < TTL_THRESHOLD {
        ttl := last + TTL_INCREMENT;
      } else {
        ttl := NETWORK_DIAMETER;
        e := e.(reqCnt := e.reqCnt + 1);
      }
      var timeout := NextTimeout(ttl, e.reqCnt, now, perHop);
      e := e.(reqLastTtl := ttl, reqTimeout := timeout);
    }

    // Lines 1137-1144.
    method NextTimeout(ttl: nat, cnt: nat, now: real, perHop: real) returns (t: real)
      ensures t == RequestTimeout(ttl, cnt, now, perHop)
    {
      var wait := 2.0 * ttl as real * perHop;
      if cnt > 0 { wait := wait * cnt as real; }
      t := wait + now;
      if t > now + MAX_RREQ_TIMEOUT { t := now + MAX_RREQ_TIMEOUT; }
    }

    // ---------- receiving ----------

    method RecvRequest(m: Msg) returns (out: seq<Msg>)
      requires m.Rreq?
      modifies this
      ensures (State(), out) == AodvAgent.RecvRequest(old(State()), m)
    {
      hide Put, Get, Find;
      if m.src == index { return []; }
      var heard := IdLookup(m.src, m.bcastId);
      if heard { return []; }
      IdInsert(m.src, m.bcastId);
      assert State().seen == old(State()).seen + {(m.src, m.bcastId)};
      var k0 := LookupOrAdd(m.src);
      PutPut(old(rtable), rtable[k0], Reversed(rtable[k0], m));
      ReverseRoute(k0, m);
      var k := RtLookup(m.dst);
      if m.dst == index {
        seqno := Max(seqno, m.dstSeqno) + 1;
        if seqno % 2 == 1 { seqno := seqno + 1; }
        return [Rrep(index, seqno, 1, m.src, NETWORK_DIAMETER, index, rtable[k0].nexthop)];
      }
      if k < |rtable| && rtable[k].hops.Finite? && rtable[k].seqno >= m.dstSeqno {
        out := [Rrep(m.dst, rtable[k].seqno, rtable[k].hops.n + 1, m.src, NETWORK_DIAMETER, index, rtable[k0].nexthop)];
        var towards := rtable[k].nexthop;
        Store(k, PcInsert(rtable[k], rtable[k0].nexthop));
        GetAt(rtable, m.src);
        Store(k0, PcInsert(rtable[k0], towards));
        return out;
      }
      var wanted := m.dstSeqno;
      if k < |rtable| { wanted := Max(rtable[k].seqno, wanted); }
      var fwd := Rreq(m.src, m.srcSeqno, m.dst, wanted, m.bcastId, m.hopCount + 1, m.ttl - 1, index);
      out := if fwd.ttl == 0 then [] else [fwd];
    }

    method ReverseRoute(k0: nat, m: Msg)
      requires m.Rreq? && k0 == Find(rtable, m.src) < |rtable|
      modifies this`rtable
      ensures rtable == Put(old(rtable), Reversed(old(rtable)[k0], m))
      ensures k0 == Find(rtable, m.src) < |rtable| && rtable[k0] == Reversed(old(rtable)[k0], m)
    {
      var rt0 := rtable[k0];
      if m.srcSeqno > rt0.seqno || (m.srcSeqno == rt0.seqno && Below(m.hopCount, rt0.hops)) {
        rt0 := Update(rt0, m.srcSeqno, m.hopCount, m.sender);
        if rt0.reqTimeout > 0.0 {
          rt0 := rt0.(reqCnt := 0, reqTimeout := 0.0, reqLastTtl := m.hopCount);
        }
      }
      Store(k0, rt0);
    }

    method RecvReply(m: Msg) returns (out: seq<Msg>)
      requires m.Rrep?
      modifies this
      ensures (State(), out) == AodvAgent.RecvReply(old(State()), m)
    {
      hide Put, Get, Find;
      var k := LookupOrAdd(m.dst);
      var rt := rtable[k];
      if !(rt.seqno < m.dstSeqno || (rt.seqno == m.dstSeqno && Below(m.hopCount, rt.hops))) {
        return [];
      }
      rt := Update(rt, m.dstSeqno, m.hopCount, m.sender).(reqCnt := 0, reqTimeout := 0.0, reqLastTtl := m.hopCount);
      PutPut(old(rtable), Get(old(rtable), m.dst), rt);
      Store(k, rt);
      if m.target == index { return []; }
      var k0 := RtLookup(m.target);
      if k0 == |rtable| || rtable[k0].hops.Infinity? { return []; }
      var nexthop := rtable[k0].nexthop;
      var fwd := Rrep(m.dst, m.dstSeqno, m.hopCount + 1, m.target, m.ttl - 1, index, nexthop);
      Store(k, PcInsert(rt, nexthop));
      out := if fwd.ttl == 0 then [] else [fwd];
    }

    method RecvError(m: Msg) returns (out: seq<Msg>)
      requires m.Rerr?
      modifies this
      ensures (State(), out) == AodvAgent.RecvError(old(State()), m)
    {
      var dests: seq<(Addr, nat)> := [];
      for i := 0 to |m.unreachable|
        invariant (rtable, dests) == ErrorAll(old(rtable), m.sender, m.unreachable[..i])
        invariant seqno == old(seqno) && bid == old(bid) && bihead == old(bihead)
      {
        assert m.unreachable[..i + 1][..i] == m.unreachable[..i];
        var (d, s) := m.unreachable[i];
        var k := RtLookup(d);
        if k < |rtable| && rtable[k].hops.Finite? && rtable[k].nexthop == m.sender && rtable[k].seqno <= s {
          var rt := rtable[k];
          if rt.precursors != [] { dests := dests + [(d, s)]; }
          Store(k, Downed(rt.(seqno := s)).(precursors := []));
        }
      }
      assert m.unreachable[..|m.unreachable|] == m.unreachable;
      out := if dests == [] then [] else [Rerr(dests, index)];
    }

    // ---------- failures and timers ----------

    // nb_delete followed by handle_link_failure
    method LinkFailure(id: Addr) returns (out: seq<Msg>)
      modifies this
      ensures (State(), out) == AodvAgent.LinkFailure(old(State()), id)
    {
      seqno := seqno + 2;
      var dests: seq<(Addr, nat)> := [];
      for i := 0 to |rtable|
        invariant |rtable| == |old(rtable)| && rtable[i..] == old(rtable)[i..]
        invariant (rtable[..i], dests) == BrokenAll(old(rtable)[..i], id)
        invariant seqno == old(seqno) + 2 && bid == old(bid) && bihead == old(bihead)
      {
        assert old(rtable)[..i + 1][..i] == old(rtable)[..i];
        assert rtable[i] == rtable[i..][0] == old(rtable)[i];
        var rt := rtable[i];
        if rt.hops.Finite? && rt.nexthop == id {
          rt := rt.(seqno := rt.seqno + 1);
          dests := dests + [(rt.dst, rt.seqno)];
          rt := Downed(rt);
        }
        rtable := rtable[i := PcDelete(rt, id)];
        assert rtable[..i + 1] == rtable[..i] + [rtable[i]];
      }
      assert old(rtable)[..|rtable|] == old(rtable) && rtable[..|rtable|] == rtable;
      out := if dests == [] then [] else [Rerr(dests, index)];
    }

    method RtPurge(p: Purge) returns (out: seq<Msg>)
      modifies this
      ensures (State(), out) == AodvAgent.RtPurge(old(State()), p)
    {
      hide PurgeAt;
      out := [];
      ghost var n := State();
      for k := 0 to |rtable|
        invariant |rtable| == |n.table| && (State(), out) == PurgeTo(n, k, p)
      {
        var more := PurgeEntry(k, p);
        out := out + more;
      }
    }

    // The body of the loop of rt_purge.
    method PurgeEntry(k: nat, p: Purge) returns (out: seq<Msg>)
      requires k < |rtable|
      modifies this
      ensures (State(), out) == PurgeAt(old(State()), k, p)
    {
      hide AodvAgent.SendRequest;
      var rt := rtable[k];
      out := [];
      if rt.flags == Up && rt.dst in p.expired {
        rtable := rtable[k := Downed(rt.(seqno := rt.seqno + 1))];
      } else if rt.flags != Up && rt.dst in p.waiting {
        out := SendRequest(rt.dst, p.now, p.perHop(rt.dst));
      }
    }

    // The last branch of rt_resolve.
    method NoRoute(d: Addr) returns (out: seq<Msg>)
      modifies this
      ensures (State(), out) == AodvAgent.NoRoute(old(State()), d)
    {
      var k := LookupOrAdd(d);
      out := if rtable[k].flags == Down then [Rerr([(d, rtable[k].seqno)], index)] else [];
    }

    // local_rt_repair, called on a route that exists; `timer` is when LocalRepairTimer
    // is to run.
    method LocalRepair(d: Addr, now: real, perHop: real) returns (out: seq<Msg>, timer: real)
      requires Find(rtable, d) < |rtable|
      modifies this
      ensures (State(), out) == AodvAgent.LocalRepair(old(State()), d, now, perHop)
      ensures timer == Get(rtable, d).reqTimeout
    {
      var k := RtLookup(d);
      Store(k, rtable[k].(flags := InRepair));
      out := SendRequest(d, now, perHop);
      k := RtLookup(d);
      timer := if k < |rtable| then rtable[k].reqTimeout else 0.0;
    }

    // LocalRepairTimer::handle
    method RepairTimeout(d: Addr)
      modifies this
      ensures (State(), []) == AodvAgent.RepairTimeout(old(State()), d)
    {
      var k := RtLookup(d);
      if k < |rtable| && rtable[k].flags != Up { Store(k, Downed(rtable[k])); }
    }
  }
}
