// What the handlers of an AODV agent do, seen from outside: what every lookup finds
// afterwards, who is recorded as a user of a route, and which message leaves, to whom.
module AodvEffects {
  import opened AodvRoute
  import opened AodvAgent
  import opened AodvNetwork
  import opened AodvSafety

  // Packets for the destination go the same way, in the same state.
  ghost predicate SameRoute(e: Entry, f: Entry) {
    f.dst == e.dst && f.seqno == e.seqno && f.hops == e.hops && f.nexthop == e.nexthop && f.flags == e.flags && f.lastHopCount == e.lastHopCount
  }

  // The state of a search for the destination.
  ghost predicate SameSearch(e: Entry, f: Entry) {
    f.reqTimeout == e.reqTimeout && f.reqCnt == e.reqCnt && f.reqLastTtl == e.reqLastTtl
  }

  // A usable route to `f.dst` through `from`.
  ghost predicate LeadsTo(f: Entry, from: Addr, seqno: nat, hops: nat) {
    f.flags == Up && f.nexthop == from && f.seqno == seqno && f.hops == Finite(hops)
  }

  // A route on offer with this sequence number and hop count beats that of `e`.
  ghost predicate Beats(seqno: nat, hops: nat, e: Entry) {
    seqno > e.seqno || (seqno == e.seqno && (e.hops.Infinity? || e.hops.n > hops))
  }

  // ---------- route requests ----------

  ghost predicate NewTo(n: Node, m: Msg) {
    m.Rreq? && m.src != n.index && (m.src, m.bcastId) !in n.seen
  }

  // The agent has a route to the destination that is fresh enough for the request.
  ghost predicate Knows(n: Node, m: Msg)
    requires m.Rreq?
  {
    m.dst != n.index && Get(n.table, m.dst).hops.Finite? && Get(n.table, m.dst).seqno >= m.dstSeqno
  }

  // An agent's own request, and one it remembers, are ignored.
  lemma {:induction false} RequestIgnored(n: Node, m: Msg)
    requires m.Rreq? && !NewTo(n, m)
    ensures RecvRequest(n, m) == (n, [])
  {}

  // The table between the reverse route and the precursors.
  lemma {:induction false} RequestTable(n: Node, m: Msg)
    requires NewTo(n, m)
    ensures var p := RecvRequest(n, m).0;
      var t := Put(n.table, Reversed(Get(n.table, m.src), m));
      && p.index == n.index && p.bid == n.bid && p.seen == n.seen + {(m.src, m.bcastId)}
      && forall d: Addr ::
           var e, f := Get(t, d), Get(p.table, d);
           && SameRoute(e, f) && SameSearch(e, f)
           && if m.dst != n.index && CanReply(Get(t, m.dst), m) then
                var g := if d == m.dst then PcInsert(e, Get(t, m.src).nexthop) else e;
                f == if d == m.src then PcInsert(g, Get(t, m.dst).nexthop) else g
              else f == e
  {
    var rt0 := Reversed(Get(n.table, m.src), m);
    var t := Put(n.table, rt0);
    var rt := Get(t, m.dst);
    var t1 := Put(t, PcInsert(rt, rt0.nexthop));
    forall d: Addr
      ensures Get(t, m.src) == rt0
      ensures Get(t1, d) == if d == m.dst then PcInsert(rt, rt0.nexthop) else Get(t, d)
      ensures Get(Put(t1, PcInsert(Get(t1, m.src), rt.nexthop)), d)
           == if d == m.src then PcInsert(Get(t1, m.src), rt.nexthop) else Get(t1, d)
    {
      GetPut(n.table, rt0, m.src);
      GetPut(t, PcInsert(rt, rt0.nexthop), d);
      GetPut(t1, PcInsert(Get(t1, m.src), rt.nexthop), d);
    }
    hide Get, Put, Reversed;
  }

  // The routes after a request: the one to its source is that of the request if it
  // beats the old one; all others stay.
  lemma {:induction false} RequestRoutes(n: Node, m: Msg, d: Addr)
    requires NewTo(n, m)
    ensures var e, f := Get(n.table, d), Get(RecvRequest(n, m).0.table, d);
      var better := d == m.src && Beats(m.srcSeqno, m.hopCount, e);
      && (if better then LeadsTo(f, m.sender, m.srcSeqno, m.hopCount) else SameRoute(e, f))
      && (if better && e.reqTimeout > 0.0 then f.reqTimeout == 0.0 && f.reqCnt == 0 && f.reqLastTtl == m.hopCount else SameSearch(e, f))
  {
    RequestTable(n, m);
    GetPut(n.table, Reversed(Get(n.table, m.src), m), d);
  }

  // Who uses the routes after a request: answered from the table, the next hop to the
  // source uses the route to the destination, and the other way round.
  lemma {:induction false} RequestUsers(n: Node, m: Msg, d: Addr, x: Addr)
    requires NewTo(n, m)
    ensures var p := RecvRequest(n, m).0;
      x in Get(p.table, d).precursors <==>
        || x in Get(n.table, d).precursors
        || (Knows(p, m) && d == m.dst && x == Get(p.table, m.src).nexthop)
        || (Knows(p, m) && d == m.src && x == Get(p.table, m.dst).nexthop)
  {
    RequestTable(n, m);
    GetPut(n.table, Reversed(Get(n.table, m.src), m), d);
    GetPut(n.table, Reversed(Get(n.table, m.src), m), m.src);
    GetPut(n.table, Reversed(Get(n.table, m.src), m), m.dst);
    hide Get, Put;
  }

  // What leaves for a new request. The destination answers, and so does an agent with
  // a route as fresh as asked for; every other agent passes the request on if its TTL
  // allows. The answer goes to the source along the reverse route.
  lemma {:induction false} RequestAnswered(n: Node, m: Msg)
    requires NewTo(n, m)
    ensures var (p, out) := RecvRequest(n, m);
      var e := Get(p.table, m.dst);
      && (if m.dst == n.index then
            && p.seqno % 2 == 0 && p.seqno > n.seqno && p.seqno > m.dstSeqno && (p.seqno <= n.seqno + 2 || p.seqno <= m.dstSeqno + 2)
            && out == [Rrep(n.index, p.seqno, 1, m.src, 30, n.index, Get(p.table, m.src).nexthop)]
          else p.seqno == n.seqno)
      && (Knows(p, m) ==> out == [Rrep(m.dst, e.seqno, e.hops.n + 1, m.src, 30, n.index, Get(p.table, m.src).nexthop)])
      && (m.dst != n.index && !Knows(p, m) ==>
            if m.ttl == 1 then out == []
            else out == [Rreq(m.src, m.srcSeqno, m.dst, if e.seqno > m.dstSeqno then e.seqno else m.dstSeqno,
                              m.bcastId, m.hopCount + 1, m.ttl - 1, n.index)])
  {
    RequestTable(n, m);
    GetPut(n.table, Reversed(Get(n.table, m.src), m), m.src);
    hide Get, Put, Reversed;
  }

  // An agent other than the destination answers exactly when it has a route as fresh
  // as asked for, through a next hop that is not a dead end.
  lemma {:induction false} AnswersExactly(n: Node, m: Msg)
    requires NewTo(n, m)
    ensures var (p, out) := RecvRequest(n, m);
      && |out| <= 1
      && (forall k :: k in out ==> !k.Rerr?)
      && ((exists k :: k in out && k.Rrep?) <==> m.dst == n.index || Knows(p, m))
      && ((exists k :: k in out && k.Rreq?) <==> m.dst != n.index && !Knows(p, m) && m.ttl != 1)
  {
    RequestAnswered(n, m);
    var out := RecvRequest(n, m).1;
    hide RecvRequest, Knows;
    assert out != [] ==> out[0] in out;
  }

  // ---------- route replies ----------

  // The routes after a reply: the one to its destination is that of the reply if it
  // beats the old one, and the search for it is over; all others stay.
  lemma {:induction false} ReplyRoutes(n: Node, m: Msg, d: Addr)
    requires m.Rrep?
    ensures var e, f := Get(n.table, d), Get(RecvReply(n, m).0.table, d);
      if d == m.dst && Beats(m.dstSeqno, m.hopCount, e) then
        LeadsTo(f, m.sender, m.dstSeqno, m.hopCount) && f.reqTimeout == 0.0 && f.reqCnt == 0 && f.reqLastTtl == m.hopCount
      else SameRoute(e, f) && SameSearch(e, f)
  {
    ReplyTable(n, m, d);
  }

  // The route to the target of a reply, by the table afterwards.
  ghost predicate ReachesTarget(n: Node, m: Msg)
    requires m.Rrep?
  {
    m.target != n.index && Get(n.table, m.target).hops.Finite?
  }

  lemma {:induction false} ReplyTable(n: Node, m: Msg, d: Addr)
    requires m.Rrep?
    ensures var p := RecvReply(n, m).0;
      var e, f := Get(n.table, d), Get(p.table, d);
      && p.index == n.index && p.seqno == n.seqno && p.bid == n.bid && p.seen == n.seen
      && if Beats(m.dstSeqno, m.hopCount, Get(n.table, m.dst)) then
           var u := if d == m.dst then Update(e, m.dstSeqno, m.hopCount, m.sender).(reqCnt := 0, reqTimeout := 0.0, reqLastTtl := m.hopCount) else e;
           f == if d == m.dst && ReachesTarget(p, m) then PcInsert(u, Get(p.table, m.target).nexthop) else u
         else f == e
  {
    ReplyPut(n, m, d);
    ReplyPut(n, m, m.target);
    hide Get, Put;
  }

  lemma {:induction false} ReplyPut(n: Node, m: Msg, d: Addr)
    requires m.Rrep?
    ensures var rt := Get(n.table, m.dst);
      var u := Update(rt, m.dstSeqno, m.hopCount, m.sender).(reqCnt := 0, reqTimeout := 0.0, reqLastTtl := m.hopCount);
      var t := Put(n.table, u);
      && Get(Put(n.table, rt), d) == Get(n.table, d)
      && Get(t, d) == (if d == m.dst then u else Get(n.table, d))
      && forall x: Addr :: Get(Put(t, PcInsert(u, x)), d) == if d == m.dst then PcInsert(u, x) else Get(n.table, d)
  {
    var rt := Get(n.table, m.dst);
    var u := Update(rt, m.dstSeqno, m.hopCount, m.sender).(reqCnt := 0, reqTimeout := 0.0, reqLastTtl := m.hopCount);
    var t := Put(n.table, u);
    GetPut(n.table, rt, d);
    GetPut(n.table, u, d);
    forall x: Addr
      ensures Get(Put(t, PcInsert(u, x)), d) == if d == m.dst then PcInsert(u, x) else Get(n.table, d)
    {
      GetPut(t, PcInsert(u, x), d);
    }
  }

  // A reply is passed on exactly when it taught a route, is meant for another agent
  // to which there is a route, and its TTL allows; it then goes to the next hop of that
  // route, one hop longer. That next hop is recorded as a user of the route learnt.
  lemma {:induction false} ReplyPassedOn(n: Node, m: Msg)
    requires m.Rrep?
    ensures var (p, out) := RecvReply(n, m);
      var taught := Beats(m.dstSeqno, m.hopCount, Get(n.table, m.dst)) && ReachesTarget(p, m);
      && out == (if taught && m.ttl != 1
                 then [Rrep(m.dst, m.dstSeqno, m.hopCount + 1, m.target, m.ttl - 1, n.index, Get(p.table, m.target).nexthop)] else [])
      && forall d: Addr, x: Addr ::
           x in Get(p.table, d).precursors <==>
             x in Get(n.table, d).precursors || (taught && d == m.dst && x == Get(p.table, m.target).nexthop)
  {
    ReplyTable(n, m, m.target);
    forall d: Addr, x: Addr
      ensures x in Get(RecvReply(n, m).0.table, d).precursors <==>
                || x in Get(n.table, d).precursors
                || (Beats(m.dstSeqno, m.hopCount, Get(n.table, m.dst)) && ReachesTarget(RecvReply(n, m).0, m)
                    && d == m.dst && x == Get(RecvReply(n, m).0.table, m.target).nexthop)
    {
      ReplyTable(n, m, d);
      hide Get, RecvReply;
    }
    ReplyPut(n, m, m.target);
    hide Get, Put;
  }

  // ---------- lists without repetition ----------

  ghost predicate NoRepeats(s: seq<Addr>) {
    forall i, j :: 0 <= i < j < |s| ==> s[i] != s[j]
  }

  ghost predicate OneEach(t: seq<Entry>) {
    forall i, j :: 0 <= i < j < |t| ==> t[i].dst != t[j].dst
  }

  // One entry for each destination, and each user of a route recorded once.
  ghost predicate ListsOk(t: seq<Entry>) {
    OneEach(t) && forall k :: 0 <= k < |t| ==> NoRepeats(t[k].precursors)
  }

  lemma {:induction false} PutLists(t: seq<Entry>, e: Entry)
    requires ListsOk(t) && NoRepeats(e.precursors)
    ensures ListsOk(Put(t, e))
  {}

  lemma {:induction false} GetLists(t: seq<Entry>, d: Addr)
    requires ListsOk(t)
    ensures NoRepeats(Get(t, d).precursors)
  {}

  lemma {:induction false} InsertOnce(e: Entry, id: Addr)
    requires NoRepeats(e.precursors)
    ensures NoRepeats(PcInsert(e, id).precursors)
  {}

  lemma {:induction false} NoRepeatsCons(x: Addr, s: seq<Addr>)
    ensures NoRepeats([x] + s) <==> NoRepeats(s) && x !in s
  {
    var t := [x] + s;
    assert forall i :: 0 <= i < |s| ==> t[i + 1] == s[i];
    assert forall i :: 0 < i < |t| ==> t[i] == s[i - 1];
    assert t[0] == x;
    if x !in s && NoRepeats(s) {
      assert forall i, j :: 0 <= i < j < |t| ==> t[i] != t[j];
    }
    if NoRepeats(t) {
      forall i, j | 0 <= i < j < |s| ensures s[i] != s[j] {
        assert t[i + 1] != t[j + 1];
      }
    }
  }

  // Removing the first occurrence removes the only one.
  lemma {:induction false} RemoveAll(s: seq<Addr>, id: Addr)
    requires NoRepeats(s)
    ensures NoRepeats(Remove(s, id)) && forall x :: x in Remove(s, id) <==> x in s && x != id
  {
    if s != [] {
      assert s == [s[0]] + s[1..];
      NoRepeatsCons(s[0], s[1..]);
      hide NoRepeats;
      if s[0] != id {
        RemoveAll(s[1..], id);
        NoRepeatsCons(s[0], Remove(s[1..], id));
      }
    }
  }

  lemma {:induction false} RequestLists(n: Node, m: Msg)
    requires ListsOk(n.table) && m.Rreq?
    ensures ListsOk(RecvRequest(n, m).0.table)
  {
    GetLists(n.table, m.src);
    var rt0 := Reversed(Get(n.table, m.src), m);
    PutLists(n.table, rt0);
    var t := Put(n.table, rt0);
    GetLists(t, m.dst);
    var rt := Get(t, m.dst);
    InsertOnce(rt, rt0.nexthop);
    PutLists(t, PcInsert(rt, rt0.nexthop));
    var t1 := Put(t, PcInsert(rt, rt0.nexthop));
    GetLists(t1, m.src);
    InsertOnce(Get(t1, m.src), rt.nexthop);
    PutLists(t1, PcInsert(Get(t1, m.src), rt.nexthop));
    hide Get, Put, ListsOk, NoRepeats, PcInsert, Reversed;
  }

  lemma {:induction false} ReplyLists(n: Node, m: Msg)
    requires ListsOk(n.table) && m.Rrep?
    ensures ListsOk(RecvReply(n, m).0.table)
  {
    var rt := Get(n.table, m.dst);
    GetLists(n.table, m.dst);
    PutLists(n.table, rt);
    var u := Update(rt, m.dstSeqno, m.hopCount, m.sender).(reqCnt := 0, reqTimeout := 0.0, reqLastTtl := m.hopCount);
    PutLists(n.table, u);
    var t := Put(n.table, u);
    var next := Get(t, m.target).nexthop;
    InsertOnce(u, next);
    PutLists(t, PcInsert(u, next));
    hide Get, Put, ListsOk, NoRepeats, PcInsert;
  }

  lemma {:induction false} ErrorLists(t: seq<Entry>, from: Addr, unreachable: seq<(Addr, nat)>)
    requires ListsOk(t)
    ensures ListsOk(ErrorAll(t, from, unreachable).0)
    decreases |unreachable|
  {
    if unreachable != [] {
      var k := |unreachable| - 1;
      ErrorLists(t, from, unreachable[..k]);
      var t1 := ErrorAll(t, from, unreachable[..k]).0;
      var e := Get(t1, unreachable[k].0);
      if ErrorHits(e, from, unreachable[k].1) { PutLists(t1, ErrorEntry(e, from, unreachable[k].1)); }
    }
  }

  lemma {:induction false} BrokenLists(t: seq<Entry>, id: Addr)
    requires ListsOk(t)
    ensures ListsOk(BrokenAll(t, id).0)
  {
    BrokenAllAt(t, id);
    forall k | 0 <= k < |t|
      ensures BrokenAll(t, id).0[k].dst == t[k].dst && NoRepeats(BrokenAll(t, id).0[k].precursors)
    {
      assert BrokenAll(t, id).0[k] == BrokenEntry(t[k], id);
      RemoveAll(t[k].precursors, id);
    }
  }

  lemma {:induction false} SendLists(n: Node, d: Addr, now: real, perHop: real)
    requires ListsOk(n.table)
    ensures ListsOk(SendRequest(n, d, now, perHop).0.table)
  {
    GetLists(n.table, d);
    PutLists(n.table, RequestEntry(Get(n.table, d), now, perHop).0);
    hide ListsOk;
  }

  lemma {:induction false} PurgeLists(n: Node, k: nat, p: Purge)
    requires ListsOk(n.table) && k <= |n.table|
    ensures ListsOk(PurgeTo(n, k, p).0.table)
  {
    hide SendRequest;
    if k > 0 {
      PurgeLists(n, k - 1, p);
      var m := PurgeTo(n, k - 1, p).0;
      SendLists(m, m.table[k - 1].dst, p.now, p.perHop(m.table[k - 1].dst));
    }
  }

  lemma {:induction false} HandlerLists(n: Node, ev: Event)
    requires ListsOk(n.table)
    ensures ListsOk(Handle(n, ev).0.table)
  {
    hide RecvRequest, RecvReply, ErrorAll, BrokenAll, SendRequest, ListsOk, PurgeTo;
    match ev
    case Deliver(_, m) =>
      if m.Rreq? { RequestLists(n, m); }
      else if m.Rrep? { ReplyLists(n, m); }
      else { ErrorLists(n.table, m.sender, m.unreachable); }
    case Discover(_, d, now, perHop) => SendLists(n, d, now, perHop);
    case Unroutable(_, d) =>
      GetLists(n.table, d);
      PutLists(n.table, Get(n.table, d));
    case LinkBreaks(_, id) => BrokenLists(n.table, id);
    case Expire(_, p) => PurgeLists(n, |n.table|, p);
    case ForgetIds(_, _) =>
    case Repair(_, d, now, perHop, _) =>
      var e := Get(n.table, d).(flags := InRepair);
      GetLists(n.table, d);
      PutLists(n.table, e);
      SendLists(n.(table := Put(n.table, e)), d, now, perHop);
    case RepairFails(_, d) =>
      GetLists(n.table, d);
      PutLists(n.table, Downed(Get(n.table, d)));
  }

  ghost predicate AllLists(s: Net) {
    forall r :: 0 <= r < |s.nodes| ==> ListsOk(s.nodes[r].table)
  }

  lemma {:induction false} RunLists(s: Net, evs: seq<Event>)
    requires AllLists(s) && Legal(s, evs)
    ensures AllLists(Run(s, evs))
    decreases |evs|
  {
    hide Handle, ListsOk;
    if evs != [] {
      HandlerLists(s.nodes[evs[0].r], evs[0]);
      RunLists(Apply(s, evs[0]), evs[1..]);
    }
  }

  // In every reachable state an agent has one entry for each destination and records
  // each user of a route once.
  lemma {:induction false} ReachableLists(size: nat, evs: seq<Event>)
    requires Legal(Initial(size), evs)
    ensures AllLists(Run(Initial(size), evs))
  {
    RunLists(Initial(size), evs);
  }

  // ---------- lost neighbours ----------

  ghost predicate Through(e: Entry, id: Addr) { e.hops.Finite? && e.nexthop == id }

  lemma {:induction false} BrokenGet(t: seq<Entry>, id: Addr, d: Addr)
    ensures Get(BrokenAll(t, id).0, d) == BrokenEntry(Get(t, d), id)
  {
    BrokenAllAt(t, id);
    var k := Find(t, d);
    var u := BrokenAll(t, id).0;
    forall j | 0 <= j < |t| ensures u[j].dst == t[j].dst {
      assert u[j] == BrokenEntry(t[j], id);
    }
    if k < |t| { FindAt(u, d, k); }
  }

  // An entry before and after the loss of neighbour `id`: no route goes through `id` any
  // more, one that did is down and newer by one, and `id` uses none.
  ghost predicate LosesNeighbour(e: Entry, f: Entry, id: Addr) {
    && !Through(f, id)
    && (if Through(e, id) then f.flags == Down && f.hops.Infinity? && f.seqno == e.seqno + 1 && f.lastHopCount == e.hops.n
        else SameRoute(e, f))
    && SameSearch(e, f)
    && forall x :: x in f.precursors <==> x in e.precursors && x != id
  }

  lemma {:induction false} LostNeighbour(s: Net, r: Addr, id: Addr, d: Addr)
    requires Inv(s) && r < |s.nodes| && ListsOk(s.nodes[r].table)
    ensures LosesNeighbour(Get(s.nodes[r].table, d), Get(LinkFailure(s.nodes[r], id).0.table, d), id)
  {
    var n := s.nodes[r];
    assert NodeOk(s, r, n);
    GetOk(s, n.table, d);
    GetLists(n.table, d);
    BrokenGet(n.table, id, d);
    RemoveAll(Get(n.table, d).precursors, id);
    hide Get, BrokenAll;
  }

  // So in every reachable state.
  lemma {:induction false} ReachableLoss(size: nat, evs: seq<Event>, r: Addr, id: Addr, d: Addr)
    requires Legal(Initial(size), evs) && RepairsSettle(Initial(size), evs) && r < size
    ensures |Run(Initial(size), evs).nodes| == size
    ensures var n := Run(Initial(size), evs).nodes[r]; LosesNeighbour(Get(n.table, d), Get(LinkFailure(n, id).0.table, d), id)
  {
    InitialInv(size);
    RunInv(Initial(size), evs);
    ReachableLists(size, evs);
    hide *;
    assert |Initial(size).nodes| == size by { InitialSize(size); }
    var s := Run(Initial(size), evs);
    assert ListsOk(s.nodes[r].table) by { ListsAt(s, r); }
    LostNeighbour(s, r, id, d);
  }

  lemma {:induction false} InitialSize(size: nat)
    ensures |Initial(size).nodes| == size
  {}

  lemma {:induction false} ListsAt(s: Net, r: Addr)
    requires AllLists(s) && r < |s.nodes|
    ensures ListsOk(s.nodes[r].table)
  {}

  lemma {:induction false} BrokenReported(t: seq<Entry>, id: Addr, d: Addr, x: nat)
    requires OneEach(t)
    ensures (d, x) in BrokenAll(t, id).1 <==> Through(Get(t, d), id) && x == Get(t, d).seqno + 1
    ensures BrokenAll(t, id).1 != [] <==> exists c: Addr :: Through(Get(t, c), id)
  {
    BrokenNamed(t, id);
    var out := BrokenAll(t, id).1;
    forall c: Addr, y: nat
      ensures (c, y) in out <==> Through(Get(t, c), id) && y == Get(t, c).seqno + 1
    {
      BrokenAt(t, id, c, y);
    }
    if out != [] { assert (out[0].0, out[0].1) in out; }
    if c: Addr :| Through(Get(t, c), id) { assert (c, Get(t, c).seqno + 1) in out; }
  }

  lemma {:induction false} BrokenAt(t: seq<Entry>, id: Addr, d: Addr, x: nat)
    requires OneEach(t)
    ensures WasBroken(t, id, (d, x)) <==> Through(Get(t, d), id) && x == Get(t, d).seqno + 1
  {
    var k := Find(t, d);
    if WasBroken(t, id, (d, x)) {
      var j :| 0 <= j < |t| && Uses(t[j], id) && (d, x) == (t[j].dst, t[j].seqno + 1);
      assert j == k;
    }
    if k < |t| && Uses(t[k], id) { assert WasBroken(t, id, (t[k].dst, t[k].seqno + 1)); }
  }

  lemma {:induction false} BrokenNamed(t: seq<Entry>, id: Addr)
    ensures forall q :: q in BrokenAll(t, id).1 <==> WasBroken(t, id, q)
  {
    if t != [] {
      var k := |t| - 1;
      BrokenNamed(t[..k], id);
      forall q
        ensures q in BrokenAll(t, id).1 <==> WasBroken(t, id, q)
      {
        if WasBroken(t[..k], id, q) {
          var j :| 0 <= j < k && Uses(t[..k][j], id) && q == (t[..k][j].dst, t[..k][j].seqno + 1);
          assert Uses(t[j], id);
        }
        if WasBroken(t, id, q) {
          var j :| 0 <= j < |t| && Uses(t[j], id) && q == (t[j].dst, t[j].seqno + 1);
          assert j < k ==> Uses(t[..k][j], id);
        }
        assert Uses(t[k], id) ==> WasBroken(t, id, (t[k].dst, t[k].seqno + 1));
      }
    }
  }

  // The error sent names exactly the routes that went down, with their new numbers, and
  // goes out exactly if there are any.
  lemma {:induction false} LossReported(n: Node, id: Addr)
    requires OneEach(n.table)
    ensures var (p, out) := LinkFailure(n, id);
      && p.index == n.index && p.seqno == n.seqno + 2 && p.bid == n.bid && p.seen == n.seen
      && (if exists d: Addr :: Through(Get(n.table, d), id) then |out| == 1 && out[0].Rerr? && out[0].sender == n.index else out == [])
      && (out != [] ==> forall d: Addr, x: nat ::
            (d, x) in out[0].unreachable <==> Through(Get(n.table, d), id) && x == Get(n.table, d).seqno + 1)
  {
    forall d: Addr, x: nat
      ensures (d, x) in BrokenAll(n.table, id).1 <==> Through(Get(n.table, d), id) && x == Get(n.table, d).seqno + 1
      ensures BrokenAll(n.table, id).1 != [] <==> exists c: Addr :: Through(Get(n.table, c), id)
    {
      BrokenReported(n.table, id, d, x);
    }
    assert BrokenAll(n.table, id).1 != [] <==> exists c: Addr :: Through(Get(n.table, c), id) by {
      BrokenReported(n.table, id, 0, 0);
    }
    hide Get, BrokenAll;
  }

  // ---------- route errors ----------

  // What is reported of the entry for `d` after the items `u` of an error.
  ghost predicate Reported(e: Entry, from: Addr, u: seq<(Addr, nat)>, d: Addr, x: nat) {
    var k := FirstHit(e, from, u);
    e.dst == d && k < |u| && x == u[k].1 && e.precursors != []
  }

  lemma {:induction false} FirstHitMore(e: Entry, from: Addr, u: seq<(Addr, nat)>)
    requires u != []
    ensures var j := |u| - 1;
      var k := FirstHit(e, from, u[..j]);
      FirstHit(e, from, u) == if k < j then k else if Hit(e, from, u, j) then j else j + 1
  {}

  lemma {:induction false} ErrorNames(t: seq<Entry>, from: Addr, u: seq<(Addr, nat)>, d: Addr, x: nat)
    requires EntriesOk(t)
    ensures (d, x) in ErrorAll(t, from, u).1 <==> Reported(Get(t, d), from, u, d, x)
    decreases |u|
  {
    if u != [] {
      var j := |u| - 1;
      var v := u[..j];
      var e, c := Get(t, d), u[j].0;
      ErrorNames(t, from, v, d, x);
      FirstHitMore(e, from, u);
      EntryAt(t, c);
      ErrorAllGet(t, from, v, c);
      HitOnce(Get(t, c), from, v, j);
      assert v[..j] == v;
      hide Get, FirstHit, ErrorAll;
      assert ErrorAll(t, from, u).1 == NextReport(ErrorAll(t, from, v), from, u[j]) by { ErrorLast(t, from, u); }
    }
  }

  lemma {:induction false} EntryAt(t: seq<Entry>, d: Addr)
    requires EntriesOk(t)
    ensures EntryOk(Get(t, d))
  {}

  ghost function NextReport(r: (seq<Entry>, seq<(Addr, nat)>), from: Addr, q: (Addr, nat)): seq<(Addr, nat)> {
    if ErrorHits(Get(r.0, q.0), from, q.1) && Get(r.0, q.0).precursors != [] then r.1 + [q] else r.1
  }

  lemma {:induction false} ErrorLast(t: seq<Entry>, from: Addr, u: seq<(Addr, nat)>)
    requires u != []
    ensures ErrorAll(t, from, u).1 == NextReport(ErrorAll(t, from, u[..|u| - 1]), from, u[|u| - 1])
  {}

  // Who is told about an error: it is passed on exactly if some route it takes down has
  // users, and names just these routes, with the number reported first.
  lemma {:induction false} ErrorPassedOn(s: Net, r: Addr, m: Msg)
    requires Inv(s) && r < |s.nodes| && m.Rerr? && m in s.msgs
    ensures var n := s.nodes[r];
      var (p, out) := RecvError(n, m);
      && p.index == n.index && p.seqno == n.seqno && p.bid == n.bid && p.seen == n.seen
      && (if exists d: Addr, x: nat :: Reported(Get(n.table, d), m.sender, m.unreachable, d, x)
          then |out| == 1 && out[0].Rerr? && out[0].sender == n.index else out == [])
      && (out != [] ==> forall d: Addr, x: nat ::
            (d, x) in out[0].unreachable <==> Reported(Get(n.table, d), m.sender, m.unreachable, d, x))
  {
    var n := s.nodes[r];
    assert NodeOk(s, r, n);
    var out := ErrorAll(n.table, m.sender, m.unreachable).1;
    forall d: Addr, x: nat
      ensures (d, x) in out <==> Reported(Get(n.table, d), m.sender, m.unreachable, d, x)
    {
      ErrorNames(n.table, m.sender, m.unreachable, d, x);
    }
    hide Get, ErrorAll, Reported;
    if out != [] { assert (out[0].0, out[0].1) in out; }
  }

  // The rest of an entry that an error finds: hit, it has no users left; the state of
  // a search for its destination stays.
  lemma {:induction false} ErrorUsers(s: Net, r: Addr, m: Msg, d: Addr)
    requires Inv(s) && r < |s.nodes| && m.Rerr? && m in s.msgs
    ensures var e, f := Get(s.nodes[r].table, d), Get(RecvError(s.nodes[r], m).0.table, d);
      && SameSearch(e, f)
      && if FirstHit(e, m.sender, m.unreachable) < |m.unreachable| then f.precursors == [] && f.lastHopCount == e.hops.n
         else f == e
  {
    assert NodeOk(s, r, s.nodes[r]);
    EntryAt(s.nodes[r].table, d);
    ErrorAllGet(s.nodes[r].table, m.sender, m.unreachable, d);
  }

  // Agent `u` sends packets for `d` to `r`, and `r` sends them to `id`. When `r` loses
  // `id` it sends an error, and once `u` has received that, `u` no longer sends packets
  // for `d` to `r`, whatever its entry says of their freshness.
  lemma {:induction false} BreakReaches(s: Net, u: Addr, r: Addr, id: Addr, d: Addr)
    requires Inv(s) && AllLists(s)
    requires u != r && r != d && NextHop(s, u, r, d) && NextHop(s, r, id, d)
    ensures var (n, out) := LinkFailure(s.nodes[r], id);
      && |out| == 1 && out[0].Rerr?
      && Get(RecvError(s.nodes[u], out[0]).0.table, d).flags == Down
      && Get(RecvError(s.nodes[u], out[0]).0.table, d).hops.Infinity?
  {
    var n := s.nodes[r];
    assert NodeOk(s, r, n) && NodeOk(s, u, s.nodes[u]);
    NextHopFresher(s, u, r, d);
    LossReported(n, id);
    var m := LinkFailure(n, id).1[0];
    assert Through(Get(n.table, d), id);
    var e := Get(s.nodes[u].table, d);
    var x := Get(n.table, d).seqno + 1;
    assert (d, x) in m.unreachable;
    var k :| 0 <= k < |m.unreachable| && m.unreachable[k] == (d, x);
    assert Hit(e, n.index, m.unreachable, k);
    EntryAt(s.nodes[u].table, d);
    ErrorAllGet(s.nodes[u].table, m.sender, m.unreachable, d);
    hide LinkFailure, Get, FirstHit;
  }

  // ---------- sending requests ----------

  ghost predicate Permitted(e: Entry, now: real) { e.flags != Up && e.reqTimeout <= now }

  // The radius of the search after one of radius `last`.
  ghost function NextRadius(last: nat): nat {
    if last == 0 then 5 else if last < 7 then last + 2 else 30
  }

  // How long a search of radius `ttl` waits, `wide` searches of the whole network
  // having been sent.
  ghost function Patience(ttl: nat, wide: nat, perHop: real): real {
    var once := 2.0 * ttl as real * perHop;
    var t := if wide == 0 then once else once * wide as real;
    if t > 10.0 then 10.0 else t
  }

  // The entry searched for, before and after.
  ghost predicate Searched(e: Entry, f: Entry, now: real, perHop: real) {
    var last := if e.reqLastTtl > e.lastHopCount then e.reqLastTtl else e.lastHopCount;
    && SameRoute(e, f) && f.precursors == e.precursors
    && if !Permitted(e, now) then f == e
       else if e.reqCnt > 3 then f.reqCnt == 0 && f.reqTimeout == now + 10.0 && f.reqLastTtl == e.reqLastTtl
       else
         && f.reqLastTtl == NextRadius(last)
         && f.reqCnt == (if last >= 7 then e.reqCnt + 1 else e.reqCnt)
         && f.reqTimeout == now + Patience(f.reqLastTtl, f.reqCnt, perHop)
  }

  lemma {:induction false} RequestEntrySearches(e: Entry, now: real, perHop: real)
    ensures Searched(e, RequestEntry(e, now, perHop).0, now, perHop)
    ensures RequestEntry(e, now, perHop).1.Sent? <==> Permitted(e, now) && e.reqCnt <= 3
  {
    var f := RequestEntry(e, now, perHop).0;
    assert RequestTimeout(f.reqLastTtl, f.reqCnt, now, perHop) == now + Patience(f.reqLastTtl, f.reqCnt, perHop);
    hide RequestTimeout, Patience;
  }

  // A search is sent exactly when the route is not up, the last one has been waited for,
  // and not four have covered the whole network; how far it goes and how long it is
  // waited for; no other entry changes.
  lemma {:induction false} RequestSent(n: Node, d: Addr, now: real, perHop: real)
    ensures var e := Get(n.table, d);
      var (p, out) := SendRequest(n, d, now, perHop);
      var f := Get(p.table, d);
      && p.index == n.index && p.seen == n.seen
      && Searched(e, f, now, perHop)
      && (forall c: Addr :: c != d ==> Get(p.table, c) == Get(n.table, c))
      && if Permitted(e, now) && e.reqCnt <= 3 then
           p.seqno == n.seqno + 2 && p.bid == n.bid + 1
           && out == [Rreq(n.index, p.seqno, d, e.seqno, n.bid, 1, f.reqLastTtl, n.index)]
         else p.seqno == n.seqno && p.bid == n.bid && out == []
  {
    var e := RequestEntry(Get(n.table, d), now, perHop).0;
    RequestEntrySearches(Get(n.table, d), now, perHop);
    forall c: Addr
      ensures Get(Put(n.table, e), c) == if c == d then e else Get(n.table, c)
    {
      GetPut(n.table, e, c);
    }
    hide Get, Put;
  }

  // A packet without a route: reported exactly if the route is down; no lookup changes.
  lemma {:induction false} Unreached(n: Node, d: Addr)
    ensures var (p, out) := NoRoute(n, d);
      && p.index == n.index && p.seqno == n.seqno && p.bid == n.bid && p.seen == n.seen
      && (forall c: Addr :: Get(p.table, c) == Get(n.table, c))
      && out == if Get(n.table, d).flags == Down then [Rerr([(d, Get(n.table, d).seqno)], n.index)] else []
  {
    forall c: Addr
      ensures Get(Put(n.table, Get(n.table, d)), c) == Get(n.table, c)
    {
      GetPut(n.table, Get(n.table, d), c);
    }
  }

  // A repair searches for the destination at once, if the last search has been waited
  // for, and keeps the rest of the route for the data packets that still come.
  lemma {:induction false} RepairSearches(n: Node, d: Addr, now: real, perHop: real)
    ensures var e := Get(n.table, d).(flags := InRepair);
      var (p, out) := LocalRepair(n, d, now, perHop);
      && Searched(e, Get(p.table, d), now, perHop)
      && (forall c: Addr :: c != d ==> Get(p.table, c) == Get(n.table, c))
      && (out != [] <==> Permitted(e, now) && e.reqCnt <= 3)
      && forall m :: m in out ==> m == Rreq(n.index, n.seqno + 2, d, e.seqno, n.bid, 1, Get(p.table, d).reqLastTtl, n.index)
  {
    var e := Get(n.table, d).(flags := InRepair);
    forall c: Addr
      ensures Get(Put(n.table, e), c) == if c == d then e else Get(n.table, c)
    {
      GetPut(n.table, e, c);
    }
    RequestSent(n.(table := Put(n.table, e)), d, now, perHop);
    hide Get, Put, SendRequest;
  }

  // The timer of a repair takes down the route that is not up, with its number as it is.
  lemma {:induction false} RepairGivenUp(n: Node, d: Addr, c: Addr)
    ensures var e, f := Get(n.table, c), Get(RepairTimeout(n, d).0.table, c);
      if c == d && e.flags == InRepair then
        f.flags == Down && f.hops.Infinity? && f.seqno == e.seqno && f.precursors == e.precursors
        && f.lastHopCount == (if e.hops.Finite? then e.hops.n else 255) && SameSearch(e, f)
      else f == e
  {
    GetPut(n.table, Downed(Get(n.table, d)), c);
  }

  // ---------- expired routes ----------

  // The purge asks for `d`: its route is not up and packets for it wait.
  ghost predicate Asks(e: Entry, p: Purge) {
    e.flags != Up && e.dst in p.waiting && e.reqTimeout <= p.now && e.reqCnt <= 3
  }

  // One entry before and after the purge.
  ghost predicate Aged(e: Entry, f: Entry, p: Purge) {
    if e.flags == Up then
      if e.dst in p.expired then
        && f.flags == Down && f.hops.Infinity? && f.seqno == e.seqno + 1 && f.dst == e.dst
        && f.lastHopCount == (if e.hops.Finite? then e.hops.n else 255) && f.precursors == e.precursors && SameSearch(e, f)
      else f == e
    else if e.dst in p.waiting then Searched(e, f, p.now, p.perHop(e.dst))
    else f == e
  }

  // Request `i` of the purge of `n`.
  ghost predicate RequestOf(n: Node, t: seq<Entry>, u: seq<Entry>, p: Purge, out: seq<Msg>, i: nat) {
    i < |out| && out[i].Rreq? &&
    var k := Find(t, out[i].dst);
    && k < |t| && k < |u| && Asks(t[k], p)
    && out[i] == Rreq(n.index, n.seqno + 2 * (i + 1), t[k].dst, t[k].seqno, n.bid + i, 1, u[k].reqLastTtl, n.index)
  }

  // The table `u` when the purge has come to entry `k` of `t`.
  ghost predicate AgedTo(t: seq<Entry>, k: nat, u: seq<Entry>, p: Purge) {
    && |u| == |t|
    && (forall i :: 0 <= i < k && i < |t| ==> Aged(t[i], u[i], p))
    && (forall i :: k <= i < |t| ==> u[i] == t[i])
    && (forall i :: 0 <= i < |t| ==> u[i].dst == t[i].dst)
  }

  lemma {:induction false} PurgedTo(n: Node, k: nat, p: Purge)
    requires OneEach(n.table) && k <= |n.table|
    ensures var (q, out) := PurgeTo(n, k, p);
      AgedTo(n.table, k, q.table, p) && q.seqno == n.seqno + 2 * |out| && q.bid == n.bid + |out|
  {
    hide PurgeTo, OneEach;
    PurgeNext(n, k, p);
    if k > 0 {
      PurgedTo(n, k - 1, p);
      var m := PurgeTo(n, k - 1, p).0;
      PurgedAt(n, m, k - 1, p);
      var q := PurgeAt(m, k - 1, p).0;
      AgedDst(n.table[k - 1], q.table[k - 1], p);
      hide PurgeAt, Aged, Asks;
    }
  }

  lemma {:induction false} AgedDst(e: Entry, f: Entry, p: Purge)
    requires Aged(e, f, p)
    ensures f.dst == e.dst
  {}

  // The requests `out` of the purge as far as entry `k`, with `u` the table by then.
  ghost predicate AskedTo(n: Node, k: nat, u: seq<Entry>, p: Purge, out: seq<Msg>) {
    && (forall i :: 0 <= i < |out| ==> RequestOf(n, n.table, u, p, out, i) && out[i].Rreq? && Find(n.table, out[i].dst) < k)
    && forall j :: 0 <= j < k && j < |n.table| && Asks(n.table[j], p) ==> Named(out, n.table[j].dst)
  }

  lemma {:induction false} PurgeAsks(n: Node, k: nat, p: Purge)
    requires OneEach(n.table) && k <= |n.table|
    ensures AskedTo(n, k, PurgeTo(n, k, p).0.table, p, PurgeTo(n, k, p).1)
  {
    hide AskedTo, PurgeTo, Asks, OneEach;
    PurgeNext(n, k, p);
    if k == 0 {
      AskedNone(n, p);
    } else {
      PurgeAsks(n, k - 1, p);
      AsksNext(n, k - 1, p);
    }
  }

  lemma {:induction false} AskedNone(n: Node, p: Purge)
    ensures AskedTo(n, 0, n.table, p, [])
  {}

  lemma {:induction false} PurgeNext(n: Node, k: nat, p: Purge)
    requires k <= |n.table|
    ensures if k == 0 then PurgeTo(n, k, p) == (n, [])
      else
        var m := PurgeTo(n, k - 1, p);
        PurgeTo(n, k, p) == (PurgeAt(m.0, k - 1, p).0, m.1 + PurgeAt(m.0, k - 1, p).1)
  {}

  lemma {:induction false} AsksNext(n: Node, k: nat, p: Purge)
    requires OneEach(n.table) && k < |n.table|
    requires AskedTo(n, k, PurgeTo(n, k, p).0.table, p, PurgeTo(n, k, p).1)
    ensures var m := PurgeTo(n, k, p); AskedTo(n, k + 1, PurgeAt(m.0, k, p).0.table, p, m.1 + PurgeAt(m.0, k, p).1)
  {
    hide PurgeTo, AskedTo, PurgeAt, Asks, OneEach;
    PurgedTo(n, k, p);
    var (m, out) := PurgeTo(n, k, p);
    assert m.table[k] == n.table[k];
    PurgedAt(n, m, k, p);
    hide AgedTo, Find;
    AskedMore(n, k, m.table, PurgeAt(m, k, p).0.table, p, out, PurgeAt(m, k, p).1);
  }

  lemma {:induction false} AskedMore(n: Node, k: nat, u: seq<Entry>, v: seq<Entry>, p: Purge, out: seq<Msg>, more: seq<Msg>)
    requires k < |n.table| == |u| == |v| && Find(n.table, n.table[k].dst) == k && AskedTo(n, k, u, p, out)
    requires forall j :: 0 <= j < k ==> v[j] == u[j]
    requires if Asks(n.table[k], p)
      then more == [Rreq(n.index, n.seqno + 2 * |out| + 2, n.table[k].dst, n.table[k].seqno, n.bid + |out|, 1, v[k].reqLastTtl, n.index)]
      else more == []
    ensures AskedTo(n, k + 1, v, p, out + more)
  {
    hide Asks, Find, RequestOf, Named;
    forall i | 0 <= i < |out + more|
      ensures RequestOf(n, n.table, v, p, out + more, i) && (out + more)[i].Rreq? && Find(n.table, (out + more)[i].dst) < k + 1
    {
      if i < |out| { RequestKept(n, u, v, p, out, more, i, k); } else { RequestLast(n, v, p, out, more, k); }
    }
    forall j | 0 <= j < k + 1 && Asks(n.table[j], p)
      ensures Named(out + more, n.table[j].dst)
    {
      NamedMore(out, more, n.table[j].dst);
      if j == k { NamedOne(more[0]); }
    }
  }

  lemma {:induction false} NamedOne(m: Msg)
    requires m.Rreq?
    ensures Named([m], m.dst)
  {
    assert m in [m];
  }

  lemma {:induction false} RequestKept(n: Node, u: seq<Entry>, v: seq<Entry>, p: Purge, out: seq<Msg>, more: seq<Msg>, i: nat, k: nat)
    requires RequestOf(n, n.table, u, p, out, i) && out[i].Rreq? && Find(n.table, out[i].dst) < k <= |u| == |v| && forall j :: 0 <= j < k ==> u[j] == v[j]
    ensures RequestOf(n, n.table, v, p, out + more, i) && (out + more)[i] == out[i]
  {}

  lemma {:induction false} RequestLast(n: Node, v: seq<Entry>, p: Purge, out: seq<Msg>, more: seq<Msg>, k: nat)
    requires k < |n.table| == |v| && Find(n.table, n.table[k].dst) == k && Asks(n.table[k], p)
    requires more == [Rreq(n.index, n.seqno + 2 * |out| + 2, n.table[k].dst, n.table[k].seqno, n.bid + |out|, 1, v[k].reqLastTtl, n.index)]
    ensures RequestOf(n, n.table, v, p, out + more, |out|) && (out + more)[|out|] == more[0]
  {}

  // A request for `d` is among `out`.
  ghost predicate Named(out: seq<Msg>, d: Addr) {
    exists m :: m in out && m.Rreq? && m.dst == d
  }

  lemma {:induction false} NamedMore(out: seq<Msg>, more: seq<Msg>, d: Addr)
    ensures Named(out + more, d) <==> Named(out, d) || Named(more, d)
  {
    assert forall m :: m in out + more <==> m in out || m in more;
  }

  // One turn of the loop, the entries from `k` on being untouched so far.
  lemma {:induction false} PurgedAt(n: Node, m: Node, k: nat, p: Purge)
    requires OneEach(n.table) && |m.table| == |n.table| && k < |n.table| && m.table[k] == n.table[k] && m.index == n.index
    requires forall i :: 0 <= i < |n.table| ==> m.table[i].dst == n.table[i].dst
    ensures var (q, more) := PurgeAt(m, k, p);
      && |q.table| == |n.table| && Aged(n.table[k], q.table[k], p)
      && (forall i :: 0 <= i < |n.table| && i != k ==> q.table[i] == m.table[i])
      && q.seqno == m.seqno + 2 * |more| && q.bid == m.bid + |more|
      && Find(n.table, n.table[k].dst) == k
      && if Asks(n.table[k], p)
         then more == [Rreq(n.index, m.seqno + 2, n.table[k].dst, n.table[k].seqno, m.bid, 1, q.table[k].reqLastTtl, n.index)] else more == []
  {
    var e := n.table[k];
    FindAt(m.table, e.dst, k);
    FindAt(n.table, e.dst, k);
    RequestEntrySearches(e, p.now, p.perHop(e.dst));
  }

  // What the purge does to the route to `d`, and that it asks for `d` exactly if packets
  // wait for it, its route is not up and a search is permitted.
  lemma {:induction false} PurgeExactly(n: Node, p: Purge, d: Addr)
    requires OneEach(n.table)
    ensures var (q, out) := RtPurge(n, p);
      && q.index == n.index && q.seen == n.seen && q.seqno == n.seqno + 2 * |out| && q.bid == n.bid + |out|
      && (forall i :: 0 <= i < |out| ==> RequestOf(n, n.table, q.table, p, out, i))
      && (Named(out, d) <==> Find(n.table, d) < |n.table| && Asks(Get(n.table, d), p))
      && if Find(n.table, d) < |n.table| then Aged(Get(n.table, d), Get(q.table, d), p) else Get(q.table, d) == Get(n.table, d)
  {
    var k := |n.table|;
    PurgedTo(n, k, p);
    PurgeAsks(n, k, p);
    var (q, out) := PurgeTo(n, k, p);
    var i := Find(n.table, d);
    if i < k { FindAt(q.table, d, i); }
    hide Aged, Asks, PurgeTo;
    if Named(out, d) {
      var m :| m in out && m.Rreq? && m.dst == d;
      var j :| 0 <= j < |out| && out[j] == m;
      assert RequestOf(n, n.table, q.table, p, out, j);
    }
  }

  // Exactly the ids whose time is over are forgotten.
  lemma {:induction false} IdsForgotten(n: Node, gone: set<(Addr, nat)>, b: (Addr, nat))
    ensures var (p, out) := IdPurge(n, gone);
      out == [] && p == n.(seen := p.seen) && (b in p.seen <==> b in n.seen && b !in gone)
  {}
}
