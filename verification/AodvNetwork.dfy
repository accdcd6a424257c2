// A network of AODV agents. Messages once sent stay in flight for ever: each
// may be received by any agent, any number of times, in any order, or never.
module AodvNetwork {
  import opened AodvRoute
  import opened AodvAgent

  datatype Net = Net(nodes: seq<Node>, msgs: set<Msg>)

  datatype Event =
    | Deliver(r: Addr, m: Msg)
    | Discover(r: Addr, d: Addr, now: real, perHop: real)
    | Unroutable(r: Addr, d: Addr)
    | LinkBreaks(r: Addr, id: Addr)
    | Expire(r: Addr, p: Purge)
    | ForgetIds(r: Addr, gone: set<(Addr, nat)>)
    | Repair(r: Addr, d: Addr, now: real, perHop: real, forwards: nat)
    | RepairFails(r: Addr, d: Addr)

  function Handle(n: Node, ev: Event): (Node, seq<Msg>) {
    match ev
    case Deliver(_, m) => (
      match m
      case Rreq(_, _, _, _, _, _, _, _) => RecvRequest(n, m)
      case Rrep(_, _, _, _, _, _, _) => RecvReply(n, m)
      case Rerr(_, _) => RecvError(n, m))
    case Discover(_, d, now, perHop) => SendRequest(n, d, now, perHop)
    case Unroutable(_, d) => NoRoute(n, d)
    case LinkBreaks(_, id) => LinkFailure(n, id)
    case Expire(_, p) => RtPurge(n, p)
    case ForgetIds(_, gone) => IdPurge(n, gone)
    case Repair(_, d, now, perHop, _) => LocalRepair(n, d, now, perHop)
    case RepairFails(_, d) => RepairTimeout(n, d)
  }

  predicate UsableAndEven(e: Entry) { e.flags == Up && e.seqno % 2 == 0 }

  // The assertions in the handlers, each where the handler meets it; an agent whose
  // assertion fails aborts. Assertions on a lookup just made are left out.
  ghost predicate AssertsHold(n: Node, ev: Event) {
    match ev
    case Deliver(_, m) => (
      match m
      case Rreq(_, _, _, _, _, _, _, _) =>
        // lines 727 and 731
        var rt0 := Get(n.table, m.src);
        m.src != n.index && (m.src, m.bcastId) !in n.seen && Improves(rt0, m.srcSeqno, m.hopCount) ==>
          Reversed(rt0, m).flags == Up && Reversed(rt0, m).hops.Finite?
      case Rrep(_, _, _, _, _, _, _) => ReplyAsserts(n, m)
      case Rerr(_, _) =>
        // lines 955 and 956
        forall k :: 0 <= k < |m.unreachable| ==>
          var e := Get(ErrorAll(n.table, m.sender, m.unreachable[..k]).0, m.unreachable[k].0);
          ErrorHits(e, m.sender, m.unreachable[k].1) ==> UsableAndEven(e))
    case Discover(_, d, _, _) => RequestAsserts(n, d)
    case Unroutable(_, d) =>
      // lines 458 and 488
      Get(n.table, d).flags == Up ==> Get(n.table, d).hops.Finite?
    case LinkBreaks(_, id) =>
      // lines 357, 358 and 1359
      n.seqno % 2 == 0 && forall k :: 0 <= k < |n.table| && Uses(n.table[k], id) ==> UsableAndEven(n.table[k])
    case Expire(_, p) => forall k :: 0 <= k < |n.table| ==> PurgeAsserts(PurgeTo(n, k, p).0, k, p)
    case ForgetIds(_, _) => true
    case Repair(_, _, _, _, _) => n.seqno % 2 == 0
    case RepairFails(_, _) => true
  }

  // Lines 891, 918 and 1023: the route to the target of a reply is looked at before
  // the reply's TTL is.
  ghost predicate ReplyAsserts(n: Node, m: Msg)
    requires m.Rrep?
  {
    var rt := Get(n.table, m.dst);
    Improves(rt, m.dstSeqno, m.hopCount) ==>
      var u := Update(rt, m.dstSeqno, m.hopCount, m.sender);
      && u.flags == Up
      && (m.target != n.index && Get(Put(n.table, u), m.target).hops.Finite? ==> Get(Put(n.table, u), m.target).flags == Up)
  }

  // Lines 1079 and 1177.
  ghost predicate RequestAsserts(n: Node, d: Addr) {
    (Get(n.table, d).flags == Up ==> Get(n.table, d).hops.Finite?) && n.seqno % 2 == 0
  }

  // Lines 515, 524 and 532, and those of the request sent for a waiting packet.
  ghost predicate PurgeAsserts(n: Node, k: nat, p: Purge)
    requires k < |n.table|
  {
    var e := n.table[k];
    if e.flags == Up then e.hops.Finite? && (e.dst in p.expired ==> e.seqno % 2 == 0)
    else e.dst in p.waiting ==> RequestAsserts(n, e.dst)
  }

  // A repair takes a packet that has been forwarded more often than the route is long
  // (line 325).
  ghost predicate Possible(s: Net, ev: Event) {
    && ev.r < |s.nodes|
    && (ev.Deliver? ==> ev.m in s.msgs)
    && (ev.Repair? ==> Get(s.nodes[ev.r].table, ev.d).hops.Finite? && ev.forwards > Get(s.nodes[ev.r].table, ev.d).hops.n)
  }

  ghost predicate Enabled(s: Net, ev: Event) {
    Possible(s, ev) && AssertsHold(s.nodes[ev.r], ev)
  }

  ghost function Apply(s: Net, ev: Event): Net
    requires ev.r < |s.nodes|
  {
    var (n, out) := Handle(s.nodes[ev.r], ev);
    Net(s.nodes[ev.r := n], s.msgs + set m | m in out)
  }

  ghost function Initial(size: nat): Net {
    Net(seq(size, i requires 0 <= i < size => NewNode(i)), {})
  }

  // `evs` can happen one after the other from `s`.
  ghost predicate Legal(s: Net, evs: seq<Event>)
    decreases |evs|
  {
    evs == [] || (Enabled(s, evs[0]) && Legal(Apply(s, evs[0]), evs[1..]))
  }

  ghost function Run(s: Net, evs: seq<Event>): Net
    requires Legal(s, evs)
    decreases |evs|
  {
    if evs == [] then s else Run(Apply(s, evs[0]), evs[1..])
  }

  // ---------- the invariant ----------

  // `from` is a next hop for `d` that is closer or fresher than (seqno, hops).
  ghost predicate Backed(s: Net, from: Addr, d: Addr, seqno: nat, hops: nat) {
    && from < |s.nodes|
    && hops >= 1
    && (from == d || AtLeast(Get(s.nodes[from].table, d), seqno, hops - 1))
  }

  ghost predicate RouteOk(s: Net, e: Entry) {
    e.hops.Finite? ==> Backed(s, e.nexthop, e.dst, e.seqno, e.hops.n)
  }

  ghost predicate EntriesOk(t: seq<Entry>) {
    forall k :: 0 <= k < |t| ==> EntryOk(t[k])
  }

  ghost predicate RoutesOk(s: Net, t: seq<Entry>) {
    forall d: Addr :: RouteOk(s, Get(t, d))
  }

  ghost predicate OwnSeqno(seqno: nat) { seqno >= 2 && seqno % 2 == 0 }

  ghost predicate Stale(unreachable: seq<(Addr, nat)>) {
    forall k :: 0 <= k < |unreachable| ==> unreachable[k].1 % 2 == 1 || unreachable[k].1 == 0
  }

  ghost predicate MsgOk(s: Net, m: Msg) {
    match m
    case Rreq(src, srcSeqno, _, _, _, hops, _, sender) => OwnSeqno(srcSeqno) && Backed(s, sender, src, srcSeqno, hops)
    case Rrep(dst, dstSeqno, hops, _, _, sender, _) => OwnSeqno(dstSeqno) && Backed(s, sender, dst, dstSeqno, hops)
    case Rerr(unreachable, _) => Stale(unreachable)
  }

  ghost predicate NodeOk(s: Net, r: Addr, n: Node) {
    n.index == r && OwnSeqno(n.seqno) && EntriesOk(n.table) && RoutesOk(s, n.table)
  }

  ghost predicate Inv(s: Net) {
    && (forall r :: 0 <= r < |s.nodes| ==> NodeOk(s, r, s.nodes[r]))
    && (forall m :: m in s.msgs ==> MsgOk(s, m))
  }

  ghost predicate Fresher(t: seq<Entry>, u: seq<Entry>) {
    forall d: Addr :: NotWorse(Get(t, d), Get(u, d))
  }

  // A message that `n` may send: what it offers about others, its table has.
  ghost predicate Offers(n: Node, sender: Addr, d: Addr, seqno: nat, hops: nat) {
    sender == n.index && OwnSeqno(seqno) && hops >= 1 && (d == n.index || AtLeast(Get(n.table, d), seqno, hops - 1))
  }

  ghost predicate MaySend(n: Node, m: Msg) {
    match m
    case Rreq(src, srcSeqno, _, _, _, hops, _, sender) => Offers(n, sender, src, srcSeqno, hops)
    case Rrep(dst, dstSeqno, hops, _, _, sender, _) => Offers(n, sender, dst, dstSeqno, hops)
    case Rerr(unreachable, _) => Stale(unreachable)
  }

  // What every handler does, whatever it was called for.
  ghost predicate Sound(s: Net, n: Node, p: (Node, seq<Msg>)) {
    && p.0.index == n.index && OwnSeqno(p.0.seqno)
    && EntriesOk(p.0.table) && RoutesOk(s, p.0.table)
    && Fresher(n.table, p.0.table)
    && forall k :: 0 <= k < |p.1| ==> MaySend(p.0, p.1[k])
  }

  lemma {:induction false} FresherSelf(t: seq<Entry>)
    ensures Fresher(t, t)
  {}

  // A sound handler keeps the invariant of the whole network.
  lemma {:induction false} SoundKeepsInv(s: Net, ev: Event)
    requires Inv(s) && ev.r < |s.nodes| && Sound(s, s.nodes[ev.r], Handle(s.nodes[ev.r], ev))
    ensures Inv(Apply(s, ev))
  {
    hide AtLeast, NotWorse, EntryOk, Get, Handle, Backed, RoutesOk, EntriesOk, MaySend, MsgOk;
    var t := Apply(s, ev);
    var (n, out) := Handle(s.nodes[ev.r], ev);
    assert NodeOk(s, ev.r, s.nodes[ev.r]);
    forall r | 0 <= r < |s.nodes|
      ensures Fresher(s.nodes[r].table, t.nodes[r].table)
    {
      if r != ev.r { FresherSelf(s.nodes[r].table); }
    }
    forall r | 0 <= r < |s.nodes|
      ensures NodeOk(t, r, t.nodes[r])
    {
      assert NodeOk(s, r, s.nodes[r]);
      RoutesKept(s, t, t.nodes[r].table);
    }
    forall m | m in t.msgs
      ensures MsgOk(t, m)
    {
      if m in s.msgs {
        MsgKept(s, t, m);
      } else {
        var k :| 0 <= k < |out| && out[k] == m;
        SentOk(t, n, m);
      }
    }
  }

  // What an agent may send, its table backs.
  lemma {:induction false} SentOk(t: Net, n: Node, m: Msg)
    requires MaySend(n, m) && n.index < |t.nodes| && t.nodes[n.index] == n
    ensures MsgOk(t, m)
  {}

  lemma {:induction false} RoutesKept(s: Net, t: Net, table: seq<Entry>)
    requires |t.nodes| == |s.nodes| && RoutesOk(s, table)
    requires forall r :: 0 <= r < |s.nodes| ==> Fresher(s.nodes[r].table, t.nodes[r].table)
    ensures RoutesOk(t, table)
  {}

  lemma {:induction false} MsgKept(s: Net, t: Net, m: Msg)
    requires |t.nodes| == |s.nodes| && MsgOk(s, m)
    requires forall r :: 0 <= r < |s.nodes| ==> Fresher(s.nodes[r].table, t.nodes[r].table)
    ensures MsgOk(t, m)
  {}

  // ---------- every handler is sound ----------

  ghost predicate Better(s: Net, t: seq<Entry>, u: seq<Entry>) {
    EntriesOk(u) && RoutesOk(s, u) && Fresher(t, u)
  }

  lemma {:induction false} PutBetter(s: Net, t: seq<Entry>, e: Entry)
    requires EntriesOk(t) && RoutesOk(s, t)
    requires EntryOk(e) && RouteOk(s, e) && NotWorse(Get(t, e.dst), e)
    ensures Better(s, t, Put(t, e))
    ensures forall d: Addr :: Get(Put(t, e), d) == if d == e.dst then e else Get(t, d)
  {
    hide EntryOk, RouteOk, NotWorse, AtLeast, Get;
    forall d: Addr
      ensures Get(Put(t, e), d) == if d == e.dst then e else Get(t, d)
    {
      GetPut(t, e, d);
    }
    forall d: Addr
      ensures RouteOk(s, Get(Put(t, e), d)) && NotWorse(Get(t, d), Get(Put(t, e), d))
    {
      assert RouteOk(s, Get(t, d));
      NotWorseSelf(Get(t, d));
    }
  }

  lemma {:induction false} NotWorseSelf(e: Entry)
    ensures NotWorse(e, e)
  {}

  lemma {:induction false} BetterTrans(s: Net, t: seq<Entry>, u: seq<Entry>, v: seq<Entry>)
    requires Fresher(t, u) && Better(s, u, v)
    ensures Better(s, t, v)
  {}

  lemma {:induction false} GetOk(s: Net, t: seq<Entry>, d: Addr)
    requires EntriesOk(t) && RoutesOk(s, t)
    ensures EntryOk(Get(t, d)) && RouteOk(s, Get(t, d))
  {}

  lemma {:induction false} SendRequestSound(s: Net, n: Node, d: Addr, now: real, perHop: real)
    requires n.index < |s.nodes| && NodeOk(s, n.index, n)
    ensures Sound(s, n, SendRequest(n, d, now, perHop))
  {
    GetOk(s, n.table, d);
    var (e, req) := RequestEntry(Get(n.table, d), now, perHop);
    PutBetter(s, n.table, e);
  }

  lemma {:induction false} ReversedOk(s: Net, e: Entry, m: Msg)
    requires m.Rreq? && MsgOk(s, m) && m.src == e.dst && EntryOk(e) && RouteOk(s, e)
    ensures EntryOk(Reversed(e, m)) && RouteOk(s, Reversed(e, m)) && NotWorse(e, Reversed(e, m))
    ensures AtLeast(Reversed(e, m), m.srcSeqno, m.hopCount)
  {}

  lemma {:induction false} RecvRequestSound(s: Net, n: Node, m: Msg)
    requires n.index < |s.nodes| && NodeOk(s, n.index, n) && m.Rreq? && MsgOk(s, m)
    ensures Sound(s, n, RecvRequest(n, m))
  {
    hide AtLeast, NotWorse, EntryOk, Get, RouteOk, Put;
    FresherSelf(n.table);
    if m.src != n.index && (m.src, m.bcastId) !in n.seen {
      GetOk(s, n.table, m.src);
      var rt0 := Reversed(Get(n.table, m.src), m);
      ReversedOk(s, Get(n.table, m.src), m);
      PutBetter(s, n.table, rt0);
      var t := Put(n.table, rt0);
      var rt := Get(t, m.dst);
      if m.dst != n.index && CanReply(rt, m) {
        PrecursorsBetter(s, t, m.dst, m.src, rt0.nexthop);
        var t1 := Put(t, PcInsert(rt, rt0.nexthop));
        BetterTrans(s, n.table, t, Put(t1, PcInsert(Get(t1, m.src), rt.nexthop)));
        UsableOffer(s, t, m.dst);
        assert AtLeast(Get(RecvRequest(n, m).0.table, m.dst), rt.seqno, rt.hops.n);
      }
    }
  }

  // Recording precursors on two entries changes no route.
  lemma {:induction false} PrecursorsBetter(s: Net, t: seq<Entry>, d: Addr, src: Addr, nexthop: Addr)
    requires EntriesOk(t) && RoutesOk(s, t)
    ensures var t1 := Put(t, PcInsert(Get(t, d), nexthop));
      var t2 := Put(t1, PcInsert(Get(t1, src), Get(t, d).nexthop));
      && Better(s, t, t2)
      && forall x: Addr, seqno: nat, hops: nat :: AtLeast(Get(t, x), seqno, hops) ==> AtLeast(Get(t2, x), seqno, hops)
  {
    var e := Get(t, d);
    GetOk(s, t, d);
    PutBetter(s, t, PcInsert(e, nexthop));
    var t1 := Put(t, PcInsert(e, nexthop));
    GetOk(s, t1, src);
    PutBetter(s, t1, PcInsert(Get(t1, src), e.nexthop));
    BetterTrans(s, t, t1, Put(t1, PcInsert(Get(t1, src), e.nexthop)));
  }

  lemma {:induction false} UsableOffer(s: Net, t: seq<Entry>, d: Addr)
    requires EntriesOk(t) && RoutesOk(s, t) && Get(t, d).hops.Finite?
    ensures OwnSeqno(Get(t, d).seqno) && AtLeast(Get(t, d), Get(t, d).seqno, Get(t, d).hops.n)
  {}

  lemma {:induction false} RecvReplySound(s: Net, n: Node, m: Msg)
    requires n.index < |s.nodes| && NodeOk(s, n.index, n) && m.Rrep? && MsgOk(s, m)
    ensures Sound(s, n, RecvReply(n, m))
  {
    var rt := Get(n.table, m.dst);
    GetOk(s, n.table, m.dst);
    if Improves(rt, m.dstSeqno, m.hopCount) {
      var u := Update(rt, m.dstSeqno, m.hopCount, m.sender).(reqCnt := 0, reqTimeout := 0.0, reqLastTtl := m.hopCount);
      PutBetter(s, n.table, u);
      var t := Put(n.table, u);
      var v := PcInsert(u, Get(t, m.target).nexthop);
      PutBetter(s, t, v);
      BetterTrans(s, n.table, t, Put(t, v));
    } else {
      PutBetter(s, n.table, rt);
    }
  }

  lemma {:induction false} ErrorAllSound(s: Net, t: seq<Entry>, from: Addr, unreachable: seq<(Addr, nat)>)
    requires EntriesOk(t) && RoutesOk(s, t) && Stale(unreachable)
    ensures Better(s, t, ErrorAll(t, from, unreachable).0) && Stale(ErrorAll(t, from, unreachable).1)
    decreases |unreachable|
  {
    if unreachable == [] {
      FresherSelf(t);
    } else {
      var k := |unreachable| - 1;
      ErrorAllSound(s, t, from, unreachable[..k]);
      var t1 := ErrorAll(t, from, unreachable[..k]).0;
      var e := Get(t1, unreachable[k].0);
      GetOk(s, t1, unreachable[k].0);
      if ErrorHits(e, from, unreachable[k].1) {
        PutBetter(s, t1, ErrorEntry(e, from, unreachable[k].1));
        BetterTrans(s, t, t1, Put(t1, ErrorEntry(e, from, unreachable[k].1)));
      }
    }
  }

  // The route error entry `p` reports an entry of `t` that used the lost neighbour.
  ghost predicate WasBroken(t: seq<Entry>, id: Addr, p: (Addr, nat)) {
    exists j :: 0 <= j < |t| && Uses(t[j], id) && p == (t[j].dst, t[j].seqno + 1)
  }

  lemma {:induction false} BrokenAllAt(t: seq<Entry>, id: Addr)
    ensures |BrokenAll(t, id).0| == |t|
    ensures forall k :: 0 <= k < |t| ==> BrokenAll(t, id).0[k] == BrokenEntry(t[k], id)
    ensures forall k :: 0 <= k < |BrokenAll(t, id).1| ==> WasBroken(t, id, BrokenAll(t, id).1[k])
  {
    if t != [] {
      var k := |t| - 1;
      BrokenAllAt(t[..k], id);
      forall i | 0 <= i < |BrokenAll(t, id).1|
        ensures WasBroken(t, id, BrokenAll(t, id).1[i])
      {
        if i < |BrokenAll(t[..k], id).1| {
          assert WasBroken(t[..k], id, BrokenAll(t[..k], id).1[i]);
          var j :| 0 <= j < k && Uses(t[..k][j], id) && BrokenAll(t[..k], id).1[i] == (t[..k][j].dst, t[..k][j].seqno + 1);
          assert Uses(t[j], id);
        } else {
          assert Uses(t[k], id);
        }
      }
    }
  }

  // A table changed entry by entry, each staying as it is or going down with a
  // higher sequence number.
  ghost predicate Worn(e: Entry, f: Entry) {
    && f.dst == e.dst
    && ((f.seqno == e.seqno && f.hops == e.hops && f.nexthop == e.nexthop && f.flags == e.flags)
        || (f.seqno > e.seqno && f.hops.Infinity? && f.flags == Down && f.seqno % 2 == 1))
  }

  lemma {:induction false} WornBetter(s: Net, t: seq<Entry>, u: seq<Entry>)
    requires EntriesOk(t) && RoutesOk(s, t)
    requires |u| == |t| && forall k :: 0 <= k < |t| ==> Worn(t[k], u[k])
    ensures Better(s, t, u)
  {
    assert forall k :: 0 <= k < |t| ==> Worn(t[k], u[k]) && u[k].dst == t[k].dst;
    forall d: Addr
      ensures RouteOk(s, Get(u, d)) && NotWorse(Get(t, d), Get(u, d))
    {
      var k := Find(t, d);
      GetOk(s, t, d);
      if k < |t| {
        assert Worn(t[k], u[k]);
        FindAt(u, d, k);
      }
    }
    forall k | 0 <= k < |u|
      ensures EntryOk(u[k])
    {
      assert EntryOk(t[k]) && Worn(t[k], u[k]);
    }
  }

  lemma {:induction false} BrokenWorn(t: seq<Entry>, id: Addr)
    requires EntriesOk(t)
    ensures |BrokenAll(t, id).0| == |t|
    ensures forall k :: 0 <= k < |t| ==> Worn(t[k], BrokenAll(t, id).0[k])
    ensures Stale(BrokenAll(t, id).1)
  {
    BrokenAllAt(t, id);
    var out := BrokenAll(t, id).1;
    forall k | 0 <= k < |t|
      ensures Worn(t[k], BrokenAll(t, id).0[k])
    {
      assert EntryOk(t[k]);
    }
    forall k | 0 <= k < |out|
      ensures out[k].1 % 2 == 1
    {
      assert WasBroken(t, id, out[k]);
      var j :| 0 <= j < |t| && Uses(t[j], id) && out[k] == (t[j].dst, t[j].seqno + 1);
      assert EntryOk(t[j]);
    }
  }

  lemma {:induction false} LinkFailureSound(s: Net, n: Node, id: Addr)
    requires n.index < |s.nodes| && NodeOk(s, n.index, n)
    ensures Sound(s, n, LinkFailure(n, id))
  {
    hide BrokenAll, Worn;
    BrokenWorn(n.table, id);
    WornBetter(s, n.table, BrokenAll(n.table, id).0);
  }

  // One sound step after another.
  lemma {:induction false} SoundThen(s: Net, n: Node, p: (Node, seq<Msg>), q: (Node, seq<Msg>))
    requires Sound(s, n, p) && Sound(s, p.0, q)
    ensures Sound(s, n, (q.0, p.1 + q.1))
  {
    forall m | m in p.1
      ensures MaySend(q.0, m)
    {
      var k :| 0 <= k < |p.1| && p.1[k] == m;
      MaySendKept(p.0, q.0, m);
    }
    BetterTrans(s, n.table, p.0.table, q.0.table);
  }

  lemma {:induction false} MaySendKept(n: Node, p: Node, m: Msg)
    requires MaySend(n, m) && p.index == n.index && Fresher(n.table, p.table)
    ensures MaySend(p, m)
  {}

  lemma {:induction false} PurgeAtSound(s: Net, n: Node, k: nat, p: Purge)
    requires n.index < |s.nodes| && NodeOk(s, n.index, n) && k < |n.table|
    ensures Sound(s, n, PurgeAt(n, k, p))
  {
    var e := n.table[k];
    FresherSelf(n.table);
    if e.flags == Up && e.dst in p.expired {
      assert EntryOk(e);
      WornBetter(s, n.table, n.table[k := Downed(e.(seqno := e.seqno + 1))]);
    } else if e.flags != Up && e.dst in p.waiting {
      SendRequestSound(s, n, e.dst, p.now, p.perHop(e.dst));
    }
  }

  lemma {:induction false} PurgeToSound(s: Net, n: Node, k: nat, p: Purge)
    requires n.index < |s.nodes| && NodeOk(s, n.index, n) && k <= |n.table|
    ensures Sound(s, n, PurgeTo(n, k, p))
  {
    hide EntriesOk, RoutesOk, PurgeAt;
    if k == 0 {
      FresherSelf(n.table);
    } else {
      PurgeToSound(s, n, k - 1, p);
      var m := PurgeTo(n, k - 1, p);
      PurgeAtSound(s, m.0, k - 1, p);
      SoundThen(s, n, m, PurgeAt(m.0, k - 1, p));
    }
  }

  lemma {:induction false} RtPurgeSound(s: Net, n: Node, p: Purge)
    requires n.index < |s.nodes| && NodeOk(s, n.index, n)
    ensures Sound(s, n, RtPurge(n, p))
  {
    PurgeToSound(s, n, |n.table|, p);
  }

  lemma {:induction false} NoRouteSound(s: Net, n: Node, d: Addr)
    requires n.index < |s.nodes| && NodeOk(s, n.index, n)
    ensures Sound(s, n, NoRoute(n, d))
  {
    GetOk(s, n.table, d);
    PutBetter(s, n.table, Get(n.table, d));
  }

  lemma {:induction false} LocalRepairSound(s: Net, n: Node, d: Addr, now: real, perHop: real)
    requires n.index < |s.nodes| && NodeOk(s, n.index, n) && Get(n.table, d).hops.Finite?
    ensures Sound(s, n, LocalRepair(n, d, now, perHop))
  {
    GetOk(s, n.table, d);
    var e := Get(n.table, d).(flags := InRepair);
    PutBetter(s, n.table, e);
    var n1 := n.(table := Put(n.table, e));
    SendRequestSound(s, n1, d, now, perHop);
    BetterTrans(s, n.table, n1.table, LocalRepair(n, d, now, perHop).0.table);
  }

  // The timer of a local repair finds the route still in repair.
  ghost predicate StillInRepair(s: Net, ev: Event) {
    ev.RepairFails? && ev.r < |s.nodes| && Get(s.nodes[ev.r].table, ev.d).flags == InRepair
  }

  lemma {:induction false} HandlerSound(s: Net, ev: Event)
    requires Inv(s) && Possible(s, ev) && !StillInRepair(s, ev)
    ensures Sound(s, s.nodes[ev.r], Handle(s.nodes[ev.r], ev))
  {
    hide EntriesOk, RoutesOk, Fresher, Sound, MsgOk, RecvRequest, RecvReply, RecvError, LinkFailure, RtPurge, SendRequest, NoRoute, LocalRepair;
    var n := s.nodes[ev.r];
    assert NodeOk(s, ev.r, n);
    match ev
    case Deliver(_, m) =>
      assert MsgOk(s, m);
      if m.Rreq? { RecvRequestSound(s, n, m); }
      else if m.Rrep? { RecvReplySound(s, n, m); }
      else { RecvErrorSound(s, n, m); }
    case Discover(_, d, now, perHop) => SendRequestSound(s, n, d, now, perHop);
    case Unroutable(_, d) => NoRouteSound(s, n, d);
    case LinkBreaks(_, id) => LinkFailureSound(s, n, id);
    case Expire(_, p) => RtPurgeSound(s, n, p);
    case ForgetIds(_, _) => SameTableSound(s, n, Handle(n, ev).0);
    case Repair(_, d, now, perHop, _) => LocalRepairSound(s, n, d, now, perHop);
    case RepairFails(_, d) => RepairTimeoutSound(s, n, d);
  }

  lemma {:induction false} RecvErrorSound(s: Net, n: Node, m: Msg)
    requires n.index < |s.nodes| && NodeOk(s, n.index, n) && m.Rerr? && MsgOk(s, m)
    ensures Sound(s, n, RecvError(n, m))
  {
    ErrorAllSound(s, n.table, m.sender, m.unreachable);
  }

  lemma {:induction false} SameTableSound(s: Net, n: Node, p: Node)
    requires n.index < |s.nodes| && NodeOk(s, n.index, n)
    requires p.index == n.index && p.seqno == n.seqno && p.table == n.table
    ensures Sound(s, n, (p, []))
  {}

  lemma {:induction false} RepairTimeoutSound(s: Net, n: Node, d: Addr)
    requires n.index < |s.nodes| && NodeOk(s, n.index, n) && Get(n.table, d).flags != InRepair
    ensures Sound(s, n, RepairTimeout(n, d))
  {
    FresherSelf(n.table);
    GetOk(s, n.table, d);
    PutBetter(s, n.table, Get(n.table, d));
  }
}
