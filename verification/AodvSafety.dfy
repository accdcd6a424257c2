// Safety of AODV over whole runs: loop freedom, assertions, freshness, and the
// local repair that breaks them.
module AodvSafety {
  import opened AodvRoute
  import opened AodvAgent
  import opened AodvNetwork

  // Along the run no local repair times out while its route is still in repair.
  ghost predicate RepairsSettle(s: Net, evs: seq<Event>)
    requires Legal(s, evs)
    decreases |evs|
  {
    evs == [] || (!StillInRepair(s, evs[0]) && RepairsSettle(Apply(s, evs[0]), evs[1..]))
  }

  lemma {:induction false} InitialInv(size: nat)
    ensures Inv(Initial(size))
  {}

  lemma {:induction false} RunInv(s: Net, evs: seq<Event>)
    requires Inv(s) && Legal(s, evs) && RepairsSettle(s, evs)
    ensures Inv(Run(s, evs)) && |Run(s, evs).nodes| == |s.nodes|
    decreases |evs|
  {
    hide Inv, Sound;
    if evs != [] {
      HandlerSound(s, evs[0]);
      SoundKeepsInv(s, evs[0]);
      RunInv(Apply(s, evs[0]), evs[1..]);
    }
  }

  // ---------- loop freedom ----------

  ghost predicate NextHop(s: Net, i: Addr, j: Addr, d: Addr) {
    && i < |s.nodes| && j < |s.nodes|
    && Get(s.nodes[i].table, d).hops.Finite? && Get(s.nodes[i].table, d).nexthop == j
  }

  // A forwarding cycle for destination `d` that does not pass through `d`.
  ghost predicate Cycle(s: Net, p: seq<Addr>, d: Addr) {
    && |p| >= 2 && p[0] == p[|p| - 1]
    && (forall k :: 0 <= k < |p| ==> p[k] != d)
    && (forall k :: 0 <= k < |p| - 1 ==> NextHop(s, p[k], p[k + 1], d))
  }

  ghost predicate StrictlyFresher(e: Entry, f: Entry) {
    e.seqno > f.seqno || (e.seqno == f.seqno && e.hops.Finite? && (f.hops.Infinity? || e.hops.n < f.hops.n))
  }

  // The next hop towards a destination is strictly fresher or closer.
  lemma {:induction false} NextHopFresher(s: Net, i: Addr, j: Addr, d: Addr)
    requires Inv(s) && NextHop(s, i, j, d) && j != d
    ensures StrictlyFresher(Get(s.nodes[j].table, d), Get(s.nodes[i].table, d))
  {
    assert NodeOk(s, i, s.nodes[i]);
    assert RouteOk(s, Get(s.nodes[i].table, d));
  }

  lemma {:induction false} PathFresher(s: Net, p: seq<Addr>, d: Addr, k: nat)
    requires Inv(s) && 1 <= k < |p|
    requires forall i :: 0 <= i < |p| ==> p[i] != d
    requires forall i :: 0 <= i < |p| - 1 ==> NextHop(s, p[i], p[i + 1], d)
    ensures p[0] < |s.nodes| && p[k] < |s.nodes|
    ensures StrictlyFresher(Get(s.nodes[p[k]].table, d), Get(s.nodes[p[0]].table, d))
    decreases k
  {
    assert NextHop(s, p[k - 1], p[k - 1 + 1], d);
    NextHopFresher(s, p[k - 1], p[k], d);
    if k > 1 { PathFresher(s, p, d, k - 1); }
  }

  lemma {:induction false} NoCycle(s: Net, p: seq<Addr>, d: Addr)
    requires Inv(s)
    ensures !Cycle(s, p, d)
  {
    if Cycle(s, p, d) { PathFresher(s, p, d, |p| - 1); }
  }

  // In every reachable state an entry that is up has an even sequence number of at
  // least 2 and a finite hop count, and one that is down an odd number or 0.
  lemma {:induction false} ReachableEntries(size: nat, evs: seq<Event>, r: Addr, d: Addr)
    requires Legal(Initial(size), evs) && RepairsSettle(Initial(size), evs) && r < size
    ensures |Run(Initial(size), evs).nodes| == size
    ensures var e := Get(Run(Initial(size), evs).nodes[r].table, d);
      && (e.flags == Up ==> e.seqno >= 2 && e.seqno % 2 == 0 && e.hops.Finite?)
      && (e.flags == Down ==> e.hops.Infinity? && (e.seqno % 2 == 1 || e.seqno == 0))
  {
    InitialInv(size);
    RunInv(Initial(size), evs);
    var s := Run(Initial(size), evs);
    assert NodeOk(s, r, s.nodes[r]);
    GetOk(s, s.nodes[r].table, d);
  }

  // AODV loop freedom: whatever is lost, delayed, repeated or reordered, and
  // whenever links break and routes expire, no run forms a forwarding loop, as
  // long as no local repair times out unsettled.
  lemma {:induction false} LoopFree(size: nat, evs: seq<Event>, p: seq<Addr>, d: Addr)
    requires Legal(Initial(size), evs) && RepairsSettle(Initial(size), evs)
    ensures !Cycle(Run(Initial(size), evs), p, d)
  {
    InitialInv(size);
    RunInv(Initial(size), evs);
    NoCycle(Run(Initial(size), evs), p, d);
  }

  // The time-out of a local repair keeps the routes as fresh as they were
  // exactly when the route is no longer in repair.
  lemma {:induction false} RepairTimeoutExactly(n: Node, d: Addr)
    requires EntriesOk(n.table)
    ensures Fresher(n.table, RepairTimeout(n, d).0.table) <==> Get(n.table, d).flags != InRepair
  {
    var e := Get(n.table, d);
    var k := Find(n.table, d);
    if e.flags == InRepair {
      GetPut(n.table, Downed(e), d);
      assert EntryOk(n.table[k]);
      assert !NotWorse(e, Get(RepairTimeout(n, d).0.table, d));
    } else {
      forall x: Addr
        ensures NotWorse(Get(n.table, x), Get(RepairTimeout(n, d).0.table, x))
      {
        if k < |n.table| { GetPut(n.table, Downed(n.table[k]), x); }
      }
    }
  }

  // ---------- assertions ----------

  // No route that the handler takes for usable is in repair: read off the state and
  // the message before the handler runs.
  ghost predicate ClearOfRepair(n: Node, ev: Event) {
    match ev
    case Deliver(_, m) =>
      if m.Rrep? then
        (Improves(Get(n.table, m.dst), m.dstSeqno, m.hopCount) && m.target != n.index && m.target != m.dst
         ==> Get(n.table, m.target).flags != InRepair)
      else if m.Rerr? then
        forall k :: 0 <= k < |m.unreachable| ==>
          var e := Get(n.table, m.unreachable[k].0);
          ErrorHits(e, m.sender, m.unreachable[k].1) ==> e.flags != InRepair
      else true
    case LinkBreaks(_, id) => forall k :: 0 <= k < |n.table| && Uses(n.table[k], id) ==> n.table[k].flags != InRepair
    case _ => true
  }

  // In every reachable state the assertions of a handler hold exactly when the
  // routes it asserts on are not in repair.
  lemma {:induction false} AssertsExactly(s: Net, ev: Event)
    requires Inv(s) && Possible(s, ev)
    ensures AssertsHold(s.nodes[ev.r], ev) <==> ClearOfRepair(s.nodes[ev.r], ev)
  {
    var n := s.nodes[ev.r];
    assert NodeOk(s, ev.r, n);
    match ev
    case Deliver(_, m) =>
      assert MsgOk(s, m);
      if m.Rrep? { ReplyExactly(s, n, m); }
      else if m.Rerr? { ErrorExactly(s, n, m); }
    case Discover(_, d, _, _) => GetOk(s, n.table, d);
    case Unroutable(_, d) => GetOk(s, n.table, d);
    case LinkBreaks(_, id) =>
      assert forall k :: 0 <= k < |n.table| ==> EntryOk(n.table[k]);
    case Expire(_, p) =>
      forall k | 0 <= k < |n.table|
        ensures PurgeAsserts(PurgeTo(n, k, p).0, k, p)
      {
        PurgeToSound(s, n, k, p);
        var t := PurgeTo(n, k, p).0;
        assert EntryOk(t.table[k]);
        GetOk(s, t.table, t.table[k].dst);
      }
    case _ =>
  }

  lemma {:induction false} ReplyExactly(s: Net, n: Node, m: Msg)
    requires n.index < |s.nodes| && NodeOk(s, n.index, n) && m.Rrep?
    ensures ReplyAsserts(n, m) <==> ClearOfRepair(n, Deliver(n.index, m))
  {
    var u := Update(Get(n.table, m.dst), m.dstSeqno, m.hopCount, m.sender);
    GetPut(n.table, u, m.target);
    GetOk(s, n.table, m.target);
  }

  // Item `k` of an error hits the entry `e`.
  ghost predicate Hit(e: Entry, from: Addr, unreachable: seq<(Addr, nat)>, k: nat) {
    k < |unreachable| && unreachable[k].0 == e.dst && ErrorHits(e, from, unreachable[k].1)
  }

  // The first item that does, or the number of items.
  ghost function FirstHit(e: Entry, from: Addr, unreachable: seq<(Addr, nat)>): (k: nat)
    ensures k <= |unreachable| && (k < |unreachable| ==> Hit(e, from, unreachable, k))
    ensures forall i: nat :: i < k ==> !Hit(e, from, unreachable, i)
    decreases |unreachable|
  {
    if unreachable == [] then 0
    else
      var j := |unreachable| - 1;
      var k := FirstHit(e, from, unreachable[..j]);
      assert forall i: nat :: i < j ==> (Hit(e, from, unreachable[..j], i) <==> Hit(e, from, unreachable, i));
      if k < j || Hit(e, from, unreachable, j) then k else j + 1
  }

  // What an error does to an entry: the first item that hits it counts.
  ghost function AfterError(e: Entry, from: Addr, unreachable: seq<(Addr, nat)>): Entry {
    var k := FirstHit(e, from, unreachable);
    if k < |unreachable| then ErrorEntry(e, from, unreachable[k].1) else e
  }

  lemma {:induction false} ErrorAllGet(t: seq<Entry>, from: Addr, unreachable: seq<(Addr, nat)>, d: Addr)
    requires EntryOk(Get(t, d))
    ensures Get(ErrorAll(t, from, unreachable).0, d) == AfterError(Get(t, d), from, unreachable)
    decreases |unreachable|
  {
    if unreachable != [] {
      var j := |unreachable| - 1;
      var u := unreachable[..j];
      ErrorAllGet(t, from, u, d);
      var t1 := ErrorAll(t, from, u).0;
      var f := Get(t1, unreachable[j].0);
      hide Get, Put;
      if ErrorHits(f, from, unreachable[j].1) {
        GetPut(t1, ErrorEntry(f, from, unreachable[j].1), d);
      }
    }
  }

  // An entry is either untouched or cannot be hit again, and its first hit finds it as
  // it was.
  lemma {:induction false} HitOnce(e: Entry, from: Addr, unreachable: seq<(Addr, nat)>, k: nat)
    requires EntryOk(e) && k <= |unreachable|
    ensures AfterError(e, from, unreachable[..k]) == e || AfterError(e, from, unreachable[..k]).hops.Infinity?
    ensures k == FirstHit(e, from, unreachable) ==> AfterError(e, from, unreachable[..k]) == e
  {
    assert forall i: nat :: i < k ==> (Hit(e, from, unreachable[..k], i) <==> Hit(e, from, unreachable, i));
  }

  lemma {:induction false} ErrorExactly(s: Net, n: Node, m: Msg)
    requires n.index < |s.nodes| && NodeOk(s, n.index, n) && m.Rerr? && Stale(m.unreachable)
    ensures AssertsHold(n, Deliver(n.index, m)) <==> ClearOfRepair(n, Deliver(n.index, m))
  {
    hide Get, Find, ErrorAll, AfterError;
    var u := m.unreachable;
    forall k | 0 <= k < |u|
      ensures var e := Get(n.table, u[k].0);
        EntryOk(e) && (AfterError(e, m.sender, u[..k]) == e || AfterError(e, m.sender, u[..k]).hops.Infinity?)
      ensures Get(ErrorAll(n.table, m.sender, u[..k]).0, u[k].0) == AfterError(Get(n.table, u[k].0), m.sender, u[..k])
    {
      GetOk(s, n.table, u[k].0);
      ErrorAllGet(n.table, m.sender, u[..k], u[k].0);
      HitOnce(Get(n.table, u[k].0), m.sender, u, k);
    }
    if AssertsHold(n, Deliver(n.index, m)) {
      forall k | 0 <= k < |u| && ErrorHits(Get(n.table, u[k].0), m.sender, u[k].1)
        ensures Get(n.table, u[k].0).flags != InRepair
      {
        var e := Get(n.table, u[k].0);
        assert Hit(e, m.sender, u, k);
        HitOnce(e, m.sender, u, FirstHit(e, m.sender, u));
      }
    }
  }

  ghost predicate NoneInRepair(t: seq<Entry>) {
    forall k :: 0 <= k < |t| ==> t[k].flags != InRepair
  }

  lemma {:induction false} ErrorAllNone(t: seq<Entry>, from: Addr, unreachable: seq<(Addr, nat)>)
    requires NoneInRepair(t)
    ensures NoneInRepair(ErrorAll(t, from, unreachable).0)
    decreases |unreachable|
  {
    if unreachable != [] { ErrorAllNone(t, from, unreachable[..|unreachable| - 1]); }
  }

  lemma {:induction false} PutNone(t: seq<Entry>, e: Entry)
    requires NoneInRepair(t) && e.flags != InRepair
    ensures NoneInRepair(Put(t, e))
  {}

  lemma {:induction false} GetNone(t: seq<Entry>, d: Addr)
    requires NoneInRepair(t)
    ensures Get(t, d).flags != InRepair
  {}

  lemma {:induction false} RequestNone(n: Node, m: Msg)
    requires NoneInRepair(n.table) && m.Rreq?
    ensures NoneInRepair(RecvRequest(n, m).0.table)
  {
    hide Put, Get, NoneInRepair;
    GetNone(n.table, m.src);
    var rt0 := Reversed(Get(n.table, m.src), m);
    PutNone(n.table, rt0);
    var t := Put(n.table, rt0);
    GetNone(t, m.dst);
    PutNone(t, PcInsert(Get(t, m.dst), rt0.nexthop));
    var t1 := Put(t, PcInsert(Get(t, m.dst), rt0.nexthop));
    GetNone(t1, m.src);
    PutNone(t1, PcInsert(Get(t1, m.src), Get(t, m.dst).nexthop));
  }

  lemma {:induction false} ReplyNone(n: Node, m: Msg)
    requires NoneInRepair(n.table) && m.Rrep?
    ensures NoneInRepair(RecvReply(n, m).0.table)
  {}

  lemma {:induction false} RequestSentNone(n: Node, d: Addr, now: real, perHop: real)
    requires NoneInRepair(n.table)
    ensures NoneInRepair(SendRequest(n, d, now, perHop).0.table)
  {
    hide Put, Get, NoneInRepair;
    GetNone(n.table, d);
    PutNone(n.table, RequestEntry(Get(n.table, d), now, perHop).0);
  }

  lemma {:induction false} PurgeNone(n: Node, k: nat, p: Purge)
    requires NoneInRepair(n.table) && k <= |n.table|
    ensures NoneInRepair(PurgeTo(n, k, p).0.table)
  {
    hide SendRequest;
    if k > 0 {
      PurgeNone(n, k - 1, p);
      var m := PurgeTo(n, k - 1, p).0;
      RequestSentNone(m, m.table[k - 1].dst, p.now, p.perHop(m.table[k - 1].dst));
    }
  }

  lemma {:induction false} HandlerNone(n: Node, ev: Event)
    requires NoneInRepair(n.table) && !ev.Repair?
    ensures NoneInRepair(Handle(n, ev).0.table)
  {
    hide RecvRequest, RecvReply, Put, Get;
    match ev
    case Deliver(_, m) =>
      if m.Rerr? { ErrorAllNone(n.table, m.sender, m.unreachable); }
      if m.Rreq? { RequestNone(n, m); }
      if m.Rrep? { ReplyNone(n, m); }
    case LinkBreaks(_, id) => BrokenAllAt(n.table, id);
    case Expire(_, p) => PurgeNone(n, |n.table|, p);
    case Discover(_, d, now, perHop) =>
      RequestSentNone(n, d, now, perHop);
    case Unroutable(_, d) =>
      GetNone(n.table, d);
      PutNone(n.table, Get(n.table, d));
    case ForgetIds(_, _) =>
    case RepairFails(_, d) =>
      var k := Find(n.table, d);
      if k < |n.table| { PutNone(n.table, Downed(n.table[k])); }
  }

  ghost predicate AllSettled(s: Net) {
    forall r :: 0 <= r < |s.nodes| ==> NoneInRepair(s.nodes[r].table)
  }

  // Without local repair, no reachable state aborts an agent: the assertions of
  // every handler hold for every event that can come next.
  lemma {:induction false} NeverAborts(s: Net, evs: seq<Event>, ev: Event)
    requires Inv(s) && AllSettled(s) && Legal(s, evs)
    requires forall k :: 0 <= k < |evs| ==> !evs[k].Repair?
    requires Possible(Run(s, evs), ev)
    ensures AssertsHold(Run(s, evs).nodes[ev.r], ev)
    ensures RepairsSettle(s, evs)
    decreases |evs|
  {
    hide Inv, AssertsHold, Sound, Handle;
    if evs == [] {
      AssertsExactly(s, ev);
      SettledClear(s.nodes[ev.r], ev);
    } else {
      var n := s.nodes[evs[0].r];
      assert NoneInRepair(n.table);
      HandlerNone(n, evs[0]);
      HandlerSound(s, evs[0]);
      SoundKeepsInv(s, evs[0]);
      NeverAborts(Apply(s, evs[0]), evs[1..], ev);
    }
  }

  lemma {:induction false} SettledClear(n: Node, ev: Event)
    requires NoneInRepair(n.table)
    ensures ClearOfRepair(n, ev)
  {
    match ev
    case Deliver(_, m) =>
      if m.Rrep? { GetNone(n.table, m.target); }
      if m.Rerr? {
        forall k | 0 <= k < |m.unreachable|
          ensures Get(n.table, m.unreachable[k].0).flags != InRepair
        {
          GetNone(n.table, m.unreachable[k].0);
        }
      }
    case _ =>
  }

  // What recvError leaves of every entry: it stays, or, if some item of the error hits
  // it, it goes down with the strictly larger sequence number of the first such item.
  lemma {:induction false} ErrorRaises(s: Net, r: Addr, m: Msg, d: Addr)
    requires Inv(s) && r < |s.nodes| && m.Rerr? && m in s.msgs
    ensures var e, f := Get(s.nodes[r].table, d), Get(RecvError(s.nodes[r], m).0.table, d);
      var k := FirstHit(e, m.sender, m.unreachable);
      if k < |m.unreachable| then f.flags == Down && f.hops.Infinity? && f.seqno == m.unreachable[k].1 > e.seqno else f == e
  {
    var n := s.nodes[r];
    assert NodeOk(s, r, n) && MsgOk(s, m);
    GetOk(s, n.table, d);
    ErrorAllGet(n.table, m.sender, m.unreachable, d);
  }

  // No handler makes a route less fresh, over a whole run.
  lemma {:induction false} FreshnessMonotone(s: Net, evs: seq<Event>, r: Addr)
    requires Inv(s) && Legal(s, evs) && RepairsSettle(s, evs) && r < |s.nodes|
    ensures |Run(s, evs).nodes| == |s.nodes| && Fresher(s.nodes[r].table, Run(s, evs).nodes[r].table)
    decreases |evs|
  {
    hide Inv, Handle, NotWorse, Get;
    if evs == [] {
      FresherSelf(s.nodes[r].table);
    } else {
      var t := Apply(s, evs[0]);
      HandlerSound(s, evs[0]);
      SoundKeepsInv(s, evs[0]);
      FresherSelf(s.nodes[r].table);
      assert Fresher(s.nodes[r].table, t.nodes[r].table);
      FreshnessMonotone(t, evs[1..], r);
      FresherTrans(s.nodes[r].table, t.nodes[r].table, Run(s, evs).nodes[r].table);
    }
  }

  lemma {:induction false} FresherTrans(t: seq<Entry>, u: seq<Entry>, v: seq<Entry>)
    requires Fresher(t, u) && Fresher(u, v)
    ensures Fresher(t, v)
  {}
}
