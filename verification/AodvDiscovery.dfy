// Route discovery in AODV: the expanding ring of one searcher and the flood of
// one request through the network.
module AodvDiscovery {
  import opened AodvRoute
  import opened AodvAgent
  import opened AodvNetwork

  const NODE_TRAVERSAL_TIME: real := 0.03
  const MAX_HISTORY: nat := 3

  // The sum and the number of the positive latencies.
  ghost function Total(s: seq<real>): (t: real)
    ensures t >= 0.0 && (t > 0.0 <==> Count(s) > 0)
  {
    if s == [] then 0.0
    else Total(s[..|s| - 1]) + if s[|s| - 1] > 0.0 then s[|s| - 1] else 0.0
  }

  ghost function Count(s: seq<real>): nat {
    if s == [] then 0 else Count(s[..|s| - 1]) + if s[|s| - 1] > 0.0 then 1 else 0
  }

  // PerHopTime: the mean of the recorded latencies, or a default.
  method PerHopTime(latency: array<real>) returns (t: real)
    requires latency.Length == MAX_HISTORY
    ensures t == if Count(latency[..]) > 0 then Total(latency[..]) / Count(latency[..]) as real else 0.03
    ensures t > 0.0
  {
    var nonZero, total := 0, 0.0;
    for i := 0 to MAX_HISTORY
      invariant nonZero == Count(latency[..i]) && total == Total(latency[..i])
    {
      assert latency[..i + 1][..i] == latency[..i];
      if latency[i] > 0.0 {
        nonZero, total := nonZero + 1, total + latency[i];
      }
    }
    assert latency[..MAX_HISTORY] == latency[..];
    if nonZero > 0 {
      t := total / nonZero as real;
    } else {
      t := NODE_TRAVERSAL_TIME;
    }
  }

  // ---------- expanding ring ----------

  lemma {:induction false} Positive(a: real, b: real)
    requires a > 0.0 && b > 0.0
    ensures a * b > 0.0
  {}

  // A request that is sent or given up is answered for at some time after now,
  // at most MAX_RREQ_TIMEOUT later.
  lemma {:induction false} TimeoutBounded(e: Entry, now: real, perHop: real)
    requires perHop > 0.0
    ensures var (f, req) := RequestEntry(e, now, perHop);
      req != Suppressed ==> now < f.reqTimeout <= now + MAX_RREQ_TIMEOUT
  {
    var ttl := NextTtl(e);
    var cnt := if NetworkWide(e) then e.reqCnt + 1 else e.reqCnt;
    Positive(2.0 * ttl as real, perHop);
    if cnt > 0 { Positive(2.0 * ttl as real * perHop, cnt as real); }
  }

  // Searches for one destination at the times `nows`, none of them too early,
  // with no route update in between.
  ghost predicate Permitted(e: Entry, nows: seq<real>, perHop: real)
    decreases |nows|
  {
    nows == [] || (e.flags != Up && e.reqTimeout <= nows[0] && Permitted(RequestEntry(e, nows[0], perHop).0, nows[1..], perHop))
  }

  ghost function Requests(e: Entry, nows: seq<real>, perHop: real): seq<Request>
    decreases |nows|
  {
    if nows == [] then []
    else
      var (f, req) := RequestEntry(e, nows[0], perHop);
      [req] + Requests(f, nows[1..], perHop)
  }

  // The TTLs of the ring searches that follow a search of radius `last`.
  ghost function Ring(last: nat): seq<nat>
    decreases if last == 0 then 8 else if last < TTL_THRESHOLD then TTL_THRESHOLD - last else 0
  {
    if last == 0 then [TTL_START] + Ring(TTL_START)
    else if last < TTL_THRESHOLD then [last + TTL_INCREMENT] + Ring(last + TTL_INCREMENT)
    else []
  }

  ghost function Sents(ttls: seq<nat>): seq<Request> {
    if ttls == [] then [] else [Sent(ttls[0])] + Sents(ttls[1..])
  }

  // What a discovery does from radius `last` on, with `cnt` network-wide searches done.
  ghost function Expected(last: nat, cnt: nat): seq<Request>
    decreases RREQ_RETRIES + 1 - cnt, if last == 0 then 8 else if last < TTL_THRESHOLD then TTL_THRESHOLD - last else 0
  {
    if cnt > RREQ_RETRIES then [GaveUp]
    else if last == 0 then [Sent(TTL_START)] + Expected(TTL_START, cnt)
    else if last < TTL_THRESHOLD then [Sent(last + TTL_INCREMENT)] + Expected(last + TTL_INCREMENT, cnt)
    else [Sent(NETWORK_DIAMETER)] + Expected(NETWORK_DIAMETER, cnt + 1)
  }

  // Network-wide searches come in fours and are followed by giving up.
  lemma {:induction false} WideSearches(last: nat)
    requires last >= TTL_THRESHOLD
    ensures Expected(last, 0) == Sents([30, 30, 30, 30]) + [GaveUp]
  {}

  lemma {:induction false} ExpectedIs(last: nat)
    ensures Expected(last, 0) == Sents(Ring(last)) + (Sents([30, 30, 30, 30]) + [GaveUp])
    decreases if last == 0 then 8 else if last < TTL_THRESHOLD then TTL_THRESHOLD - last else 0
  {
    if last >= TTL_THRESHOLD {
      WideSearches(last);
      assert Sents(Ring(last)) == [];
    } else {
      var next := if last == 0 then TTL_START else last + TTL_INCREMENT;
      ExpectedIs(next);
      assert Ring(last)[1..] == Ring(next);
    }
  }

  lemma {:induction false} RingShape(last: nat)
    ensures |Ring(last)| <= 3
    ensures forall i, j :: 0 <= i < j < |Ring(last)| ==> Ring(last)[i] < Ring(last)[j]
    ensures forall i :: 0 <= i < |Ring(last)| ==> Ring(last)[i] < NETWORK_DIAMETER
  {
    assert Ring(7) == [] && Ring(8) == [];
    assert Ring(5) == [7] + Ring(7) && Ring(6) == [8] + Ring(8);
    assert Ring(3) == [5] + Ring(5) && Ring(4) == [6] + Ring(6);
    assert Ring(1) == [3] + Ring(3) && Ring(2) == [4] + Ring(4);
    assert Ring(0) == [5] + Ring(5);
  }

  lemma {:induction false} RequestsFollow(e: Entry, nows: seq<real>, perHop: real)
    requires Permitted(e, nows, perHop)
    requires |nows| <= |Expected(Max(e.reqLastTtl, e.lastHopCount), e.reqCnt)|
    ensures Requests(e, nows, perHop) == Expected(Max(e.reqLastTtl, e.lastHopCount), e.reqCnt)[..|nows|]
    decreases |nows|
  {
    if nows != [] {
      var last := Max(e.reqLastTtl, e.lastHopCount);
      var (f, req) := RequestEntry(e, nows[0], perHop);
      if e.reqCnt > RREQ_RETRIES {
        assert |nows| == 1;
      } else {
        var rest := Expected(Max(f.reqLastTtl, f.lastHopCount), f.reqCnt);
        if last >= TTL_THRESHOLD { WideAgain(Max(f.reqLastTtl, f.lastHopCount), f.reqCnt); }
        assert Expected(last, e.reqCnt) == [req] + rest;
        RequestsFollow(f, nows[1..], perHop);
      }
    }
  }

  // Beyond the threshold the radius no longer matters.
  lemma {:induction false} WideAgain(last: nat, cnt: nat)
    requires last >= TTL_THRESHOLD
    ensures Expected(last, cnt) == Expected(NETWORK_DIAMETER, cnt)
  {}

  // The expanding ring: from a request count of 0, discovery sends at most three
  // ring searches of growing radius, then exactly four network-wide ones, and
  // the next permitted search gives up.
  lemma {:induction false} ExpandingRing(e: Entry, nows: seq<real>, perHop: real)
    requires e.reqCnt == 0 && Permitted(e, nows, perHop)
    ensures var ring := Ring(Max(e.reqLastTtl, e.lastHopCount));
      && |ring| <= 3
      && (|nows| == |ring| + 5 ==> Requests(e, nows, perHop) == Sents(ring) + (Sents([30, 30, 30, 30]) + [GaveUp]))
  {
    var last := Max(e.reqLastTtl, e.lastHopCount);
    RingShape(last);
    ExpectedIs(last);
    SentsLength(Ring(last));
    SentsLength([30, 30, 30, 30]);
    if |nows| == |Ring(last)| + 5 { RequestsFollow(e, nows, perHop); }
  }

  // The first discovery through a new entry is network-wide at once, because
  // its last hop count starts at INFINITY2.
  lemma {:induction false} FirstDiscoveryIsWide(d: Addr)
    ensures Ring(Max(Fresh(d).reqLastTtl, Fresh(d).lastHopCount)) == []
  {}

  lemma {:induction false} SentsLength(ttls: seq<nat>)
    ensures |Sents(ttls)| == |ttls|
  {
    if ttls != [] { SentsLength(ttls[1..]); }
  }

  // ---------- the flood of a request ----------

  // Copies of one request share their TTL plus hop count, which stays within
  // the network diameter plus one, and broadcast ids are not used twice.
  ghost predicate FloodOk(s: Net) {
    && (forall m :: m in s.msgs && m.Rreq? ==>
          m.src < |s.nodes| && m.bcastId < s.nodes[m.src].bid && m.ttl >= 1 && m.ttl + m.hopCount <= NETWORK_DIAMETER + 1)
    && (forall m, k :: m in s.msgs && k in s.msgs && m.Rreq? && k.Rreq? && m.src == k.src && m.bcastId == k.bcastId
          ==> m.ttl + m.hopCount == k.ttl + k.hopCount)
    && (forall r :: 0 <= r < |s.nodes| ==> s.nodes[r].index == r)
  }

  ghost predicate NewRequest(n: Node, p: Node, m: Msg) {
    m.Rreq? && m.src == n.index && m.bcastId == n.bid && p.bid == n.bid + 1 && m.hopCount == 1 && 1 <= m.ttl <= NETWORK_DIAMETER
  }

  ghost predicate Copy(m: Msg, k: Msg) {
    m.Rreq? && k.Rreq? && k.src == m.src && k.bcastId == m.bcastId && k.ttl == m.ttl - 1 && k.ttl != 0 && k.hopCount == m.hopCount + 1
  }

  // A handler sends at most one request: a new one or a copy of the one received.
  ghost predicate Sends(n: Node, p: Node, out: seq<Msg>, m: Msg) {
    && p.index == n.index && p.bid >= n.bid && |out| <= 1
    && (out != [] && out[0].Rreq? ==> NewRequest(n, p, out[0]) || Copy(m, out[0]))
  }

  lemma {:induction false} RequestsSent(n: Node, ev: Event)
    requires !ev.Expire?
    ensures var (p, out) := Handle(n, ev);
      Sends(n, p, out, if ev.Deliver? then ev.m else Rerr([], 0))
  {
    hide Put, Get, Find;
  }

  lemma {:induction false} FloodStep(s: Net, ev: Event)
    requires FloodOk(s) && Possible(s, ev)
    ensures FloodOk(Apply(s, ev))
  {
    hide Handle, FloodOk, Sends, PurgeTo;
    if ev.Expire? {
      PurgeFlood(s, ev.r, |s.nodes[ev.r].table|, ev.p);
      assert Handle(s.nodes[ev.r], ev) == PurgeTo(s.nodes[ev.r], |s.nodes[ev.r].table|, ev.p) by { HandlePurge(s.nodes[ev.r], ev); }
    } else {
      RequestsSent(s.nodes[ev.r], ev);
      var (n, out) := Handle(s.nodes[ev.r], ev);
      FloodSent(s, ev.r, n, out, if ev.Deliver? then ev.m else Rerr([], 0));
    }
  }

  lemma {:induction false} HandlePurge(n: Node, ev: Event)
    requires ev.Expire?
    ensures Handle(n, ev) == PurgeTo(n, |n.table|, ev.p)
  {}

  // At most one more message, which, if it is a copy, is a copy of `m`.
  lemma {:induction false} FloodSent(s: Net, r: Addr, n: Node, out: seq<Msg>, m: Msg)
    requires FloodOk(s) && r < |s.nodes| && Sends(s.nodes[r], n, out, m) && (m.Rreq? ==> m in s.msgs)
    ensures FloodOk(Net(s.nodes[r := n], s.msgs + set k | k in out))
  {
    if out != [] {
      assert (set k | k in out) == {out[0]};
      FloodMore(s, r, n, out[0], m);
    } else {
      assert s.msgs + (set k | k in out) == s.msgs;
    }
  }

  lemma {:induction false} FloodMore(s: Net, r: Addr, n: Node, k: Msg, m: Msg)
    requires FloodOk(s) && r < |s.nodes| && n.index == s.nodes[r].index && n.bid >= s.nodes[r].bid
    requires k.Rreq? ==> NewRequest(s.nodes[r], n, k) || (m in s.msgs && Copy(m, k))
    ensures FloodOk(Net(s.nodes[r := n], s.msgs + {k}))
  {}

  lemma {:induction false} PurgeFlood(s: Net, r: Addr, k: nat, p: Purge)
    requires FloodOk(s) && r < |s.nodes| && k <= |s.nodes[r].table|
    ensures var (n, out) := PurgeTo(s.nodes[r], k, p); FloodOk(Net(s.nodes[r := n], s.msgs + set m | m in out))
  {
    hide FloodOk, Sends, PurgeAt;
    if k == 0 {
      assert s.nodes[r := s.nodes[r]] == s.nodes && s.msgs + (set m: Msg | m in []) == s.msgs;
    } else {
      PurgeFlood(s, r, k - 1, p);
      var (n, out) := PurgeTo(s.nodes[r], k - 1, p);
      var t := Net(s.nodes[r := n], s.msgs + set m | m in out);
      var (q, more) := PurgeAt(n, k - 1, p);
      PurgeAtSends(n, k - 1, p);
      FloodSent(t, r, q, more, Rerr([], 0));
      assert t.nodes[r := q] == s.nodes[r := q];
      assert t.msgs + (set m | m in more) == s.msgs + set m | m in out + more;
    }
  }

  lemma {:induction false} PurgeAtSends(n: Node, k: nat, p: Purge)
    requires k < |n.table|
    ensures Sends(n, PurgeAt(n, k, p).0, PurgeAt(n, k, p).1, Rerr([], 0))
  {
    hide Put, Get, Find;
  }

  // Every copy of a request in every reachable state obeys the hop budget, and so none
  // has come farther than the network diameter.
  lemma {:induction false} FloodBounded(size: nat, evs: seq<Event>)
    requires Legal(Initial(size), evs)
    ensures FloodOk(Run(Initial(size), evs))
    ensures forall m :: m in Run(Initial(size), evs).msgs && m.Rreq? ==> m.hopCount <= NETWORK_DIAMETER
  {
    RunFlood(Initial(size), evs);
  }

  lemma {:induction false} RunFlood(s: Net, evs: seq<Event>)
    requires FloodOk(s) && Legal(s, evs)
    ensures FloodOk(Run(s, evs))
    decreases |evs|
  {
    hide FloodOk, Handle;
    if evs != [] {
      FloodStep(s, evs[0]);
      RunFlood(Apply(s, evs[0]), evs[1..]);
    }
  }

  ghost predicate Rebroadcasts(s: Net, ev: Event, r: Addr, o: Addr, b: nat) {
    && ev.Deliver? && ev.r == r && r < |s.nodes|
    && ev.m.Rreq? && ev.m.src == o && ev.m.bcastId == b
    && Handle(s.nodes[r], ev).1 != [] && Handle(s.nodes[r], ev).1[0].Rreq?
  }

  ghost predicate Forgets(ev: Event, r: Addr, o: Addr, b: nat) {
    ev.ForgetIds? && ev.r == r && (o, b) in ev.gone
  }

  // What a step does to the memory of (o, b): it stays unless forgotten, and a
  // rebroadcast is by another agent than `o` that did not remember it and now does.
  lemma {:induction false} SeenStep(n: Node, ev: Event, o: Addr, b: nat)
    ensures (o, b) in n.seen && !Forgets(ev, ev.r, o, b) ==> (o, b) in Handle(n, ev).0.seen
    ensures Handle(n, ev).0.index == n.index
    ensures ev.Deliver? && ev.m.Rreq? && ev.m.src == o && ev.m.bcastId == b && Handle(n, ev).1 != [] && Handle(n, ev).1[0].Rreq?
      ==> n.index != o && (o, b) !in n.seen && (o, b) in Handle(n, ev).0.seen
  {
    hide Put, Get, Find, PurgeAt;
  }

  lemma {:induction false} SeenKept(s: Net, evs: seq<Event>, r: Addr, o: Addr, b: nat)
    requires r < |s.nodes| && (o, b) in s.nodes[r].seen && Legal(s, evs)
    requires forall k :: 0 <= k < |evs| ==> !Forgets(evs[k], r, o, b)
    ensures r < |Run(s, evs).nodes| && (o, b) in Run(s, evs).nodes[r].seen
    decreases |evs|
  {
    hide Handle;
    if evs != [] {
      SeenStep(s.nodes[evs[0].r], evs[0], o, b);
      SeenKept(Apply(s, evs[0]), evs[1..], r, o, b);
    }
  }

  // An agent rebroadcasts a given request at most once while it remembers it.
  lemma {:induction false} RebroadcastOnce(s: Net, ev: Event, evs: seq<Event>, again: Event, r: Addr, o: Addr, b: nat)
    requires Enabled(s, ev) && Rebroadcasts(s, ev, r, o, b)
    requires Legal(Apply(s, ev), evs) && forall k :: 0 <= k < |evs| ==> !Forgets(evs[k], r, o, b)
    ensures !Rebroadcasts(Run(Apply(s, ev), evs), again, r, o, b)
  {
    hide Handle;
    SeenStep(s.nodes[r], ev, o, b);
    SeenKept(Apply(s, ev), evs, r, o, b);
    SeenStep(Run(Apply(s, ev), evs).nodes[r], again, o, b);
  }

  // How often request (o, b) is rebroadcast along a run, by all agents together.
  ghost function Rebroadcast(s: Net, evs: seq<Event>, o: Addr, b: nat): nat
    requires Legal(s, evs)
    decreases |evs|
  {
    if evs == [] then 0
    else (if Rebroadcasts(s, evs[0], evs[0].r, o, b) then 1 else 0) + Rebroadcast(Apply(s, evs[0]), evs[1..], o, b)
  }

  // The agents that may still rebroadcast it.
  ghost function Unaware(s: Net, o: Addr, b: nat): set<Addr> {
    set r | 0 <= r < |s.nodes| && s.nodes[r].index != o && (o, b) !in s.nodes[r].seen
  }

  // A flood ends: in a run in which no agent forgets the request it is rebroadcast at
  // most once for each agent that does not remember it at the start.
  lemma {:induction false} FloodEnds(s: Net, evs: seq<Event>, o: Addr, b: nat)
    requires Legal(s, evs) && forall k, r: Addr :: 0 <= k < |evs| ==> !Forgets(evs[k], r, o, b)
    ensures Rebroadcast(s, evs, o, b) + |Unaware(Run(s, evs), o, b)| <= |Unaware(s, o, b)|
    decreases |evs|
  {
    hide Handle;
    if evs != [] {
      var ev := evs[0];
      var t := Apply(s, ev);
      SeenStep(s.nodes[ev.r], ev, o, b);
      assert !Forgets(ev, ev.r, o, b);
      var before, after := Unaware(s, o, b), Unaware(t, o, b);
      assert after <= before;
      Smaller(after, before, ev.r);
      FloodEnds(t, evs[1..], o, b);
    }
  }

  lemma {:induction false} Smaller(a: set<Addr>, b: set<Addr>, x: Addr)
    requires a <= b
    ensures |a| <= |b| && (x in b && x !in a ==> |a| < |b|)
  {
    assert b == a + (b - a);
    assert x in b && x !in a ==> x in b - a;
  }

  // From the start of the network: fewer rebroadcasts than agents.
  lemma {:induction false} FloodTransmissions(size: nat, evs: seq<Event>, o: Addr, b: nat)
    requires Legal(Initial(size), evs) && o < size
    requires forall k, r: Addr :: 0 <= k < |evs| ==> !Forgets(evs[k], r, o, b)
    ensures Rebroadcast(Initial(size), evs, o, b) < size
  {
    FloodEnds(Initial(size), evs, o, b);
    assert Unaware(Initial(size), o, b) == Agents(size) - {o};
    assert |Agents(size) - {o}| == size - 1;
  }

  ghost function Agents(size: nat): (all: set<Addr>)
    ensures |all| == size && forall r: Addr :: r in all <==> r < size
  {
    if size == 0 then {} else Agents(size - 1) + {size - 1}
  }
}
