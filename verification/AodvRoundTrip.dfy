// A route discovery from end to end: the request floods out along a path of agents, the
// reply comes back along it, and then packets can go either way.
module AodvRoundTrip {
  import opened AodvRoute
  import opened AodvAgent
  import opened AodvNetwork
  import opened AodvSafety
  import opened AodvEffects

  lemma {:induction false} OneStep(s: Net, ev: Event, evs: seq<Event>)
    requires Enabled(s, ev) && Legal(Apply(s, ev), evs)
    ensures Legal(s, [ev] + evs) && Run(s, [ev] + evs) == Run(Apply(s, ev), evs)
  {
    assert ([ev] + evs)[1..] == evs;
  }

  // What any delivery in a sound state does to the rest of the network.
  lemma {:induction false} Delivered(s: Net, r: Addr, m: Msg)
    requires Inv(s) && r < |s.nodes| && m in s.msgs && ClearOfRepair(s.nodes[r], Deliver(r, m))
    ensures var ev := Deliver(r, m);
      var t := Apply(s, ev);
      && Enabled(s, ev) && Inv(t) && |t.nodes| == |s.nodes|
      && (forall q :: 0 <= q < |s.nodes| && q != r ==> t.nodes[q] == s.nodes[q])
      && t.nodes[r] == Handle(s.nodes[r], ev).0
      && s.msgs <= t.msgs && forall k :: k in Handle(s.nodes[r], ev).1 ==> k in t.msgs
  {
    hide Handle, AssertsHold, ClearOfRepair, Sound, Inv;
    AssertsExactly(s, Deliver(r, m));
    HandlerSound(s, Deliver(r, m));
    SoundKeepsInv(s, Deliver(r, m));
  }

  // ---------- the way out ----------

  // Agents path[j..] have not heard of this request, and those before the last have no
  // route to the destination.
  ghost predicate Unheard(s: Net, path: seq<Addr>, j: nat, o: Addr, b: nat, seqno: nat, d: Addr) {
    && NoRepeats(path) && (forall i :: 0 <= i < |path| ==> path[i] < |s.nodes|)
    && (forall i :: j <= i < |path| ==> (o, b) !in s.nodes[path[i]].seen && Get(s.nodes[path[i]].table, o).seqno < seqno)
    && (forall i :: j <= i < |path| - 1 ==> Get(s.nodes[path[i]].table, d).hops.Infinity?)
  }

  // The copy of a request of path[0] for the other end that path[j] is to receive.
  ghost predicate CopyFor(m: Msg, path: seq<Addr>, j: nat) {
    && 1 <= j < |path| && m.Rreq? && m.src == path[0] && m.dst == path[|path| - 1]
    && m.sender == path[j - 1] && m.hopCount == j && m.ttl >= |path| - j
  }

  // Routes back to path[0] at the agents path[j..].
  ghost predicate Back(s: Net, path: seq<Addr>, j: nat, seqno: nat) {
    forall i :: 1 <= j <= i < |path| ==>
      path[i] < |s.nodes| && LeadsTo(Get(s.nodes[path[i]].table, path[0]), path[i - 1], seqno, i)
  }

  // The agents path[j..], but for the last, have nothing as new as `seqno` about `d`.
  ghost predicate Older(s: Net, path: seq<Addr>, j: nat, d: Addr, seqno: nat) {
    forall i :: j <= i < |path| - 1 ==> path[i] < |s.nodes| && Get(s.nodes[path[i]].table, d).seqno < seqno
  }

  ghost predicate OnlyAt(s: Net, t: Net, path: seq<Addr>, j: nat) {
    && j <= |path| && |t.nodes| == |s.nodes| && s.msgs <= t.msgs
    && forall r: Addr :: r < |s.nodes| && r !in path[j..] ==> t.nodes[r] == s.nodes[r]
  }

  ghost predicate Deliveries(evs: seq<Event>, to: seq<Addr>) {
    |evs| == |to| && forall i :: 0 <= i < |to| ==> evs[i].Deliver? && evs[i].r == to[i]
  }

  // The agent that is to receive the copy, before it does.
  lemma {:induction false} UnheardAt(s: Net, path: seq<Addr>, j: nat, m: Msg)
    requires Inv(s) && CopyFor(m, path, j) && Unheard(s, path, j, m.src, m.bcastId, m.srcSeqno, m.dst)
    ensures path[j] < |s.nodes| && m.src != m.dst
    ensures var n := s.nodes[path[j]];
      && NewTo(n, m) && n.index == path[j] && Beats(m.srcSeqno, m.hopCount, Get(n.table, m.src))
      && (m.dst == n.index <==> j == |path| - 1)
      && (j < |path| - 1 ==> Get(n.table, m.dst).hops.Infinity?)
  {
    assert NodeOk(s, path[j], s.nodes[path[j]]);
    assert path[0] != path[|path| - 1] && path[0] != path[j];
    if j < |path| - 1 { assert path[j] != path[|path| - 1]; }
  }

  // One agent of the path receives the request.
  lemma {:induction false} Passed(s: Net, path: seq<Addr>, j: nat, m: Msg)
    requires Inv(s) && CopyFor(m, path, j) && m in s.msgs
    requires Unheard(s, path, j, m.src, m.bcastId, m.srcSeqno, m.dst)
    ensures var t := Apply(s, Deliver(path[j], m));
      && Enabled(s, Deliver(path[j], m)) && Inv(t) && OnlyAt(s, t, path, j) && |t.nodes| == |s.nodes|
      && (forall r: Addr :: r < |s.nodes| && r != path[j] ==> t.nodes[r] == s.nodes[r])
      && LeadsTo(Get(t.nodes[path[j]].table, m.src), path[j - 1], m.srcSeqno, j)
      && (j < |path| - 1 ==> Get(t.nodes[path[j]].table, m.dst).seqno == Get(s.nodes[path[j]].table, m.dst).seqno)
  {
    var n := s.nodes[path[j]];
    UnheardAt(s, path, j, m);
    Delivered(s, path[j], m);
    RequestRoutes(n, m, m.src);
    RequestRoutes(n, m, m.dst);
    assert path[j] in path[j..];
    hide RecvRequest, Get, Inv, Unheard, NewTo, Enabled;
  }

  // The next copy, or the answer.
  lemma {:induction false} NextCopy(s: Net, path: seq<Addr>, j: nat, m: Msg) returns (k: Msg)
    requires Inv(s) && CopyFor(m, path, j) && m in s.msgs
    requires Unheard(s, path, j, m.src, m.bcastId, m.srcSeqno, m.dst)
    ensures k in Apply(s, Deliver(path[j], m)).msgs
    ensures j < |path| - 1 ==>
      && CopyFor(k, path, j + 1) && k.bcastId == m.bcastId && k.srcSeqno == m.srcSeqno
      && k.dstSeqno >= m.dstSeqno && k.dstSeqno >= Get(s.nodes[path[j]].table, m.dst).seqno
    ensures j == |path| - 1 ==> k.Rrep? && k == Rrep(m.dst, k.dstSeqno, 1, m.src, 30, m.dst, path[j - 1]) && k.dstSeqno > m.dstSeqno
  {
    var n := s.nodes[path[j]];
    UnheardAt(s, path, j, m);
    Delivered(s, path[j], m);
    hide Inv, Unheard, Enabled, Apply;
    RequestAnswered(n, m);
    RequestRoutes(n, m, m.src);
    RequestRoutes(n, m, m.dst);
    hide RecvRequest, Get, NewTo, Beats;
    var out := RecvRequest(n, m).1;
    k := out[0];
    assert k in out;
  }

  lemma {:induction false} UnheardNext(s: Net, t: Net, path: seq<Addr>, j: nat, o: Addr, b: nat, seqno: nat, d: Addr)
    requires Unheard(s, path, j, o, b, seqno, d) && j < |path| && |t.nodes| == |s.nodes|
    requires forall r: Addr :: r < |s.nodes| && r != path[j] ==> t.nodes[r] == s.nodes[r]
    ensures Unheard(t, path, j + 1, o, b, seqno, d)
  {}

  // Agent path[j] is left alone while the later ones act.
  lemma {:induction false} SpreadMore(s: Net, t: Net, u: Net, path: seq<Addr>, j: nat, seqno: nat, d: Addr, answered: nat)
    requires NoRepeats(path) && 1 <= j < |path| - 1 && path[j] < |s.nodes|
    requires OnlyAt(s, t, path, j) && OnlyAt(t, u, path, j + 1)
    requires LeadsTo(Get(t.nodes[path[j]].table, path[0]), path[j - 1], seqno, j) && Back(u, path, j + 1, seqno)
    requires Get(t.nodes[path[j]].table, d).seqno < answered && Older(u, path, j + 1, d, answered)
    ensures OnlyAt(s, u, path, j) && Back(u, path, j, seqno) && Older(u, path, j, d, answered)
  {
    hide LeadsTo, Get;
    assert path[j..] == [path[j]] + path[j + 1..];
    assert path[j] !in path[j + 1..];
    assert u.nodes[path[j]] == t.nodes[path[j]];
  }

  // The request goes on from path[j] to the end, which answers.
  lemma {:induction false} Spread(s: Net, path: seq<Addr>, j: nat, m: Msg) returns (evs: seq<Event>, answer: Msg)
    requires Inv(s) && CopyFor(m, path, j) && m in s.msgs
    requires Unheard(s, path, j, m.src, m.bcastId, m.srcSeqno, m.dst)
    ensures Legal(s, evs) && Deliveries(evs, path[j..])
    ensures var t := Run(s, evs);
      && Inv(t) && OnlyAt(s, t, path, j) && Back(t, path, j, m.srcSeqno)
      && answer in t.msgs && answer.Rrep? && answer == Rrep(m.dst, answer.dstSeqno, 1, m.src, 30, m.dst, path[|path| - 2])
      && answer.dstSeqno > m.dstSeqno && Older(t, path, j, m.dst, answer.dstSeqno)
    decreases |path| - j
  {
    hide Inv, Get, LeadsTo, Enabled, Apply, Legal, Run, OnlyAt, Back, Older, Deliveries, Unheard, NoRepeats;
    UnheardPath(s, path, j, m);
    Passed(s, path, j, m);
    var k := NextCopy(s, path, j, m);
    var ev := Deliver(path[j], m);
    var t := Apply(s, ev);
    if j == |path| - 1 {
      evs, answer := [ev] + [], k;
      NoStep(t);
      OneStep(s, ev, []);
      SpreadLast(t, path, ev, m.srcSeqno, m.dst, k.dstSeqno);
    } else {
      UnheardNext(s, t, path, j, m.src, m.bcastId, m.srcSeqno, m.dst);
      var rest;
      rest, answer := Spread(t, path, j + 1, k);
      evs := [ev] + rest;
      OneStep(s, ev, rest);
      DeliveriesMore(ev, rest, path, j);
      SpreadMore(s, t, Run(t, rest), path, j, m.srcSeqno, m.dst, answer.dstSeqno);
    }
  }

  lemma {:induction false} NoStep(t: Net)
    ensures Legal(t, []) && Run(t, []) == t
  {}

  lemma {:induction false} SpreadLast(t: Net, path: seq<Addr>, ev: Event, seqno: nat, d: Addr, answered: nat)
    requires |path| >= 2 && ev.Deliver? && ev.r == path[|path| - 1] < |t.nodes|
    requires LeadsTo(Get(t.nodes[ev.r].table, path[0]), path[|path| - 2], seqno, |path| - 1)
    ensures Back(t, path, |path| - 1, seqno) && Older(t, path, |path| - 1, d, answered) && Deliveries([ev] + [], path[|path| - 1..])
  {}

  lemma {:induction false} UnheardPath(s: Net, path: seq<Addr>, j: nat, m: Msg)
    requires m.Rreq? && j < |path| && Unheard(s, path, j, m.src, m.bcastId, m.srcSeqno, m.dst)
    ensures NoRepeats(path) && path[j] < |s.nodes|
  {}

  lemma {:induction false} DeliveriesMore(ev: Event, rest: seq<Event>, path: seq<Addr>, j: nat)
    requires j < |path| && ev.Deliver? && ev.r == path[j] && Deliveries(rest, path[j + 1..])
    ensures Deliveries([ev] + rest, path[j..])
  {}

  // ---------- the way back ----------

  // The copy of the reply about the other end that path[j] is to receive.
  ghost predicate ReplyFor(m: Msg, path: seq<Addr>, j: nat) {
    && j < |path| - 1 && m.Rrep? && m.dst == path[|path| - 1] && m.target == path[0]
    && m.sender == path[j + 1] && m.hopCount == |path| - 1 - j && m.ttl > j
  }

  // Agents path[..j + 1] have a way back, and nothing as new as `newer` about `d`.
  ghost predicate Waiting(s: Net, path: seq<Addr>, j: nat, seqno: nat, d: Addr, newer: nat) {
    && j < |path| && NoRepeats(path)
    && (forall i :: 0 <= i <= j ==> path[i] < |s.nodes| && Get(s.nodes[path[i]].table, d).seqno < newer)
    && (forall i :: 1 <= i <= j ==> LeadsTo(Get(s.nodes[path[i]].table, path[0]), path[i - 1], seqno, i))
  }

  // Agents path[..j + 1] have a route to the other end, and still one back.
  ghost predicate Joined(s: Net, path: seq<Addr>, j: nat, seqno: nat, newer: nat) {
    && j < |path| - 1
    && (forall i :: 0 <= i <= j ==>
          path[i] < |s.nodes| && LeadsTo(Get(s.nodes[path[i]].table, path[|path| - 1]), path[i + 1], newer, |path| - 1 - i))
    && (forall i :: 1 <= i <= j ==> LeadsTo(Get(s.nodes[path[i]].table, path[0]), path[i - 1], seqno, i))
  }

  ghost predicate OnlyUpTo(s: Net, t: Net, path: seq<Addr>, j: nat) {
    && j < |path| && |t.nodes| == |s.nodes| && s.msgs <= t.msgs
    && forall r: Addr :: r < |s.nodes| && r !in path[..j + 1] ==> t.nodes[r] == s.nodes[r]
  }

  // path[..j + 1], last first.
  ghost function Home(path: seq<Addr>, j: nat): seq<Addr>
    requires j < |path|
  {
    if j == 0 then [path[0]] else [path[j]] + Home(path, j - 1)
  }

  lemma {:induction false} ClearHere(s: Net, path: seq<Addr>, j: nat, m: Msg, seqno: nat)
    requires Inv(s) && ReplyFor(m, path, j) && Waiting(s, path, j, seqno, m.dst, m.dstSeqno)
    ensures s.nodes[path[j]].index == path[j] && (j > 0 ==> path[0] != path[j]) && m.target != m.dst
    ensures ClearOfRepair(s.nodes[path[j]], Deliver(path[j], m))
    ensures Beats(m.dstSeqno, m.hopCount, Get(s.nodes[path[j]].table, m.dst))
    ensures j > 0 ==> LeadsTo(Get(s.nodes[path[j]].table, m.target), path[j - 1], seqno, j)
  {
    assert NodeOk(s, path[j], s.nodes[path[j]]);
    assert path[0] != path[|path| - 1];
    assert Get(s.nodes[path[j]].table, m.dst).seqno < m.dstSeqno;
    if j > 0 { assert LeadsTo(Get(s.nodes[path[j]].table, path[0]), path[j - 1], seqno, j); }
  }

  // One agent of the path receives the reply.
  lemma {:induction false} Learns(s: Net, path: seq<Addr>, j: nat, m: Msg, seqno: nat)
    requires Inv(s) && ReplyFor(m, path, j) && m in s.msgs && Waiting(s, path, j, seqno, m.dst, m.dstSeqno)
    ensures var t := Apply(s, Deliver(path[j], m));
      && Enabled(s, Deliver(path[j], m)) && Inv(t)
      && |t.nodes| == |s.nodes| && s.msgs <= t.msgs
      && (forall r: Addr :: r < |s.nodes| && r != path[j] ==> t.nodes[r] == s.nodes[r])
      && LeadsTo(Get(t.nodes[path[j]].table, m.dst), path[j + 1], m.dstSeqno, |path| - 1 - j)
      && (j > 0 ==> LeadsTo(Get(t.nodes[path[j]].table, path[0]), path[j - 1], seqno, j))
  {
    var r := path[j];
    var n := s.nodes[r];
    ClearHere(s, path, j, m, seqno);
    Delivered(s, r, m);
    ReplyRoutes(n, m, m.dst);
    ReplyRoutes(n, m, m.target);
    hide RecvReply, Get, Inv, Waiting;
  }

  lemma {:induction false} NextReply(s: Net, path: seq<Addr>, j: nat, m: Msg, seqno: nat) returns (k: Msg)
    requires Inv(s) && ReplyFor(m, path, j) && m in s.msgs && Waiting(s, path, j, seqno, m.dst, m.dstSeqno) && j > 0
    ensures k in Apply(s, Deliver(path[j], m)).msgs && ReplyFor(k, path, j - 1) && k.dstSeqno == m.dstSeqno
  {
    var r := path[j];
    var n := s.nodes[r];
    ClearHere(s, path, j, m, seqno);
    Delivered(s, r, m);
    ReplyRoutes(n, m, m.target);
    ReplyPassedOn(n, m);
    var out := RecvReply(n, m).1;
    hide RecvReply, Get, Inv, Waiting;
    k := out[0];
    assert k in out;
  }

  lemma {:induction false} WaitingNext(s: Net, t: Net, path: seq<Addr>, j: nat, seqno: nat, d: Addr, newer: nat)
    requires Waiting(s, path, j, seqno, d, newer) && j > 0 && |t.nodes| == |s.nodes|
    requires forall r: Addr :: r < |s.nodes| && r != path[j] ==> t.nodes[r] == s.nodes[r]
    ensures Waiting(t, path, j - 1, seqno, d, newer)
  {}

  lemma {:induction false} JoinedMore(s: Net, t: Net, u: Net, path: seq<Addr>, j: nat, seqno: nat, newer: nat)
    requires NoRepeats(path) && 0 < j < |path| - 1 && path[j] < |s.nodes| && |t.nodes| == |s.nodes| && s.msgs <= t.msgs
    requires forall r: Addr :: r < |s.nodes| && r != path[j] ==> t.nodes[r] == s.nodes[r]
    requires OnlyUpTo(t, u, path, j - 1) && Joined(u, path, j - 1, seqno, newer)
    requires LeadsTo(Get(t.nodes[path[j]].table, path[|path| - 1]), path[j + 1], newer, |path| - 1 - j)
    requires LeadsTo(Get(t.nodes[path[j]].table, path[0]), path[j - 1], seqno, j)
    ensures OnlyUpTo(s, u, path, j) && Joined(u, path, j, seqno, newer)
  {
    hide LeadsTo, Get;
    assert path[..j + 1] == path[..j] + [path[j]] && path[..j - 1 + 1] == path[..j];
    assert path[j] !in path[..j];
    assert u.nodes[path[j]] == t.nodes[path[j]];
  }

  lemma {:induction false} HomeMore(ev: Event, rest: seq<Event>, path: seq<Addr>, j: nat)
    requires 0 < j < |path| && ev.Deliver? && ev.r == path[j] && Deliveries(rest, Home(path, j - 1))
    ensures Deliveries([ev] + rest, Home(path, j))
  {}

  // The reply goes home from path[j].
  lemma {:induction false} Return(s: Net, path: seq<Addr>, j: nat, m: Msg, seqno: nat) returns (evs: seq<Event>)
    requires Inv(s) && ReplyFor(m, path, j) && m in s.msgs && Waiting(s, path, j, seqno, m.dst, m.dstSeqno)
    ensures Legal(s, evs) && Deliveries(evs, Home(path, j))
    ensures var t := Run(s, evs); Inv(t) && OnlyUpTo(s, t, path, j) && Joined(t, path, j, seqno, m.dstSeqno)
    decreases j
  {
    hide Inv, Get, LeadsTo, AssertsHold, Handle;
    var ev := Deliver(path[j], m);
    var t := Apply(s, ev);
    assert j < |path| && NoRepeats(path) && path[j] < |s.nodes|;
    Learns(s, path, j, m, seqno);
    if j == 0 {
      evs := [ev] + [];
      OneStep(s, ev, []);
      assert Run(s, evs) == t && path[..1] == [path[0]];
    } else {
      hide Waiting, NoRepeats, Run, Legal, Enabled, Home, Deliveries;
      var k := NextReply(s, path, j, m, seqno);
      WaitingNext(s, t, path, j, seqno, m.dst, m.dstSeqno);
      hide Apply, OnlyUpTo, Joined;
      var rest := Return(t, path, j - 1, k, seqno);
      evs := [ev] + rest;
      OneStep(s, ev, rest);
      HomeMore(ev, rest, path, j);
      JoinedMore(s, t, Run(t, rest), path, j, seqno, m.dstSeqno);
    }
  }

  // ---------- the whole discovery ----------

  lemma {:induction false} TwoRuns(s: Net, a: seq<Event>, b: seq<Event>)
    requires Legal(s, a) && Legal(Run(s, a), b)
    ensures Legal(s, a + b) && Run(s, a + b) == Run(Run(s, a), b)
    decreases |a|
  {
    hide Handle, AssertsHold;
    if a == [] {
      assert a + b == b;
    } else {
      TwoRuns(Apply(s, a[0]), a[1..], b);
      assert (a + b)[1..] == a[1..] + b;
    }
  }

  // path[0] may search for the other end now, far enough; the others have not heard the
  // request that it is about to send.
  ghost predicate Ready(s: Net, path: seq<Addr>, now: real) {
    && |path| >= 2 && |path| <= 31 && NoRepeats(path) && path[0] < |s.nodes|
    && var n := s.nodes[path[0]];
       var e := Get(n.table, path[|path| - 1]);
       && Permitted(e, now) && e.reqCnt <= 3 && NextRadius(if e.reqLastTtl > e.lastHopCount then e.reqLastTtl else e.lastHopCount) >= |path| - 1
       && Unheard(s, path, 1, path[0], n.bid, n.seqno + 2, path[|path| - 1])
  }

  lemma {:induction false} Begins(s: Net, path: seq<Addr>, now: real, perHop: real) returns (m: Msg)
    requires Inv(s) && Ready(s, path, now)
    ensures var ev := Discover(path[0], path[|path| - 1], now, perHop);
      var t := Apply(s, ev);
      && Enabled(s, ev) && Inv(t) && m in t.msgs && CopyFor(m, path, 1) && m.srcSeqno == s.nodes[path[0]].seqno + 2
      && Unheard(t, path, 1, m.src, m.bcastId, m.srcSeqno, m.dst)
      && |t.nodes| == |s.nodes| && Get(t.nodes[path[0]].table, m.dst).seqno == m.dstSeqno
  {
    var n, d := s.nodes[path[0]], path[|path| - 1];
    var ev := Discover(path[0], d, now, perHop);
    assert NodeOk(s, path[0], n);
    AssertsExactly(s, ev);
    HandlerSound(s, ev);
    SoundKeepsInv(s, ev);
    RequestSent(n, d, now, perHop);
    var out := SendRequest(n, d, now, perHop).1;
    m := out[0];
    assert m in out;
    forall i | 1 <= i < |path| ensures path[i] != path[0] {}
    hide SendRequest, Get, Inv;
  }

  // Discovery connects. Whatever else the agents know: if path[0] searches for the other
  // end of a path of at most 30 hops, and the request runs along the path and the reply
  // back, then afterwards every agent of the path sends packets for the far end to the
  // next agent of it, and packets for path[0] to the one before, with the exact number
  // of hops.
  lemma {:induction false} DiscoveryConnects(s: Net, path: seq<Addr>, now: real, perHop: real) returns (evs: seq<Event>, newer: nat)
    requires Inv(s) && Ready(s, path, now)
    ensures Legal(s, evs) && evs != [] && evs[0] == Discover(path[0], path[|path| - 1], now, perHop)
    ensures Deliveries(evs[1..], path[1..] + Home(path, |path| - 2))
    ensures Joined(Run(s, evs), path, |path| - 2, s.nodes[path[0]].seqno + 2, newer)
    ensures Back(Run(s, evs), path, |path| - 1, s.nodes[path[0]].seqno + 2)
  {
    var ev := Discover(path[0], path[|path| - 1], now, perHop);
    assert |path| >= 2 && NoRepeats(path) && path[0] < |s.nodes|;
    hide *;
    var m := Begins(s, path, now, perHop);
    var t := Apply(s, ev);
    var out, answer := Spread(t, path, 1, m);
    var u := Run(t, out);
    WaitingAll(t, u, path, m, answer);
    var home := Return(u, path, |path| - 2, answer, m.srcSeqno);
    TwoRuns(t, out, home);
    newer := answer.dstSeqno;
    evs := [ev] + (out + home);
    OneStep(s, ev, out + home);
    DeliveriesBoth(out, home, path[1..], Home(path, |path| - 2));
    assert evs[1..] == out + home;
    FarEnd(u, Run(u, home), path, m.srcSeqno);
  }

  lemma {:induction false} DeliveriesBoth(a: seq<Event>, b: seq<Event>, p: seq<Addr>, q: seq<Addr>)
    requires Deliveries(a, p) && Deliveries(b, q)
    ensures Deliveries(a + b, p + q)
  {}

  lemma {:induction false} WaitingAll(t: Net, u: Net, path: seq<Addr>, m: Msg, answer: Msg)
    requires |path| >= 2 && NoRepeats(path) && path[0] < |t.nodes| && m.Rreq? && CopyFor(m, path, 1)
    requires OnlyAt(t, u, path, 1) && Back(u, path, 1, m.srcSeqno)
    requires answer.Rrep? && Older(u, path, 1, m.dst, answer.dstSeqno)
    requires Get(t.nodes[path[0]].table, m.dst).seqno < answer.dstSeqno
    ensures Waiting(u, path, |path| - 2, m.srcSeqno, m.dst, answer.dstSeqno)
  {
    hide Get, LeadsTo;
    assert path[0] !in path[1..];
    assert u.nodes[path[0]] == t.nodes[path[0]];
  }

  lemma {:induction false} FarEnd(u: Net, v: Net, path: seq<Addr>, seqno: nat)
    requires |path| >= 2 && NoRepeats(path) && Back(u, path, 1, seqno) && OnlyUpTo(u, v, path, |path| - 2)
    ensures Back(v, path, |path| - 1, seqno)
  {
    hide Get, LeadsTo;
    assert path[|path| - 1] !in path[..|path| - 1];
  }

  // In particular the first discovery in a new network connects any two agents along any
  // path of at most 30 hops.
  lemma {:induction false} FirstDiscovery(size: nat, path: seq<Addr>, now: real, perHop: real) returns (evs: seq<Event>)
    requires 2 <= |path| <= 31 && NoRepeats(path) && (forall i :: 0 <= i < |path| ==> path[i] < size) && now >= 0.0
    ensures Legal(Initial(size), evs) && |evs| == 2 * |path| - 1 && Connected(Run(Initial(size), evs), path)
  {
    var s := Initial(size);
    ReadyAtFirst(size, path, now);
    var seqno := s.nodes[path[0]].seqno + 2;
    hide *;
    var newer;
    evs, newer := DiscoveryConnects(s, path, now, perHop);
    EventCount(evs, path);
    JoinedHops(Run(s, evs), path, seqno, newer);
  }

  // Packets follow the path both ways.
  ghost predicate Connected(t: Net, path: seq<Addr>) {
    forall k :: 0 <= k < |path| - 1 ==>
      NextHop(t, path[k], path[k + 1], path[|path| - 1]) && NextHop(t, path[k + 1], path[k], path[0])
  }

  lemma {:induction false} ReadyAtFirst(size: nat, path: seq<Addr>, now: real)
    requires 2 <= |path| <= 31 && NoRepeats(path) && (forall i :: 0 <= i < |path| ==> path[i] < size) && now >= 0.0
    ensures Inv(Initial(size)) && |Initial(size).nodes| == size && Ready(Initial(size), path, now)
  {
    InitialInv(size);
  }

  lemma {:induction false} JoinedHops(t: Net, path: seq<Addr>, seqno: nat, newer: nat)
    requires |path| >= 2 && Joined(t, path, |path| - 2, seqno, newer) && Back(t, path, |path| - 1, seqno)
    ensures Connected(t, path)
  {
    hide Get;
    forall k | 0 <= k < |path| - 1
      ensures NextHop(t, path[k], path[k + 1], path[|path| - 1]) && NextHop(t, path[k + 1], path[k], path[0])
    {
      assert path[k] < |t.nodes| && path[k + 1] < |t.nodes|;
    }
  }

  lemma {:induction false} EventCount(evs: seq<Event>, path: seq<Addr>)
    requires |path| >= 2 && evs != [] && Deliveries(evs[1..], path[1..] + Home(path, |path| - 2))
    ensures |evs| == 2 * |path| - 1
  {
    HomeLength(path, |path| - 2);
  }

  lemma {:induction false} HomeLength(path: seq<Addr>, j: nat)
    requires j < |path|
    ensures |Home(path, j)| == j + 1
  {
    if j > 0 { HomeLength(path, j - 1); }
  }
}
