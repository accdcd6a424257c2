// The AODV agent (aodv.cc): its packet handlers as functions of the agent's
// state. Clocks are parameters; data packets and their buffer are not part of
// this model.
module AodvAgent {
  import opened Wrappers
  import opened AodvRoute

  datatype Msg =
    | Rreq(src: Addr, srcSeqno: nat, dst: Addr, dstSeqno: nat, bcastId: nat, hopCount: nat, ttl: int, sender: Addr)
    | Rrep(dst: Addr, dstSeqno: nat, hopCount: nat, target: Addr, ttl: int, sender: Addr, nexthop: Addr)
    | Rerr(unreachable: seq<(Addr, nat)>, sender: Addr)

  datatype Node = Node(
    index: Addr,
    seqno: nat,
    bid: nat,
    table: seq<Entry>,
    seen: set<(Addr, nat)>
  )

  const RREQ_RETRIES: nat := 3
  const MAX_RREQ_TIMEOUT: real := 10.0
  const TTL_START: nat := 5
  const TTL_THRESHOLD: nat := 7
  const TTL_INCREMENT: nat := 2
  const NETWORK_DIAMETER: nat := 30

  // The constructor.
  function NewNode(id: Addr): Node {
    Node(id, 2, 1, [], {})
  }

  function Max(a: nat, b: nat): nat { if a > b then a else b }

  // ---------- route discovery ----------

  // The TTL of the next request (lines 1112-1130).
  function NextTtl(e: Entry): nat {
    var last := Max(e.reqLastTtl, e.lastHopCount);
    if last == 0 then TTL_START
    else if last < TTL_THRESHOLD then last + TTL_INCREMENT
    else NETWORK_DIAMETER
  }

  function NetworkWide(e: Entry): bool {
    Max(e.reqLastTtl, e.lastHopCount) >= TTL_THRESHOLD
  }

  // The time to wait for an answer (lines 1137-1144); `perHop` is PerHopTime.
  function RequestTimeout(ttl: nat, cnt: nat, now: real, perHop: real): real {
    var once := 2.0 * ttl as real * perHop;
    var wait := if cnt > 0 then once * cnt as real else once;
    if wait > MAX_RREQ_TIMEOUT then now + MAX_RREQ_TIMEOUT else now + wait
  }

  datatype Request = Suppressed | GaveUp | Sent(ttl: nat)

  // The rate limiting and expanding ring of sendRequest on the entry searched for.
  function RequestEntry(e: Entry, now: real, perHop: real): (Entry, Request) {
    if e.flags == Up || e.reqTimeout > now then (e, Suppressed)
    else if e.reqCnt > RREQ_RETRIES then
      (e.(reqTimeout := now + MAX_RREQ_TIMEOUT, reqCnt := 0), GaveUp)
    else
      var ttl := NextTtl(e);
      var cnt := if NetworkWide(e) then e.reqCnt + 1 else e.reqCnt;
      (e.(reqCnt := cnt, reqLastTtl := ttl, reqTimeout := RequestTimeout(ttl, cnt, now, perHop)), Sent(ttl))
  }

  function SendRequest(n: Node, d: Addr, now: real, perHop: real): (Node, seq<Msg>) {
    var (e, req) := RequestEntry(Get(n.table, d), now, perHop);
    var n1 := n.(table := Put(n.table, e));
    if !req.Sent? then (n1, [])
    else
      var n2 := n1.(bid := n.bid + 1, seqno := n.seqno + 2);
      (n2, [Rreq(n.index, n.seqno + 2, d, e.seqno, n.bid, 1, req.ttl, n.index)])
  }

  // ---------- receiving ----------

  // The reverse route to the source of a request (lines 705-721).
  function Reversed(e: Entry, m: Msg): Entry
    requires m.Rreq?
  {
    if !Improves(e, m.srcSeqno, m.hopCount) then e
    else
      var u := Update(e, m.srcSeqno, m.hopCount, m.sender);
      if u.reqTimeout > 0.0 then u.(reqCnt := 0, reqTimeout := 0.0, reqLastTtl := m.hopCount) else u
  }

  function NextOwnSeqno(own: nat, wanted: nat): nat {
    var s := Max(own, wanted) + 1;
    if s % 2 == 1 then s + 1 else s
  }

  predicate CanReply(e: Entry, m: Msg)
    requires m.Rreq?
  {
    e.hops.Finite? && e.seqno >= m.dstSeqno
  }

  function RecvRequest(n: Node, m: Msg): (Node, seq<Msg>)
    requires m.Rreq?
  {
    if m.src == n.index || (m.src, m.bcastId) in n.seen then (n, [])
    else
      var rt0 := Reversed(Get(n.table, m.src), m);
      var t := Put(n.table, rt0);
      var n1 := n.(seen := n.seen + {(m.src, m.bcastId)}, table := t);
      var rt := Get(t, m.dst);
      if m.dst == n.index then
        var s := NextOwnSeqno(n.seqno, m.dstSeqno);
        (n1.(seqno := s), [Rrep(n.index, s, 1, m.src, NETWORK_DIAMETER, n.index, rt0.nexthop)])
      else if CanReply(rt, m) then
        var t1 := Put(t, PcInsert(rt, rt0.nexthop));
        var t2 := Put(t1, PcInsert(Get(t1, m.src), rt.nexthop));
        (n1.(table := t2),
         [Rrep(m.dst, rt.seqno, rt.hops.n + 1, m.src, NETWORK_DIAMETER, n.index, rt0.nexthop)])
      else
        var fwd := Rreq(m.src, m.srcSeqno, m.dst, Max(rt.seqno, m.dstSeqno), m.bcastId,
                        m.hopCount + 1, m.ttl - 1, n.index);
        (n1, if fwd.ttl == 0 then [] else [fwd])
  }

  function RecvReply(n: Node, m: Msg): (Node, seq<Msg>)
    requires m.Rrep?
  {
    var rt := Get(n.table, m.dst);
    if !Improves(rt, m.dstSeqno, m.hopCount) then (n.(table := Put(n.table, rt)), [])
    else
      var u := Update(rt, m.dstSeqno, m.hopCount, m.sender).(reqCnt := 0, reqTimeout := 0.0, reqLastTtl := m.hopCount);
      var t := Put(n.table, u);
      var rt0 := Get(t, m.target);
      if m.target == n.index || rt0.hops.Infinity? then (n.(table := t), [])
      else
        var fwd := Rrep(m.dst, m.dstSeqno, m.hopCount + 1, m.target, m.ttl - 1, n.index, rt0.nexthop);
        (n.(table := Put(t, PcInsert(u, rt0.nexthop))), if fwd.ttl == 0 then [] else [fwd])
  }

  // One unreachable destination of a route error that came from `from`.
  function ErrorHits(e: Entry, from: Addr, s: nat): bool {
    e.hops.Finite? && e.nexthop == from && e.seqno <= s
  }

  function ErrorEntry(e: Entry, from: Addr, s: nat): Entry {
    if !ErrorHits(e, from, s) then e
    else Downed(e.(seqno := s)).(precursors := [])
  }

  function ErrorAll(t: seq<Entry>, from: Addr, unreachable: seq<(Addr, nat)>): (r: (seq<Entry>, seq<(Addr, nat)>))
    decreases |unreachable|
  {
    if unreachable == [] then (t, [])
    else
      var k := |unreachable| - 1;
      var (t1, out) := ErrorAll(t, from, unreachable[..k]);
      var (d, s) := unreachable[k];
      var e := Get(t1, d);
      if !ErrorHits(e, from, s) then (t1, out)
      else (Put(t1, ErrorEntry(e, from, s)), if e.precursors == [] then out else out + [(d, s)])
  }

  function RecvError(n: Node, m: Msg): (Node, seq<Msg>)
    requires m.Rerr?
  {
    var (t, out) := ErrorAll(n.table, m.sender, m.unreachable);
    (n.(table := t), if out == [] then [] else [Rerr(out, n.index)])
  }

  // ---------- failures and timers ----------

  predicate Uses(e: Entry, id: Addr) {
    e.hops.Finite? && e.nexthop == id
  }

  function BrokenEntry(e: Entry, id: Addr): Entry {
    PcDelete(if Uses(e, id) then Downed(e.(seqno := e.seqno + 1)) else e, id)
  }

  function BrokenAll(t: seq<Entry>, id: Addr): (seq<Entry>, seq<(Addr, nat)>) {
    if t == [] then ([], [])
    else
      var k := |t| - 1;
      var (r, out) := BrokenAll(t[..k], id);
      (r + [BrokenEntry(t[k], id)], if Uses(t[k], id) then out + [(t[k].dst, t[k].seqno + 1)] else out)
  }

  // nb_delete and handle_link_failure
  function LinkFailure(n: Node, id: Addr): (Node, seq<Msg>) {
    var (t, out) := BrokenAll(n.table, id);
    (n.(seqno := n.seqno + 2, table := t), if out == [] then [] else [Rerr(out, n.index)])
  }

  // What rt_purge finds when it runs: the destinations whose lifetime is over, those
  // with packets in the buffer, the clock, and PerHopTime of each entry.
  datatype Purge = Purge(expired: set<Addr>, waiting: set<Addr>, now: real, perHop: Addr -> real)

  // The body of the loop of rt_purge for entry `k`.
  function PurgeAt(n: Node, k: nat, p: Purge): (r: (Node, seq<Msg>))
    requires k < |n.table|
    ensures |r.0.table| == |n.table| && r.0.index == n.index && r.0.seen == n.seen
  {
    var e := n.table[k];
    if e.flags == Up then
      (if e.dst in p.expired then n.(table := n.table[k := Downed(e.(seqno := e.seqno + 1))]) else n, [])
    else if e.dst in p.waiting then SendRequest(n, e.dst, p.now, p.perHop(e.dst))
    else (n, [])
  }

  // rt_purge up to entry `k`
  function PurgeTo(n: Node, k: nat, p: Purge): (r: (Node, seq<Msg>))
    requires k <= |n.table|
    ensures |r.0.table| == |n.table| && r.0.index == n.index && r.0.seen == n.seen
  {
    if k == 0 then (n, [])
    else
      var (m, out) := PurgeTo(n, k - 1, p);
      var (q, more) := PurgeAt(m, k - 1, p);
      (q, out + more)
  }

  function RtPurge(n: Node, p: Purge): (Node, seq<Msg>) {
    PurgeTo(n, |n.table|, p)
  }

  // id_purge; `gone` are the broadcast ids whose lifetime is over.
  function IdPurge(n: Node, gone: set<(Addr, nat)>): (Node, seq<Msg>) {
    (n.(seen := n.seen - gone), [])
  }

  // The last branch of rt_resolve: a packet to forward and no route for it.
  function NoRoute(n: Node, d: Addr): (Node, seq<Msg>) {
    var e := Get(n.table, d);
    (n.(table := Put(n.table, e)), if e.flags == Down then [Rerr([(d, e.seqno)], n.index)] else [])
  }

  // local_rt_repair on a route whose link failed.
  function LocalRepair(n: Node, d: Addr, now: real, perHop: real): (Node, seq<Msg>) {
    SendRequest(n.(table := Put(n.table, Get(n.table, d).(flags := InRepair))), d, now, perHop)
  }

  // LocalRepairTimer::handle
  function RepairTimeout(n: Node, d: Addr): (Node, seq<Msg>) {
    var k := Find(n.table, d);
    if k < |n.table| && n.table[k].flags != Up then (n.(table := Put(n.table, Downed(n.table[k]))), []) else (n, [])
  }
}
