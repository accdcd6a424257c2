// The AOMDV agent (aomdv.cc, node-disjoint paths): its packet handlers as
// functions of the agent's state. Clocks are parameters; data packets and their
// buffer are not part of this model.
module AomdvAgent {
  import opened Wrappers
  import opened AomdvRoute

  datatype Msg =
    | Rreq(src: Addr, srcSeqno: nat, dst: Addr, dstSeqno: nat, bcastId: nat, hopCount: nat, firstHop: Addr, ttl: int, sender: Addr)
    | Rrep(dst: Addr, dstSeqno: nat, hopCount: nat, firstHop: Addr, bcastId: nat, target: Addr, ttl: int, sender: Addr, nexthop: Addr)
    | Rerr(unreachable: map<Addr, nat>, sender: Addr)
    | Hello(origin: Addr, originSeqno: nat)

  // `maxPaths` is aomdv_max_paths_, `lenDiff` aomdv_prim_alt_path_len_diff_;
  // `ids` maps a cached broadcast id to its reply count. `memory` is rt_hops of the
  // entry of each destination: no constructor and no handler writes it, so it is what
  // the memory of the entry held when the entry was made.
  datatype Node = Node(
    index: Addr,
    seqno: nat,
    bid: nat,
    table: map<Addr, Entry>,
    ids: map<(Addr, nat), nat>,
    maxPaths: nat,
    lenDiff: int,
    memory: Addr -> nat
  )

  const NETWORK_DIAMETER: nat := 30

  // rt_expire of every entry: it is only ever set to 0.
  const RT_EXPIRE: real := 0.0

  function NewNode(id: Addr, maxPaths: nat, lenDiff: int, memory: Addr -> nat): Node {
    Node(id, 2, 1, map[], map[], maxPaths, lenDiff, memory)
  }

  // The entry for `d`, as a new one if there is none.
  function Get(t: map<Addr, Entry>, d: Addr): Entry {
    if d in t then t[d] else Fresh(d)
  }

  function Max(a: nat, b: nat): nat { if a > b then a else b }

  // ---------- route requests ----------

  function FirstHop(n: Node, m: Msg): Addr
    requires m.Rreq?
  {
    if m.hopCount == 0 then n.index else m.firstHop
  }

  function TooLong(n: Node, hops: nat, paths: seq<Path>): bool {
    hops - MinCount(paths) > n.lenDiff
  }

  function Insert(e: Entry, p: Path): Entry {
    e.(paths := e.paths + [p])
  }

  datatype Learned = Learned(e: Entry, known: bool, drop: bool)

  // The reverse path of a request (lines 837-907): the updated entry, whether a
  // reverse path is at hand, and whether the request is dropped.
  function ReversePath(n: Node, e: Entry, m: Msg): Learned
    requires m.Rreq?
  {
    var p := Path(m.sender, m.hopCount + 1, FirstHop(n, m));
    if e.seqno < m.srcSeqno then Learned(Restart(e, m.srcSeqno, p), true, false)
    else if e.seqno == m.srcSeqno && Above(e.advertised, m.hopCount) then
      if Has(e.paths, p.nexthop, p.lasthop) then Learned(e, true, false)
      else if Disjoint(e.paths, p.nexthop, p.lasthop) then
        var room := |e.paths| < n.maxPaths && !TooLong(n, p.hopcount, e.paths);
        var f := if room then Insert(e, p) else e;
        Learned(f, room, TooLong(n, p.hopcount, f.paths))
      else
        var erp := FirstByLasthop(e.paths, p.lasthop);
        Learned(e, false, m.dst == n.index && (erp.None? || p.hopcount > erp.value.hopcount))
    else Learned(e, false, true)
  }

  function NextOwnSeqno(own: nat, wanted: nat): nat {
    var s := if own < wanted then wanted + 1 else own;
    if s % 2 == 1 then s + 1 else s
  }

  function CanReply(e: Entry, m: Msg): bool
    requires m.Rreq?
  {
    e.flags == Up && e.seqno >= m.dstSeqno
  }

  // The hop count of an advertised entry.
  function AdvHops(e: Entry): nat {
    if e.advertised.Finite? then e.advertised.n else 255
  }

  function FirstLasthop(e: Entry): Addr {
    if e.paths != [] then e.paths[0].lasthop else 0
  }

  function RecvRequest(n: Node, m: Msg): (Node, seq<Msg>)
    requires m.Rreq?
  {
    if m.src == n.index then (n, [])
    else
      var key := (m.src, m.bcastId);
      var seen := key in n.ids;
      var learned := ReversePath(n, Get(n.table, m.src), m);
      var n1 := n.(ids := if seen then n.ids else n.ids[key := 0], table := n.table[m.src := learned.e]);
      if learned.drop then (n1, [])
      else if m.dst == n.index then AnswerAsDestination(n1, m)
      else if CanReply(Get(n1.table, m.dst), m) then AnswerFromTable(n1, m, learned.known)
      else if seen then (n1, [])
      else Rebroadcast(n1, m)
  }

  function AnswerAsDestination(n: Node, m: Msg): (Node, seq<Msg>)
    requires m.Rreq?
  {
    var s := NextOwnSeqno(n.seqno, m.dstSeqno);
    (n.(seqno := s), [Rrep(n.index, s, 0, m.sender, m.bcastId, m.src, NETWORK_DIAMETER, n.index, m.sender)])
  }

  function AnswerFromTable(n: Node, m: Msg, known: bool): (Node, seq<Msg>)
    requires m.Rreq? && (m.src, m.bcastId) in n.ids
  {
    if !known || n.ids[(m.src, m.bcastId)] != 0 then (n, [])
    else
      var rt := Advertise(Get(n.table, m.dst)).(error := true);
      (n.(ids := n.ids[(m.src, m.bcastId) := 1], table := n.table[m.dst := rt]),
       [Rrep(m.dst, rt.seqno, AdvHops(rt), FirstLasthop(rt), m.bcastId, m.src, NETWORK_DIAMETER, n.index, m.sender)])
  }

  function Rebroadcast(n: Node, m: Msg): (Node, seq<Msg>)
    requires m.Rreq?
  {
    var rt0 := Advertise(Get(n.table, m.src));
    var fwd := Rreq(m.src, m.srcSeqno, m.dst, Max(Get(n.table, m.dst).seqno, m.dstSeqno), m.bcastId,
                    AdvHops(rt0), FirstLasthop(rt0), m.ttl - 1, n.index);
    (n.(table := n.table[m.src := rt0]), if fwd.ttl == 0 then [] else [fwd])
  }

  // ---------- route replies ----------

  // The forward path of a reply (lines 1098-1143): the updated entry, and
  // whether a forward path is at hand.
  function ForwardPath(n: Node, e: Entry, m: Msg): (Entry, bool)
    requires m.Rrep?
  {
    var p := Path(m.sender, m.hopCount + 1, m.firstHop);
    if e.seqno < m.dstSeqno then (Restart(e, m.dstSeqno, p), true)
    else if e.seqno == m.dstSeqno && Above(e.advertised, m.hopCount) then
      if Has(e.paths, p.nexthop, p.lasthop) then (e, true)
      else if Disjoint(e.paths, p.nexthop, p.lasthop) && |e.paths| < n.maxPaths && !TooLong(n, p.hopcount, e.paths) then
        (Insert(e, p), true)
      else (e, false)
    else (e, false)
  }

  function RecvReply(n: Node, m: Msg): (Node, seq<Msg>)
    requires m.Rrep?
  {
    if m.dst == n.index then (n, [])
    else
      var (e, ok) := ForwardPath(n, Get(n.table, m.dst), m);
      var n1 := n.(table := n.table[m.dst := e]);
      var key := (m.target, m.bcastId);
      if !ok || m.target == n.index || Get(n1.table, m.target).flags != Up || key !in n.ids || n.ids[key] != 0 then (n1, [])
      else Relay(n1, m)
  }

  // Lines 1194-1214: advertise the route and pass the reply on.
  function Relay(n: Node, m: Msg): (Node, seq<Msg>)
    requires m.Rrep?
  {
    var rt := Advertise(Get(n.table, m.dst)).(error := true);
    var back := Get(n.table, m.target).paths;
    var fwd := Rrep(m.dst, m.dstSeqno, AdvHops(rt), FirstLasthop(rt), m.bcastId, m.target, m.ttl - 1, n.index,
                    if back != [] then back[0].nexthop else 0);
    (n.(ids := n.ids[(m.target, m.bcastId) := 1], table := n.table[m.dst := rt]), if fwd.ttl == 0 then [] else [fwd])
  }

  // recvHello: a route to the neighbour, as from a reply addressed to this agent.
  function RecvHello(n: Node, m: Msg): (Node, seq<Msg>)
    requires m.Hello?
  {
    RecvReply(n, Rrep(m.origin, m.originSeqno, 0, n.index, 0, n.index, 0, m.origin, n.index))
  }

  // ---------- route errors and failures ----------

  predicate ErrorHits(e: Entry, from: Addr, s: nat) {
    e.flags == Up && Through(e.paths, from) && e.seqno <= s
  }

  // The entry after the error, before its error flag is cleared.
  function Erred(e: Entry, from: Addr, s: nat): Entry {
    var f := e.(paths := DeleteFirst(e.paths, from), highestHeard := Max(e.highestHeard, s));
    if f.paths != [] then f else Downed(f.(seqno := f.highestHeard))
  }

  function ErrorEntry(e: Entry, from: Addr, s: nat): Entry {
    if !ErrorHits(e, from, s) then e
    else
      var f := Erred(e, from, s);
      if f.flags == Down then f.(error := false) else f
  }

  function ErrorReport(e: Entry, from: Addr, s: nat): bool {
    ErrorHits(e, from, s) && e.error && Erred(e, from, s).flags == Down
  }

  function ErrorTable(n: Node, m: Msg): map<Addr, Entry>
    requires m.Rerr?
  {
    map d | d in n.table :: if d in m.unreachable then ErrorEntry(n.table[d], m.sender, m.unreachable[d]) else n.table[d]
  }

  function ErrorDests(n: Node, m: Msg): map<Addr, nat>
    requires m.Rerr?
  {
    map d | d in n.table && d in m.unreachable && ErrorReport(n.table[d], m.sender, m.unreachable[d])
      :: ErrorEntry(n.table[d], m.sender, m.unreachable[d]).seqno
  }

  function RecvError(n: Node, m: Msg): (Node, seq<Msg>)
    requires m.Rerr?
  {
    var out := ErrorDests(n, m);
    (n.(table := ErrorTable(n, m)), if out == map[] then [] else [Rerr(out, n.index)])
  }

  predicate Uses(e: Entry, id: Addr) {
    e.flags == Up && Through(e.paths, id)
  }

  // The entry after losing neighbour `id`, before its error flag is cleared.
  function Broken(e: Entry, id: Addr): Entry {
    var f := e.(paths := DeleteFirst(e.paths, id));
    if f.paths != [] then f else Downed(f.(seqno := Max(f.seqno + 1, f.highestHeard)))
  }

  function BrokenEntry(e: Entry, id: Addr): Entry {
    if !Uses(e, id) then e
    else
      var f := Broken(e, id);
      if f.flags == Down then f.(error := false) else f
  }

  function BrokenReport(e: Entry, id: Addr): bool {
    Uses(e, id) && e.error && Broken(e, id).flags == Down
  }

  function BrokenTable(n: Node, id: Addr): map<Addr, Entry> {
    map d | d in n.table :: BrokenEntry(n.table[d], id)
  }

  function BrokenDests(n: Node, id: Addr): map<Addr, nat> {
    map d | d in n.table && BrokenReport(n.table[d], id) :: BrokenEntry(n.table[d], id).seqno
  }

  // nb_delete and handle_link_failure
  function LinkFailure(n: Node, id: Addr): (Node, seq<Msg>) {
    var out := BrokenDests(n, id);
    (n.(seqno := n.seqno + 2, table := BrokenTable(n, id)), if out == map[] then [] else [Rerr(out, n.index)])
  }

  // rt_purge; `expired` are the (destination, next hop) pairs whose path is over.
  function PurgedEntry(e: Entry, gone: set<Addr>): Entry {
    if e.flags != Up then e
    else
      var f := e.(paths := Purge(e.paths, gone));
      if f.paths != [] then f
      else
        var s := Max(f.seqno + 1, f.highestHeard);
        Downed(f.(seqno := if s % 2 == 0 then s + 1 else s))
  }

  function Expired(expired: set<(Addr, Addr)>, d: Addr): set<Addr> {
    set x | x in expired && x.0 == d :: x.1
  }

  function PurgedTable(t: map<Addr, Entry>, expired: set<(Addr, Addr)>): map<Addr, Entry> {
    map d | d in t :: PurgedEntry(t[d], Expired(expired, d))
  }

  function RtPurge(n: Node, now: real, expired: set<(Addr, Addr)>): (Node, seq<Msg>) {
    (if RT_EXPIRE < now then n.(table := PurgedTable(n.table, expired)) else n, [])
  }

  function IdPurge(n: Node, gone: set<(Addr, nat)>): (Node, seq<Msg>) {
    (n.(ids := n.ids - gone), [])
  }

  // ---------- sending ----------

  // sendRequest at a time when a request is permitted, with the TTL of the ring search.
  function SendRequest(n: Node, d: Addr, ttl: nat): (Node, seq<Msg>) {
    var e := Get(n.table, d);
    var n1 := n.(table := n.table[d := e]);
    if e.flags == Up then (n1, [])
    else (n1.(bid := n.bid + 1, seqno := n.seqno + 2),
          [Rreq(n.index, n.seqno + 2, d, e.seqno, n.bid, 0, 0, ttl, n.index)])
  }

  // A data packet of another source leaves along the route: errors must be reported.
  function ForwardData(n: Node, d: Addr): (Node, seq<Msg>) {
    if Get(n.table, d).flags == Up then (n.(table := n.table[d := n.table[d].(error := true)]), []) else (n, [])
  }

  // The last branch of rt_resolve: a packet to forward and no route for it.
  function NoRoute(n: Node, d: Addr): (Node, seq<Msg>) {
    var e := Get(n.table, d);
    (n.(table := n.table[d := e]), if e.flags == Down then [Rerr(map[d := e.seqno], n.index)] else [])
  }

  // HelloTimer::handle
  function SayHello(n: Node): (Node, seq<Msg>) {
    (n, if exists d :: d in n.table && n.table[d].flags == Up then [Hello(n.index, n.seqno)] else [])
  }
}
