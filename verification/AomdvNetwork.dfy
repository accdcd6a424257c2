// A network of AOMDV agents. Messages once sent stay in flight for ever: each
// may be received by any agent, any number of times, in any order, or never.
module AomdvNetwork {
  import opened Wrappers
  import opened AomdvRoute
  import opened AomdvAgent

  datatype Net = Net(nodes: seq<Node>, msgs: set<Msg>)

  datatype Event =
    | Deliver(r: Addr, m: Msg)
    | Discover(r: Addr, d: Addr, ttl: nat)
    | Forward(r: Addr, d: Addr)
    | Unroutable(r: Addr, d: Addr)
    | LinkBreaks(r: Addr, id: Addr)
    | Expire(r: Addr, now: real, expired: set<(Addr, Addr)>)
    | Salvage(r: Addr, d: Addr)
    | ForgetIds(r: Addr, gone: set<(Addr, nat)>)
    | Beacon(r: Addr)

  function Handle(n: Node, ev: Event): (Node, seq<Msg>) {
    match ev
    case Deliver(_, m) =>
      if m.Rreq? then RecvRequest(n, m) else if m.Rrep? then RecvReply(n, m)
      else if m.Rerr? then RecvError(n, m) else RecvHello(n, m)
    case Discover(_, d, ttl) => SendRequest(n, d, ttl)
    case Forward(_, d) => ForwardData(n, d)
    case Unroutable(_, d) => NoRoute(n, d)
    case LinkBreaks(_, id) => LinkFailure(n, id)
    case Expire(_, now, expired) => RtPurge(n, now, expired)
    case Salvage(_, d) => ForwardData(n, d)
    case ForgetIds(_, gone) => IdPurge(n, gone)
    case Beacon(_) => SayHello(n)
  }

  ghost predicate Possible(s: Net, ev: Event) {
    ev.r < |s.nodes| && (ev.Deliver? ==> ev.m in s.msgs)
  }

  ghost function Apply(s: Net, ev: Event): Net
    requires ev.r < |s.nodes|
  {
    var (n, out) := Handle(s.nodes[ev.r], ev);
    Net(s.nodes[ev.r := n], s.msgs + set m | m in out)
  }

  // `memory` is what the memory of the entries of each agent holds.
  ghost function Initial(size: nat, maxPaths: nat, lenDiff: int, memory: (Addr, Addr) -> nat): Net {
    Net(seq(size, i requires 0 <= i < size => NewNode(i, maxPaths, lenDiff, (d: Addr) => memory(i, d))), {})
  }

  ghost predicate Legal(s: Net, evs: seq<Event>)
    decreases |evs|
  {
    evs == [] || (Possible(s, evs[0]) && Legal(Apply(s, evs[0]), evs[1..]))
  }

  ghost function Run(s: Net, evs: seq<Event>): Net
    requires Legal(s, evs)
    decreases |evs|
  {
    if evs == [] then s else Run(Apply(s, evs[0]), evs[1..])
  }

  // ---------- claims ----------

  // What a message or a path says: the route to `about` with this sequence
  // number is `hops` long from agent `from`.
  datatype Claim = Claim(about: Addr, seqno: nat, from: Addr, hops: nat)

  ghost function ClaimOf(m: Msg): Option<Claim> {
    match m
    case Rreq(src, srcSeqno, _, _, _, hops, _, _, sender) => Some(Claim(src, srcSeqno, sender, hops))
    case Rrep(dst, dstSeqno, hops, _, _, _, _, sender, _) => Some(Claim(dst, dstSeqno, sender, hops))
    case Rerr(_, _) => None
    case Hello(origin, originSeqno) => Some(Claim(origin, originSeqno, origin, 0))
  }

  // The claim that led to path `p` of entry `e`.
  ghost function PathClaim(e: Entry, p: Path): Claim {
    Claim(e.dst, e.seqno, p.nexthop, if p.hopcount >= 1 then p.hopcount - 1 else 0)
  }

  ghost predicate OwnSeqno(seqno: nat) { seqno >= 2 && seqno % 2 == 0 }

  // A claim of an agent about itself has hop count 0; any other is what the
  // agent has advertised, until its sequence number grows.
  ghost predicate Standing(t: map<Addr, Entry>, self: Addr, c: Claim) {
    if c.about == self then c.hops == 0
    else
      var e := Get(t, c.about);
      e.seqno > c.seqno || (e.seqno == c.seqno && e.advertised == Finite(c.hops))
  }

  ghost predicate ClaimOk(s: Net, c: Claim) {
    c.from < |s.nodes| && OwnSeqno(c.seqno) && Standing(s.nodes[c.from].table, c.from, c)
  }

  ghost predicate MsgOk(s: Net, m: Msg) {
    match ClaimOf(m)
    case Some(c) => ClaimOk(s, c)
    case None => Stale(m.unreachable)
  }

  ghost predicate Stale(unreachable: map<Addr, nat>) {
    forall d :: d in unreachable ==> unreachable[d] % 2 == 1 || unreachable[d] == 0
  }

  // Two claims of one agent about one route never differ.
  ghost predicate Agree(c: Claim, k: Claim) {
    c.about == k.about && c.seqno == k.seqno && c.from == k.from ==> c.hops == k.hops
  }

  ghost predicate AllAgree(msgs: set<Msg>) {
    forall m, k :: m in msgs && k in msgs && ClaimOf(m).Some? && ClaimOf(k).Some?
      ==> Agree(ClaimOf(m).value, ClaimOf(k).value)
  }

  ghost predicate Heard(msgs: set<Msg>, c: Claim) {
    exists m :: m in msgs && ClaimOf(m) == Some(c)
  }

  ghost predicate EntriesOk(t: map<Addr, Entry>) {
    forall d :: d in t ==> t[d].dst == d && EntryOk(t[d])
  }

  // Every stored path goes back to a message.
  ghost predicate EntryHeard(msgs: set<Msg>, e: Entry) {
    forall p :: p in e.paths ==> Heard(msgs, PathClaim(e, p))
  }

  ghost predicate PathsHeard(msgs: set<Msg>, t: map<Addr, Entry>) {
    forall d :: d in t ==> EntryHeard(msgs, t[d])
  }

  ghost predicate NodeOk(s: Net, r: Addr, n: Node) {
    n.index == r && OwnSeqno(n.seqno) && EntriesOk(n.table) && PathsHeard(s.msgs, n.table)
  }

  ghost predicate Inv(s: Net) {
    && (forall r :: 0 <= r < |s.nodes| ==> NodeOk(s, r, s.nodes[r]))
    && (forall m :: m in s.msgs ==> MsgOk(s, m))
    && AllAgree(s.msgs)
  }

  ghost predicate TableEvolves(t: map<Addr, Entry>, u: map<Addr, Entry>) {
    forall d: Addr :: Evolves(Get(t, d), Get(u, d))
  }

  // A claim an agent may make: about itself, or what its table advertises now.
  ghost predicate MayClaim(n: Node, c: Claim) {
    && c.from == n.index && OwnSeqno(c.seqno)
    && if c.about == n.index then c.hops == 0
       else Get(n.table, c.about).seqno == c.seqno && Get(n.table, c.about).advertised == Finite(c.hops)
  }

  ghost predicate MaySend(n: Node, m: Msg) {
    match ClaimOf(m)
    case Some(c) => MayClaim(n, c)
    case None => Stale(m.unreachable)
  }

  // What every handler does, whatever it was called for.
  ghost predicate Sound(msgs: set<Msg>, n: Node, p: (Node, seq<Msg>)) {
    && p.0.index == n.index && p.0.memory == n.memory && OwnSeqno(p.0.seqno)
    && EntriesOk(p.0.table) && PathsHeard(msgs, p.0.table)
    && TableEvolves(n.table, p.0.table)
    && |p.1| <= 1 && (p.1 != [] ==> MaySend(p.0, p.1[0]))
  }

  lemma {:induction false} MoreHeard(msgs: set<Msg>, more: set<Msg>, t: map<Addr, Entry>)
    requires msgs <= more && PathsHeard(msgs, t)
    ensures PathsHeard(more, t)
  {}

  lemma {:induction false} EvolvesSelf(t: map<Addr, Entry>)
    ensures TableEvolves(t, t)
  {}

  // A sound handler keeps the invariant of the whole network.
  lemma {:induction false} SoundKeepsInv(s: Net, ev: Event)
    requires Inv(s) && ev.r < |s.nodes| && Sound(s.msgs, s.nodes[ev.r], Handle(s.nodes[ev.r], ev))
    ensures Inv(Apply(s, ev))
  {
    hide Handle, EntriesOk, PathsHeard, Evolves, Get, OwnSeqno;
    var t := Apply(s, ev);
    var (n, out) := Handle(s.nodes[ev.r], ev);
    assert NodeOk(s, ev.r, s.nodes[ev.r]);
    forall r | 0 <= r < |s.nodes|
      ensures NodeOk(t, r, t.nodes[r]) && TableEvolves(s.nodes[r].table, t.nodes[r].table)
    {
      assert NodeOk(s, r, s.nodes[r]);
      EvolvesSelf(s.nodes[r].table);
      MoreHeard(s.msgs, t.msgs, t.nodes[r].table);
    }
    forall m | m in t.msgs
      ensures MsgOk(t, m)
    {
      MsgKept(s, t, n, m);
    }
    forall m, k | m in t.msgs && k in t.msgs && ClaimOf(m).Some? && ClaimOf(k).Some?
      ensures Agree(ClaimOf(m).value, ClaimOf(k).value)
    {
      AgreeKept(s, t, n, m, k);
    }
  }

  lemma {:induction false} MsgKept(s: Net, t: Net, n: Node, m: Msg)
    requires |t.nodes| == |s.nodes| && n.index < |t.nodes| && t.nodes[n.index] == n
    requires forall r :: 0 <= r < |s.nodes| ==> TableEvolves(s.nodes[r].table, t.nodes[r].table)
    requires if m in s.msgs then MsgOk(s, m) else MaySend(n, m)
    ensures MsgOk(t, m)
  {}

  lemma {:induction false} AgreeKept(s: Net, t: Net, n: Node, m: Msg, k: Msg)
    requires Inv(s) && |t.nodes| == |s.nodes| && n.index < |t.nodes| && t.nodes[n.index] == n
    requires TableEvolves(s.nodes[n.index].table, n.table)
    requires m in s.msgs || MaySend(n, m)
    requires k in s.msgs || MaySend(n, k)
    requires m !in s.msgs && k !in s.msgs ==> m == k
    requires ClaimOf(m).Some? && ClaimOf(k).Some?
    ensures Agree(ClaimOf(m).value, ClaimOf(k).value)
  {}

  // ---------- every handler is sound ----------

  ghost predicate TableOk(msgs: set<Msg>, t: map<Addr, Entry>, u: map<Addr, Entry>) {
    EntriesOk(u) && PathsHeard(msgs, u) && TableEvolves(t, u)
  }

  ghost predicate GoodEntry(msgs: set<Msg>, d: Addr, e: Entry) {
    e.dst == d && EntryOk(e) && EntryHeard(msgs, e)
  }

  lemma {:induction false} GetGood(msgs: set<Msg>, t: map<Addr, Entry>, d: Addr)
    requires EntriesOk(t) && PathsHeard(msgs, t)
    ensures GoodEntry(msgs, d, Get(t, d))
  {}

  lemma {:induction false} PutGood(msgs: set<Msg>, t: map<Addr, Entry>, u: map<Addr, Entry>, d: Addr, f: Entry)
    requires TableOk(msgs, t, u) && GoodEntry(msgs, d, f) && Evolves(Get(u, d), f)
    ensures TableOk(msgs, t, u[d := f])
  {}

  // A path learnt from a message.
  lemma {:induction false} RestartGood(msgs: set<Msg>, e: Entry, d: Addr, seqno: nat, p: Path)
    requires GoodEntry(msgs, d, e) && OwnSeqno(seqno) && e.seqno < seqno && p.hopcount >= 1
    requires Heard(msgs, Claim(d, seqno, p.nexthop, p.hopcount - 1))
    ensures GoodEntry(msgs, d, Restart(e, seqno, p)) && Evolves(e, Restart(e, seqno, p))
  {}

  lemma {:induction false} InsertGood(msgs: set<Msg>, e: Entry, d: Addr, p: Path)
    requires GoodEntry(msgs, d, e) && e.flags == Up && p.hopcount >= 1
    requires Above(e.advertised, p.hopcount - 1) && Disjoint(e.paths, p.nexthop, p.lasthop)
    requires Heard(msgs, Claim(d, e.seqno, p.nexthop, p.hopcount - 1))
    ensures GoodEntry(msgs, d, Insert(e, p)) && Evolves(e, Insert(e, p))
  {}

  // An entry that shares an even sequence number with a message is up.
  lemma {:induction false} SameSeqnoUp(e: Entry, seqno: nat)
    requires EntryOk(e) && OwnSeqno(seqno) && e.seqno == seqno
    ensures e.flags == Up
  {}

  lemma {:induction false} ReversePathGood(msgs: set<Msg>, n: Node, e: Entry, m: Msg)
    requires m.Rreq? && m in msgs && OwnSeqno(m.srcSeqno) && GoodEntry(msgs, m.src, e)
    ensures var l := ReversePath(n, e, m);
      && GoodEntry(msgs, m.src, l.e) && Evolves(e, l.e)
      && (!l.drop ==> l.e.flags == Up && l.e.seqno == m.srcSeqno)
  {
    hide OwnSeqno, Heard, EntryHeard, EntryOk, MinCount, FirstByLasthop, Above;
    var p := Path(m.sender, m.hopCount + 1, FirstHop(n, m));
    assert Heard(msgs, Claim(m.src, m.srcSeqno, m.sender, m.hopCount)) by { HeardNow(msgs, m); }
    if e.seqno < m.srcSeqno {
      RestartGood(msgs, e, m.src, m.srcSeqno, p);
    } else if e.seqno == m.srcSeqno && Above(e.advertised, m.hopCount) {
      SameSeqnoUp(e, m.srcSeqno);
      if Disjoint(e.paths, p.nexthop, p.lasthop) { InsertGood(msgs, e, m.src, p); }
    }
  }

  lemma {:induction false} HeardNow(msgs: set<Msg>, m: Msg)
    requires m in msgs && ClaimOf(m).Some?
    ensures Heard(msgs, ClaimOf(m).value)
  {}

  lemma {:induction false} AdvertiseGood(msgs: set<Msg>, d: Addr, e: Entry, error: bool)
    requires GoodEntry(msgs, d, e) && e.flags == Up
    ensures var f := Advertise(e).(error := error || e.error);
      GoodEntry(msgs, d, f) && Evolves(e, f) && f.advertised == Finite(AdvHops(f)) && f.flags == Up && f.seqno == e.seqno
  {
    AdvertiseOk(e);
    var f := Advertise(e).(error := error || e.error);
    forall p | p in f.paths
      ensures Heard(msgs, PathClaim(f, p))
    {
      assert PathClaim(f, p) == PathClaim(e, p);
    }
  }

  lemma {:induction false} RecvRequestSound(s: Net, n: Node, m: Msg)
    requires NodeOk(s, n.index, n) && m.Rreq? && m in s.msgs && MsgOk(s, m)
    ensures Sound(s.msgs, n, RecvRequest(n, m))
  {
    hide ReversePath, GoodEntry, Evolves, EntriesOk, PathsHeard, TableEvolves, Advertise, Get;
    EvolvesSelf(n.table);
    if m.src != n.index {
      GetGood(s.msgs, n.table, m.src);
      ReversePathGood(s.msgs, n, Get(n.table, m.src), m);
      var l := ReversePath(n, Get(n.table, m.src), m);
      var t := n.table[m.src := l.e];
      PutGood(s.msgs, n.table, n.table, m.src, l.e);
      GetPut(n.table, m.src, l.e);
      if !l.drop && m.dst != n.index {
        GetGood(s.msgs, t, m.dst);
        GetGood(s.msgs, t, m.src);
        if CanReply(Get(t, m.dst), m) {
          var rt := Advertise(Get(t, m.dst)).(error := true);
          AdvertiseGood(s.msgs, m.dst, Get(t, m.dst), true);
          PutGood(s.msgs, n.table, t, m.dst, rt);
          GetPut(t, m.dst, rt);
          GoodSeqno(s.msgs, m.dst, rt);
        } else {
          var rt0 := Advertise(l.e);
          AdvertiseGood(s.msgs, m.src, l.e, false);
          assert Advertise(l.e).(error := false || l.e.error) == rt0 by { ErrorKept(l.e); }
          PutGood(s.msgs, n.table, t, m.src, rt0);
          GetPut(t, m.src, rt0);
        }
      }
    }
  }

  lemma {:induction false} ErrorKept(e: Entry)
    ensures Advertise(e).(error := false || e.error) == Advertise(e)
  {}

  lemma {:induction false} GetPut(t: map<Addr, Entry>, d: Addr, e: Entry)
    ensures Get(t[d := e], d) == e
  {}

  lemma {:induction false} GoodSeqno(msgs: set<Msg>, d: Addr, e: Entry)
    requires GoodEntry(msgs, d, e) && e.flags == Up
    ensures OwnSeqno(e.seqno)
  {}

  lemma {:induction false} ForwardPathGood(msgs: set<Msg>, n: Node, e: Entry, m: Msg)
    requires m.Rrep? && OwnSeqno(m.dstSeqno) && GoodEntry(msgs, m.dst, e)
    requires Heard(msgs, Claim(m.dst, m.dstSeqno, m.sender, m.hopCount))
    ensures var (f, ok) := ForwardPath(n, e, m);
      GoodEntry(msgs, m.dst, f) && Evolves(e, f) && (ok ==> f.flags == Up && f.seqno == m.dstSeqno)
  {
    hide OwnSeqno, Heard, EntryHeard, EntryOk, MinCount, Above;
    var p := Path(m.sender, m.hopCount + 1, m.firstHop);
    if e.seqno < m.dstSeqno {
      RestartGood(msgs, e, m.dst, m.dstSeqno, p);
    } else if e.seqno == m.dstSeqno && Above(e.advertised, m.hopCount) {
      SameSeqnoUp(e, m.dstSeqno);
      if Disjoint(e.paths, p.nexthop, p.lasthop) { InsertGood(msgs, e, m.dst, p); }
    }
  }

  lemma {:induction false} RecvReplySound(s: Net, n: Node, m: Msg)
    requires NodeOk(s, n.index, n) && m.Rrep? && OwnSeqno(m.dstSeqno)
    requires Heard(s.msgs, Claim(m.dst, m.dstSeqno, m.sender, m.hopCount))
    ensures Sound(s.msgs, n, RecvReply(n, m))
  {
    hide ForwardPath, GoodEntry, Evolves, EntriesOk, PathsHeard, TableEvolves, Advertise, Get;
    EvolvesSelf(n.table);
    if m.dst != n.index {
      GetGood(s.msgs, n.table, m.dst);
      ForwardPathGood(s.msgs, n, Get(n.table, m.dst), m);
      var (e, ok) := ForwardPath(n, Get(n.table, m.dst), m);
      PutGood(s.msgs, n.table, n.table, m.dst, e);
      GetPut(n.table, m.dst, e);
      if ok {
        var rt := Advertise(e).(error := true);
        AdvertiseGood(s.msgs, m.dst, e, true);
        PutGood(s.msgs, n.table, n.table[m.dst := e], m.dst, rt);
        GetPut(n.table[m.dst := e], m.dst, rt);
      }
    }
  }

  lemma {:induction false} RecvHelloSound(s: Net, n: Node, m: Msg)
    requires NodeOk(s, n.index, n) && m.Hello? && m in s.msgs && MsgOk(s, m)
    ensures Sound(s.msgs, n, RecvHello(n, m))
  {
    HeardNow(s.msgs, m);
    RecvReplySound(s, n, Rrep(m.origin, m.originSeqno, 0, n.index, 0, n.index, 0, m.origin, n.index));
  }

  // An entry that only loses paths, or goes down with a larger odd sequence number.
  ghost predicate Worn(e: Entry, f: Entry) {
    && f.dst == e.dst && (f.highestHeard % 2 == 1 || f.highestHeard == 0)
    && PairwiseDisjoint(f.paths) && (forall p :: p in f.paths ==> p in e.paths)
    && ((f.seqno == e.seqno && f.advertised == e.advertised && f.flags == e.flags && (f.flags == Up ==> f.paths != []))
        || (f.seqno > e.seqno && f.seqno % 2 == 1 && f.flags == Down && f.paths == [] && f.advertised == Infinity))
  }

  lemma {:induction false} WornGood(msgs: set<Msg>, d: Addr, e: Entry, f: Entry)
    requires GoodEntry(msgs, d, e) && Worn(e, f)
    ensures GoodEntry(msgs, d, f) && Evolves(e, f)
  {
    assert |f.paths| > 0 ==> f.paths[0] in e.paths;
    forall p | p in f.paths
      ensures Heard(msgs, PathClaim(f, p))
    {
      assert p in e.paths && PathClaim(f, p) == PathClaim(e, p);
    }
  }

  lemma {:induction false} WornTable(msgs: set<Msg>, t: map<Addr, Entry>, u: map<Addr, Entry>)
    requires EntriesOk(t) && PathsHeard(msgs, t)
    requires u.Keys == t.Keys && forall d :: d in t ==> Worn(t[d], u[d])
    ensures TableOk(msgs, t, u)
  {
    hide Worn, EntryOk, EntryHeard;
    forall d | d in t
      ensures GoodEntry(msgs, d, u[d]) && Evolves(t[d], u[d])
    {
      WornGood(msgs, d, t[d], u[d]);
    }
    forall d: Addr
      ensures Evolves(Get(t, d), Get(u, d))
    {
    }
  }

  lemma {:induction false} ErrorWorn(e: Entry, from: Addr, s: nat)
    requires EntryOk(e) && (s % 2 == 1 || s == 0)
    ensures Worn(e, ErrorEntry(e, from, s))
    ensures ErrorReport(e, from, s) ==> ErrorEntry(e, from, s).seqno % 2 == 1
  {
    DeleteAll(e.paths, from);
  }

  lemma {:induction false} BrokenWorn(e: Entry, id: Addr)
    requires EntryOk(e)
    ensures Worn(e, BrokenEntry(e, id)) && !Uses(BrokenEntry(e, id), id)
    ensures BrokenReport(e, id) ==> BrokenEntry(e, id).seqno % 2 == 1
  {
    DeleteAll(e.paths, id);
  }

  lemma {:induction false} PurgedWorn(e: Entry, gone: set<Addr>)
    requires EntryOk(e)
    ensures Worn(e, PurgedEntry(e, gone))
  {
    PurgeIs(e.paths, gone);
  }

  lemma {:induction false} RecvErrorSound(s: Net, n: Node, m: Msg)
    requires NodeOk(s, n.index, n) && m.Rerr? && m in s.msgs && MsgOk(s, m)
    ensures Sound(s.msgs, n, RecvError(n, m))
  {
    hide Worn, ErrorEntry, ErrorReport;
    var u := RecvError(n, m).0.table;
    forall d | d in n.table
      ensures Worn(n.table[d], u[d])
      ensures d in m.unreachable && ErrorReport(n.table[d], m.sender, m.unreachable[d]) ==> u[d].seqno % 2 == 1
    {
      if d in m.unreachable { ErrorWorn(n.table[d], m.sender, m.unreachable[d]); } else { WornSelf(n.table[d]); }
    }
    WornTable(s.msgs, n.table, u);
  }

  lemma {:induction false} WornSelf(e: Entry)
    requires EntryOk(e)
    ensures Worn(e, e)
  {}

  lemma {:induction false} LinkFailureSound(s: Net, n: Node, id: Addr)
    requires NodeOk(s, n.index, n)
    ensures Sound(s.msgs, n, LinkFailure(n, id))
  {
    hide Worn, BrokenEntry, BrokenReport, Uses;
    var u := LinkFailure(n, id).0.table;
    forall d | d in n.table
      ensures Worn(n.table[d], u[d]) && (BrokenReport(n.table[d], id) ==> u[d].seqno % 2 == 1)
    {
      BrokenWorn(n.table[d], id);
    }
    WornTable(s.msgs, n.table, u);
  }

  lemma {:induction false} RtPurgeSound(s: Net, n: Node, now: real, expired: set<(Addr, Addr)>)
    requires NodeOk(s, n.index, n)
    ensures Sound(s.msgs, n, RtPurge(n, now, expired))
  {
    hide Worn, PurgedEntry;
    var u := RtPurge(n, now, expired).0.table;
    forall d | d in n.table
      ensures Worn(n.table[d], u[d])
    {
      PurgedWorn(n.table[d], Expired(expired, d));
      WornSelf(n.table[d]);
    }
    WornTable(s.msgs, n.table, u);
  }

  lemma {:induction false} TouchSound(s: Net, n: Node, d: Addr, f: Entry)
    requires NodeOk(s, n.index, n) && f == Get(n.table, d).(error := f.error)
    ensures TableOk(s.msgs, n.table, n.table[d := f])
  {}

  lemma {:induction false} HandlerSound(s: Net, ev: Event)
    requires Inv(s) && Possible(s, ev)
    ensures Sound(s.msgs, s.nodes[ev.r], Handle(s.nodes[ev.r], ev))
  {
    hide RecvRequest, RecvReply, RecvError, RecvHello, LinkFailure, RtPurge, EntryOk, EntryHeard;
    var n := s.nodes[ev.r];
    assert NodeOk(s, ev.r, n);
    EvolvesSelf(n.table);
    match ev
    case Deliver(_, m) =>
      assert MsgOk(s, m);
      if m.Rreq? { RecvRequestSound(s, n, m); }
      else if m.Rrep? {
        HeardNow(s.msgs, m);
        RecvReplySound(s, n, m);
      }
      else if m.Rerr? { RecvErrorSound(s, n, m); }
      else { RecvHelloSound(s, n, m); }
    case Discover(_, d, _) => TouchSound(s, n, d, Get(n.table, d));
    case Forward(_, d) => TouchSound(s, n, d, Get(n.table, d).(error := true));
    case Unroutable(_, d) =>
      TouchSound(s, n, d, Get(n.table, d));
      GetGood(s.msgs, n.table, d);
      if Get(n.table, d).flags == Down { DownOdd(Get(n.table, d)); }
    case LinkBreaks(_, id) => LinkFailureSound(s, n, id);
    case Expire(_, now, expired) => RtPurgeSound(s, n, now, expired);
    case Salvage(_, d) => TouchSound(s, n, d, Get(n.table, d).(error := true));
    case ForgetIds(_, _) =>
    case Beacon(_) =>
  }

  lemma {:induction false} DownOdd(e: Entry)
    requires EntryOk(e) && e.flags == Down
    ensures e.seqno % 2 == 1 || e.seqno == 0
  {}
}
