// What the handlers of an AOMDV agent do, seen from outside: the paths each entry holds
// afterwards, what it advertises, and which message leaves, to whom.
module AomdvEffects {
  import opened Wrappers
  import opened AomdvRoute
  import opened AomdvAgent
  import opened AomdvNetwork
  import opened AomdvSafety

  // ---------- hop counts of path lists ----------

  // A path of `hops` hops is at most `diff` longer than each of `paths`, and than the
  // 255 that the search for the shortest begins with.
  ghost predicate NotMuchLonger(hops: nat, paths: seq<Path>, diff: int) {
    hops - 255 <= diff && forall q :: q in paths ==> hops - q.hopcount <= diff
  }

  lemma {:induction false} TooLongIs(n: Node, hops: nat, paths: seq<Path>)
    ensures TooLong(n, hops, paths) <==> !NotMuchLonger(hops, paths, n.lenDiff)
  {
    if paths != [] {
      var rest, last := paths[..|paths| - 1], paths[|paths| - 1];
      assert paths == rest + [last];
      TooLongIs(n, hops, rest);
      assert forall q :: q in paths <==> q in rest || q == last;
    }
  }

  ghost predicate Longest(paths: seq<Path>, h: Hops) {
    h.Finite? && (exists p :: p in paths && p.hopcount == h.n) && forall p :: p in paths ==> p.hopcount <= h.n
  }

  lemma {:induction false} MaxIs(paths: seq<Path>)
    requires paths != [] && forall p :: p in paths ==> p.hopcount >= 1
    ensures Longest(paths, MaxHops(paths))
  {
    MaxCountIs(paths);
    MaxAttained(paths);
    assert paths[0] in paths;
  }

  lemma {:induction false} MaxAttained(paths: seq<Path>)
    ensures MaxCount(paths) == 0 || exists p :: p in paths && p.hopcount == MaxCount(paths)
  {
    if paths != [] {
      var rest, last := paths[..|paths| - 1], paths[|paths| - 1];
      assert paths == rest + [last];
      MaxAttained(rest);
    }
  }

  // ---------- offers ----------

  // What a message offers: a path with this sequence number, the sender being `hops` away.
  datatype Offer = Offer(seqno: nat, hops: nat, nexthop: Addr, lasthop: Addr)

  ghost function PathOf(o: Offer): Path { Path(o.nexthop, o.hops + 1, o.lasthop) }

  // The entry may still take paths of this number and length.
  ghost predicate Current(e: Entry, o: Offer) {
    e.seqno < o.seqno || (e.seqno == o.seqno && (e.advertised.Infinity? || e.advertised.n > o.hops))
  }

  ghost predicate Newer(e: Entry, o: Offer) { e.seqno < o.seqno }

  ghost predicate Stored(e: Entry, o: Offer) {
    exists q :: q in e.paths && q.nexthop == o.nexthop && q.lasthop == o.lasthop
  }

  ghost predicate Apart(e: Entry, o: Offer) {
    forall q :: q in e.paths ==> q.nexthop != o.nexthop && q.lasthop != o.lasthop
  }

  // A further path that is taken up.
  ghost predicate Room(n: Node, e: Entry, o: Offer) {
    && e.seqno == o.seqno && Current(e, o) && !Stored(e, o) && Apart(e, o)
    && |e.paths| < n.maxPaths && NotMuchLonger(o.hops + 1, e.paths, n.lenDiff)
  }

  // What the entry after the offer holds: a newer number drops the old paths.
  ghost predicate Learnt(n: Node, e: Entry, o: Offer, f: Entry) {
    && f.dst == e.dst && f.highestHeard == e.highestHeard
    && if Newer(e, o) then f.seqno == o.seqno && f.flags == Up && f.paths == [PathOf(o)]
       else f.seqno == e.seqno && f.flags == e.flags && f.paths == if Room(n, e, o) then e.paths + [PathOf(o)] else e.paths
  }

  ghost predicate SamePaths(e: Entry, f: Entry) {
    f.dst == e.dst && f.highestHeard == e.highestHeard && f.seqno == e.seqno && f.flags == e.flags && f.paths == e.paths
  }

  // The advertised count of `f`, which was `was`: fixed now, or left.
  ghost predicate Count(was: Hops, f: Entry, fixed: bool) {
    if fixed && was.Infinity? then Longest(f.paths, f.advertised) else f.advertised == was
  }

  // The advertised count after an offer, before it is fixed.
  ghost function After(e: Entry, o: Offer): Hops {
    if Newer(e, o) then Infinity else e.advertised
  }

  // The path on offer is in the list afterwards, and was welcome.
  ghost predicate Taken(n: Node, e: Entry, o: Offer) {
    Newer(e, o) || (Current(e, o) && (Stored(e, o) || Room(n, e, o)))
  }

  // ---------- route requests ----------

  ghost function ReverseOffer(n: Node, m: Msg): Offer
    requires m.Rreq?
  {
    Offer(m.srcSeqno, m.hopCount, m.sender, if m.hopCount == 0 then n.index else m.firstHop)
  }

  // The request goes no further: its offer is stale, or too long, or it is for this agent
  // and offers nothing that is shorter.
  ghost predicate Discarded(n: Node, e: Entry, m: Msg)
    requires m.Rreq?
  {
    var o := ReverseOffer(n, m);
    || !Current(e, o)
    || (!Newer(e, o) && !Stored(e, o) && Apart(e, o)
        && !NotMuchLonger(o.hops + 1, if Room(n, e, o) then e.paths + [PathOf(o)] else e.paths, n.lenDiff))
    || (!Newer(e, o) && !Stored(e, o) && !Apart(e, o) && m.dst == n.index
        && forall q :: q in e.paths && q.lasthop == o.lasthop ==> o.hops + 1 > q.hopcount)
  }

  lemma {:induction false} FirstByLasthopIs(paths: seq<Path>, lasthop: Addr)
    requires PairwiseDisjoint(paths)
    ensures match FirstByLasthop(paths, lasthop)
      case Some(q) => q in paths && q.lasthop == lasthop && forall x :: x in paths && x.lasthop == lasthop ==> x == q
      case None => forall x :: x in paths ==> x.lasthop != lasthop
  {
    if paths != [] {
      HeadDisjoint(paths);
      FirstByLasthopIs(paths[1..], lasthop);
    }
  }

  lemma {:induction false} ReverseLearnt(n: Node, e: Entry, m: Msg)
    requires m.Rreq? && PairwiseDisjoint(e.paths)
    ensures var l := ReversePath(n, e, m);
      && Learnt(n, e, ReverseOffer(n, m), l.e) && l.e.advertised == After(e, ReverseOffer(n, m)) && l.e.error == e.error
      && (l.drop <==> Discarded(n, e, m))
      && (!l.drop ==> (l.known <==> Taken(n, e, ReverseOffer(n, m))))
  {
    var o := ReverseOffer(n, m);
    TooLongIs(n, o.hops + 1, e.paths);
    TooLongIs(n, o.hops + 1, e.paths + [PathOf(o)]);
    FirstByLasthopIs(e.paths, o.lasthop);
    SameTests(e, o);
    hide MinCount, TooLong, NotMuchLonger, FirstByLasthop, PairwiseDisjoint, Has, Disjoint, Stored, Apart, Above, Current;
  }

  lemma {:induction false} SameTests(e: Entry, o: Offer)
    ensures Has(e.paths, o.nexthop, o.lasthop) <==> Stored(e, o)
    ensures Disjoint(e.paths, o.nexthop, o.lasthop) <==> Apart(e, o)
    ensures Current(e, o) <==> e.seqno < o.seqno || (e.seqno == o.seqno && Above(e.advertised, o.hops))
  {}

  lemma {:induction false} AdvertiseIs(e: Entry)
    requires EntryOk(e) && e.flags == Up
    ensures SamePaths(e, Advertise(e)) && Count(e.advertised, Advertise(e), true) && Advertise(e).error == e.error
    ensures e.paths != [] && AdvHops(Advertise(e)) == Advertise(e).advertised.n && Advertise(e).advertised.Finite?
  {
    MaxIs(e.paths);
  }

  // The agent has a route to the destination of the request that is fresh enough.
  ghost predicate Knows(n: Node, m: Msg)
    requires m.Rreq?
  {
    m.dst != n.index && Get(n.table, m.dst).flags == Up && Get(n.table, m.dst).seqno >= m.dstSeqno
  }

  // The agent, in state `p` by now, answers from its table: the path back was taken, and
  // the request has not been answered yet.
  ghost predicate Answers(n: Node, p: Node, m: Msg)
    requires m.Rreq?
  {
    && !Discarded(n, Get(n.table, m.src), m) && Knows(p, m) && Taken(n, Get(n.table, m.src), ReverseOffer(n, m))
    && ((m.src, m.bcastId) in n.ids ==> n.ids[(m.src, m.bcastId)] == 0)
  }

  // It passes the request on: it cannot answer, and hears it for the first time.
  ghost predicate PassesOn(n: Node, p: Node, m: Msg)
    requires m.Rreq?
  {
    !Discarded(n, Get(n.table, m.src), m) && m.dst != n.index && !Knows(p, m) && (m.src, m.bcastId) !in n.ids
  }

  // The table between the reverse path and the advertisement.
  ghost function Between(n: Node, m: Msg): map<Addr, Entry>
    requires m.Rreq?
  {
    n.table[m.src := ReversePath(n, Get(n.table, m.src), m).e]
  }

  lemma {:induction false} BetweenOk(n: Node, m: Msg, d: Addr)
    requires m.Rreq? && EntriesOk(n.table) && EntriesOk(Between(n, m))
    ensures EntryOk(Get(Between(n, m), d)) && PairwiseDisjoint(Get(n.table, m.src).paths)
  {}

  lemma {:induction false} BetweenIs(n: Node, m: Msg, d: Addr)
    requires m.Rreq? && PairwiseDisjoint(Get(n.table, m.src).paths)
    ensures var e, o, f := Get(n.table, d), ReverseOffer(n, m), Get(Between(n, m), d);
      && (if d == m.src then Learnt(n, e, o, f) && f.advertised == After(e, o) else f == e)
      && f.error == e.error
  {
    ReverseLearnt(n, Get(n.table, m.src), m);
    hide ReversePath;
  }

  // What recvRequest makes of the table, by the decisions it takes.
  lemma {:induction false} RequestTable(n: Node, m: Msg, d: Addr)
    requires m.Rreq? && m.src != n.index && PairwiseDisjoint(Get(n.table, m.src).paths)
    ensures var p := RecvRequest(n, m).0;
      var f, g := Get(Between(n, m), d), Get(p.table, d);
      && p.index == n.index && p.bid == n.bid
      && g == (if Answers(n, p, m) && d == m.dst then Advertise(f).(error := true)
               else if PassesOn(n, p, m) && d == m.src then Advertise(f) else f)
  {
    ReverseLearnt(n, Get(n.table, m.src), m);
    AdvertiseKeeps(Get(Between(n, m), m.dst));
    AdvertiseKeeps(Get(Between(n, m), m.src));
    hide ReversePath, Discarded, Taken, Learnt, PairwiseDisjoint, Advertise, FirstLasthop, AdvHops, NextOwnSeqno;
  }

  lemma {:induction false} AdvertiseKeeps(e: Entry)
    ensures Advertise(e).seqno == e.seqno && Advertise(e).flags == e.flags
  {}

  lemma {:induction false} BetweenGood(s: Net, r: Addr, m: Msg)
    requires Inv(s) && r < |s.nodes| && m in s.msgs && m.Rreq? && m.src != r
    ensures var n := s.nodes[r];
      && n.index == r && EntriesOk(n.table) && EntriesOk(Between(n, m)) && PairwiseDisjoint(Get(n.table, m.src).paths)
      && (!Discarded(n, Get(n.table, m.src), m) ==> Get(Between(n, m), m.src).flags == Up)
  {
    var n := s.nodes[r];
    assert NodeOk(s, r, n) && MsgOk(s, m);
    GetGood(s.msgs, n.table, m.src);
    assert EntryOk(Get(n.table, m.src));
    ReversePathGood(s.msgs, n, Get(n.table, m.src), m);
    var l := ReversePath(n, Get(n.table, m.src), m);
    hide ReversePath, Discarded;
    assert l.drop <==> Discarded(n, Get(n.table, m.src), m) by { ReverseLearnt(n, Get(n.table, m.src), m); }
  }

  // The paths after a request. Its source may gain the path that the request came, or
  // lose all older ones to it; all other entries keep theirs. What the agent tells others
  // about an entry it answers from, or passes a request of on, is fixed with that.
  lemma {:induction false} RequestPaths(s: Net, r: Addr, m: Msg, d: Addr)
    requires Inv(s) && r < |s.nodes| && m in s.msgs && m.Rreq? && m.src != r
    ensures var n := s.nodes[r];
      var p := RecvRequest(n, m).0;
      var e, f := Get(n.table, d), Get(p.table, d);
      && (if d == m.src then Learnt(n, e, ReverseOffer(n, m), f) else SamePaths(e, f))
      && Count(if d == m.src then After(e, ReverseOffer(n, m)) else e.advertised, f,
               (Answers(n, p, m) && d == m.dst) || (PassesOn(n, p, m) && d == m.src))
      && f.error == (e.error || (Answers(n, p, m) && d == m.dst))
  {
    var n := s.nodes[r];
    BetweenGood(s, r, m);
    RequestTable(n, m, d);
    RequestTable(n, m, m.dst);
    BetweenOk(n, m, d);
    BetweenIs(n, m, d);
    var f := Get(Between(n, m), d);
    if f.flags == Up { AdvertiseIs(f); }
    AdvertiseKeeps(Get(Between(n, m), m.dst));
    hide Inv, RecvRequest, Between, Get, Advertise, Discarded, Taken, EntryOk, EntriesOk, Room, Longest, Current;
  }

  // An answer from the table goes back where the request came from, with the count that
  // the agent now advertises and the last hop of its first path.
  ghost predicate TableAnswer(p: Node, m: Msg, out: seq<Msg>)
    requires m.Rreq?
  {
    var rt := Get(p.table, m.dst);
    && rt.advertised.Finite? && rt.paths != []
    && out == [Rrep(m.dst, rt.seqno, rt.advertised.n, rt.paths[0].lasthop, m.bcastId, m.src, 30, p.index, m.sender)]
  }

  // A request that is passed on carries the count that the agent now advertises for its
  // source.
  ghost predicate NextCopy(p: Node, m: Msg, out: seq<Msg>)
    requires m.Rreq?
  {
    var known, rt0 := Get(p.table, m.dst).seqno, Get(p.table, m.src);
    && rt0.advertised.Finite? && rt0.paths != []
    && out == if m.ttl == 1 then [] else
         [Rreq(m.src, m.srcSeqno, m.dst, if known > m.dstSeqno then known else m.dstSeqno, m.bcastId,
               rt0.advertised.n, rt0.paths[0].lasthop, m.ttl - 1, p.index)]
  }

  lemma {:induction false} OwnAnswered(n: Node, m: Msg)
    requires m.Rreq? && m.src != n.index && EntriesOk(n.table)
    ensures var (p, out) := RecvRequest(n, m);
      if m.dst == n.index && !Discarded(n, Get(n.table, m.src), m) then OwnAnswer(n, p, m, out) else p.seqno == n.seqno
  {
    assert EntryOk(Get(n.table, m.src));
    ReverseLearnt(n, Get(n.table, m.src), m);
    hide ReversePath, Get, Advertise, Discarded, Taken, Learnt, EntryOk, EntriesOk, OwnAnswer;
    if m.dst == n.index && !Discarded(n, Get(n.table, m.src), m) { OwnAnswerIs(n, m); }
  }

  lemma {:induction false} TableAnswered(s: Net, r: Addr, m: Msg)
    requires Inv(s) && r < |s.nodes| && m in s.msgs && m.Rreq? && m.src != r
    ensures var n := s.nodes[r];
      var (p, out) := RecvRequest(n, m);
      Answers(n, p, m) ==> TableAnswer(p, m, out)
  {
    var n := s.nodes[r];
    BetweenGood(s, r, m);
    RequestTable(n, m, m.dst);
    BetweenOk(n, m, m.dst);
    if Get(Between(n, m), m.dst).flags == Up { AdvertiseIs(Get(Between(n, m), m.dst)); }
    AdvertiseKeeps(Get(Between(n, m), m.dst));
    ReverseLearnt(n, Get(n.table, m.src), m);
    hide Inv, ReversePath, Get, Advertise, Discarded, Taken, Learnt, EntryOk, EntriesOk, Longest;
  }

  lemma {:induction false} CopyPassed(s: Net, r: Addr, m: Msg)
    requires Inv(s) && r < |s.nodes| && m in s.msgs && m.Rreq? && m.src != r
    ensures var n := s.nodes[r];
      var (p, out) := RecvRequest(n, m);
      PassesOn(n, p, m) ==> NextCopy(p, m, out)
  {
    var n := s.nodes[r];
    BetweenGood(s, r, m);
    RequestTable(n, m, m.dst);
    RequestTable(n, m, m.src);
    BetweenOk(n, m, m.src);
    if Get(Between(n, m), m.src).flags == Up { AdvertiseIs(Get(Between(n, m), m.src)); }
    AdvertiseKeeps(Get(Between(n, m), m.dst));
    ReverseLearnt(n, Get(n.table, m.src), m);
    hide Inv, ReversePath, Get, Advertise, Discarded, Taken, Learnt, EntryOk, EntriesOk, Longest;
  }

  lemma {:induction false} SilentOtherwise(s: Net, r: Addr, m: Msg)
    requires Inv(s) && r < |s.nodes| && m in s.msgs && m.Rreq? && m.src != r
    ensures var n := s.nodes[r];
      var (p, out) := RecvRequest(n, m);
      !(m.dst == r && !Discarded(n, Get(n.table, m.src), m)) && !Answers(n, p, m) && !PassesOn(n, p, m) ==> out == []
  {
    var n := s.nodes[r];
    BetweenGood(s, r, m);
    RequestTable(n, m, m.dst);
    AdvertiseKeeps(Get(Between(n, m), m.dst));
    ReverseLearnt(n, Get(n.table, m.src), m);
    hide Inv, ReversePath, Get, Advertise, Discarded, Taken, Learnt, EntryOk, EntriesOk;
  }

  // What leaves for a request: the answer of its destination, the answer of an agent that
  // knows a fresh route and has a way back to offer, once; or the request itself, once.
  lemma {:induction false} RequestAnswered(s: Net, r: Addr, m: Msg)
    requires Inv(s) && r < |s.nodes| && m in s.msgs && m.Rreq? && m.src != r
    ensures var n := s.nodes[r];
      var (p, out) := RecvRequest(n, m);
      var mine := m.dst == r && !Discarded(n, Get(n.table, m.src), m);
      && (if mine then OwnAnswer(n, p, m, out) else p.seqno == n.seqno)
      && (Answers(n, p, m) ==> TableAnswer(p, m, out))
      && (PassesOn(n, p, m) ==> NextCopy(p, m, out))
      && (!mine && !Answers(n, p, m) && !PassesOn(n, p, m) ==> out == [])
  {
    BetweenGood(s, r, m);
    OwnAnswered(s.nodes[r], m);
    TableAnswered(s, r, m);
    CopyPassed(s, r, m);
    SilentOtherwise(s, r, m);
  }

  // The destination answers with a number of its own that is as large as asked for.
  ghost predicate OwnAnswer(n: Node, p: Node, m: Msg, out: seq<Msg>)
    requires m.Rreq?
  {
    && out == [Rrep(n.index, p.seqno, 0, m.sender, m.bcastId, m.src, 30, n.index, m.sender)]
    && p.seqno >= n.seqno && p.seqno >= m.dstSeqno && p.seqno % 2 == 0
    && if n.seqno >= m.dstSeqno then p.seqno <= n.seqno + 1 else m.dstSeqno < p.seqno <= m.dstSeqno + 2
  }

  lemma {:induction false} OwnAnswerIs(n: Node, m: Msg)
    requires m.Rreq? && m.src != n.index && m.dst == n.index && !ReversePath(n, Get(n.table, m.src), m).drop
    ensures OwnAnswer(n, RecvRequest(n, m).0, m, RecvRequest(n, m).1)
  {
    hide ReversePath;
  }

  // Which requests an agent remembers, and which it has answered.
  lemma {:induction false} RequestRemembered(s: Net, r: Addr, m: Msg)
    requires Inv(s) && r < |s.nodes| && m in s.msgs && m.Rreq? && m.src != r
    ensures var n := s.nodes[r];
      var p := RecvRequest(n, m).0;
      var key := (m.src, m.bcastId);
      && p.ids.Keys == n.ids.Keys + {key}
      && (forall k :: k in n.ids && k != key ==> p.ids[k] == n.ids[k])
      && p.ids[key] == if Answers(n, p, m) then 1 else if key in n.ids then n.ids[key] else 0
  {
    BetweenGood(s, r, m);
    hide Inv;
    IdsKept(s.nodes[r], m);
  }

  lemma {:induction false} IdsKept(n: Node, m: Msg)
    requires m.Rreq? && m.src != n.index && PairwiseDisjoint(Get(n.table, m.src).paths)
    ensures var p := RecvRequest(n, m).0;
      var key := (m.src, m.bcastId);
      && p.ids.Keys == n.ids.Keys + {key}
      && (forall k :: k in n.ids && k != key ==> p.ids[k] == n.ids[k])
      && p.ids[key] == if Answers(n, p, m) then 1 else if key in n.ids then n.ids[key] else 0
  {
    RequestTable(n, m, m.dst);
    AdvertiseKeeps(Get(Between(n, m), m.dst));
    ReverseLearnt(n, Get(n.table, m.src), m);
    hide ReversePath, Get, Advertise, Discarded, Taken, Learnt, PairwiseDisjoint, FirstLasthop, AdvHops, NextOwnSeqno;
  }

  // An agent's own request changes nothing.
  lemma {:induction false} OwnIgnored(n: Node, m: Msg)
    requires m.Rreq? && m.src == n.index
    ensures RecvRequest(n, m) == (n, [])
  {}

  // ---------- route replies ----------

  ghost function ForwardOffer(m: Msg): Offer
    requires m.Rrep?
  {
    Offer(m.dstSeqno, m.hopCount, m.sender, m.firstHop)
  }

  lemma {:induction false} ForwardLearnt(n: Node, e: Entry, m: Msg)
    requires m.Rrep?
    ensures var (f, ok) := ForwardPath(n, e, m);
      && Learnt(n, e, ForwardOffer(m), f) && f.advertised == After(e, ForwardOffer(m)) && f.error == e.error
      && (ok <==> Taken(n, e, ForwardOffer(m)))
  {
    var o := ForwardOffer(m);
    TooLongIs(n, o.hops + 1, e.paths);
    hide MinCount, TooLong, NotMuchLonger;
  }

  // The reply is passed on: it taught or confirmed a path, there is a way to the agent it
  // is for, and no answer to that agent's request has been passed on before.
  ghost predicate Relays(n: Node, p: Node, m: Msg)
    requires m.Rrep?
  {
    && m.dst != n.index && Taken(n, Get(n.table, m.dst), ForwardOffer(m))
    && m.target != n.index && Get(p.table, m.target).flags == Up
    && (m.target, m.bcastId) in n.ids && n.ids[(m.target, m.bcastId)] == 0
  }

  // A reply about the agent itself changes nothing.
  lemma {:induction false} OwnReplyIgnored(n: Node, m: Msg)
    requires m.Rrep? && m.dst == n.index
    ensures RecvReply(n, m) == (n, [])
  {}

  lemma {:induction false} ReplyTable(n: Node, m: Msg, d: Addr)
    requires m.Rrep? && m.dst != n.index
    ensures var p := RecvReply(n, m).0;
      var f := ForwardPath(n, Get(n.table, m.dst), m).0;
      && p.index == n.index && p.bid == n.bid && p.seqno == n.seqno
      && p.ids == (if Relays(n, p, m) then n.ids[(m.target, m.bcastId) := 1] else n.ids)
      && Get(p.table, d) == if d != m.dst then Get(n.table, d) else if Relays(n, p, m) then Advertise(f).(error := true) else f
  {
    ForwardLearnt(n, Get(n.table, m.dst), m);
    AdvertiseKeeps(ForwardPath(n, Get(n.table, m.dst), m).0);
    hide ForwardPath, Taken, Learnt, Advertise;
  }

  lemma {:induction false} ForwardGood(s: Net, r: Addr, m: Msg)
    requires Inv(s) && r < |s.nodes| && m in s.msgs && m.Rrep?
    ensures var n := s.nodes[r];
      var f := ForwardPath(n, Get(n.table, m.dst), m).0;
      n.index == r && EntryOk(f) && (Taken(n, Get(n.table, m.dst), ForwardOffer(m)) ==> f.flags == Up)
  {
    var n := s.nodes[r];
    assert NodeOk(s, r, n) && MsgOk(s, m);
    GetGood(s.msgs, n.table, m.dst);
    HeardNow(s.msgs, m);
    ForwardPathGood(s.msgs, n, Get(n.table, m.dst), m);
    ForwardLearnt(n, Get(n.table, m.dst), m);
    hide ForwardPath, Taken;
  }

  // The paths after a reply: its destination may gain the path that the reply came, or
  // lose all older ones to it; all others stay.
  lemma {:induction false} ReplyPaths(s: Net, r: Addr, m: Msg, d: Addr)
    requires Inv(s) && r < |s.nodes| && m in s.msgs && m.Rrep? && m.dst != r
    ensures var n := s.nodes[r];
      var p := RecvReply(n, m).0;
      var e, f := Get(n.table, d), Get(p.table, d);
      if d == m.dst then
        && Learnt(n, e, ForwardOffer(m), f) && Count(After(e, ForwardOffer(m)), f, Relays(n, p, m))
        && f.error == (e.error || Relays(n, p, m))
      else f == e
  {
    var n := s.nodes[r];
    ForwardGood(s, r, m);
    ReplyTable(n, m, d);
    ForwardLearnt(n, Get(n.table, m.dst), m);
    var f := ForwardPath(n, Get(n.table, m.dst), m).0;
    if f.flags == Up { AdvertiseIs(f); }
    hide Inv, RecvReply, ForwardPath, Get, Advertise, Taken, EntryOk, Room, Longest, Current;
  }

  // A reply that is passed on goes along the first path that the agent stores to its
  // target, with the count that it now advertises.
  ghost predicate NextReply(p: Node, m: Msg, out: seq<Msg>)
    requires m.Rrep?
  {
    var rt, back := Get(p.table, m.dst), Get(p.table, m.target).paths;
    && rt.advertised.Finite? && rt.paths != [] && back != []
    && out == if m.ttl == 1 then [] else
         [Rrep(m.dst, m.dstSeqno, rt.advertised.n, rt.paths[0].lasthop, m.bcastId, m.target, m.ttl - 1, p.index, back[0].nexthop)]
  }

  lemma {:induction false} RelayIs(n: Node, m: Msg)
    requires m.Rrep? && m.dst != n.index && EntryOk(Get(n.table, m.target))
    requires var f := ForwardPath(n, Get(n.table, m.dst), m).0;
      EntryOk(f) && (Taken(n, Get(n.table, m.dst), ForwardOffer(m)) ==> f.flags == Up)
    ensures var (p, out) := RecvReply(n, m); if Relays(n, p, m) then NextReply(p, m, out) else out == []
  {
    ReplyTable(n, m, m.dst);
    ReplyTable(n, m, m.target);
    ForwardLearnt(n, Get(n.table, m.dst), m);
    var f := ForwardPath(n, Get(n.table, m.dst), m).0;
    if f.flags == Up { AdvertiseIs(f); }
    hide ForwardPath, Get, Advertise, Taken, Learnt, Longest;
  }

  // Where a reply goes: it is passed on exactly if it taught or confirmed a path and is
  // due, and the request it answers then counts as answered.
  lemma {:induction false} ReplyRelayed(s: Net, r: Addr, m: Msg)
    requires Inv(s) && r < |s.nodes| && m in s.msgs && m.Rrep? && m.dst != r
    ensures var n := s.nodes[r];
      var (p, out) := RecvReply(n, m);
      && p.index == r && p.seqno == n.seqno && p.bid == n.bid
      && if Relays(n, p, m) then NextReply(p, m, out) && p.ids == n.ids[(m.target, m.bcastId) := 1] else p.ids == n.ids && out == []
  {
    ForwardGood(s, r, m);
    UpHasPaths(s, r, m.target);
    hide Inv;
    RelayIs(s.nodes[r], m);
    ReplyTable(s.nodes[r], m, m.dst);
    hide RecvReply, NextReply, Relays;
  }

  lemma {:induction false} UpHasPaths(s: Net, r: Addr, d: Addr)
    requires Inv(s) && r < |s.nodes|
    ensures var e := Get(s.nodes[r].table, d); EntryOk(e) && (e.flags == Up <==> e.paths != [])
  {
    assert NodeOk(s, r, s.nodes[r]);
  }

  // So the agent that the reply goes to is on the way to its target.
  lemma {:induction false} RelayedTowards(s: Net, r: Addr, m: Msg)
    requires Inv(s) && r < |s.nodes| && m in s.msgs && m.Rrep? && m.dst != r && m.target != m.dst
    ensures var out := RecvReply(s.nodes[r], m).1;
      out != [] ==> out[0].Rrep? && Through(Get(s.nodes[r].table, m.target).paths, out[0].nexthop)
  {
    ReplyRelayed(s, r, m);
    ReplyPaths(s, r, m, m.target);
    var back := Get(s.nodes[r].table, m.target).paths;
    hide Inv, RecvReply, Get;
    if back != [] { assert back[0] in back; }
  }

  // ---------- errors and lost neighbours ----------

  // `rest` is `paths` without one path through `id`.
  ghost predicate WithoutOne(paths: seq<Path>, rest: seq<Path>, id: Addr) {
    exists k :: 0 <= k < |paths| && paths[k].nexthop == id && rest == paths[..k] + paths[k + 1..]
  }

  lemma {:induction false} DeleteOne(paths: seq<Path>, id: Addr)
    requires Through(paths, id)
    ensures WithoutOne(paths, DeleteFirst(paths, id), id)
  {
    var k := DeleteAt(paths, id);
  }

  lemma {:induction false} DeleteAt(paths: seq<Path>, id: Addr) returns (k: nat)
    requires Through(paths, id)
    ensures k < |paths| && paths[k].nexthop == id && DeleteFirst(paths, id) == paths[..k] + paths[k + 1..]
  {
    if paths[0].nexthop == id {
      k := 0;
    } else {
      var q :| q in paths && q.nexthop == id;
      assert q in paths[1..];
      var i := DeleteAt(paths[1..], id);
      k := i + 1;
      Shifted(paths, i);
    }
  }

  lemma {:induction false} Shifted(paths: seq<Path>, i: nat)
    requires i + 1 < |paths|
    ensures [paths[0]] + (paths[1..][..i] + paths[1..][i + 1..]) == paths[..i + 1] + paths[i + 2..]
  {}

  // The route loses its path through `id`: with others left it stays as it was, the last
  // one takes it down with the number `last`.
  ghost predicate Loses(e: Entry, f: Entry, id: Addr, last: nat) {
    && f.dst == e.dst && WithoutOne(e.paths, f.paths, id)
    && if |e.paths| > 1 then f.flags == e.flags && f.seqno == e.seqno && f.advertised == e.advertised && f.error == e.error
       else f.flags == Down && f.seqno == last && f.advertised.Infinity? && !f.error
  }

  ghost predicate OnRoute(e: Entry, id: Addr) {
    e.flags == Up && exists q :: q in e.paths && q.nexthop == id
  }

  // Item `d` of an error hits the route.
  ghost predicate ErrorOn(e: Entry, m: Msg)
    requires m.Rerr?
  {
    OnRoute(e, m.sender) && e.dst in m.unreachable && e.seqno <= m.unreachable[e.dst]
  }

  ghost function Larger(a: nat, b: nat): nat { if a > b then a else b }

  lemma {:induction false} ErrorEntryIs(e: Entry, from: Addr, x: nat)
    requires EntryOk(e) && e.flags == Up && Through(e.paths, from) && e.seqno <= x
    ensures var f := ErrorEntry(e, from, x);
      Loses(e, f, from, f.highestHeard) && f.highestHeard == Larger(e.highestHeard, x)
    ensures ErrorReport(e, from, x) <==> e.error && |e.paths| == 1
  {
    DeleteOne(e.paths, from);
    DeleteAll(e.paths, from);
  }

  // The routes after an error: those it hits lose their path through the sender and
  // remember the number; all others stay.
  lemma {:induction false} ErrorPaths(s: Net, r: Addr, m: Msg, d: Addr)
    requires Inv(s) && r < |s.nodes| && m.Rerr?
    ensures var e, f := Get(s.nodes[r].table, d), Get(RecvError(s.nodes[r], m).0.table, d);
      if ErrorOn(e, m) then
        Loses(e, f, m.sender, f.highestHeard) && f.highestHeard == Larger(e.highestHeard, m.unreachable[d])
      else f == e
  {
    var n := s.nodes[r];
    assert NodeOk(s, r, n);
    if d in n.table && d in m.unreachable && ErrorHits(n.table[d], m.sender, m.unreachable[d]) {
      assert EntryOk(n.table[d]) && n.table[d].dst == d;
      ErrorEntryIs(n.table[d], m.sender, m.unreachable[d]);
      hide ErrorEntry, Loses;
    }
  }

  // The routes that the error takes down and that others have been told of.
  ghost predicate ErrorToTell(e: Entry, m: Msg)
    requires m.Rerr?
  {
    ErrorOn(e, m) && e.error && |e.paths| == 1
  }

  // An error is passed on exactly if some such route went down, and names just these.
  lemma {:induction false} ErrorPassedOn(s: Net, r: Addr, m: Msg)
    requires Inv(s) && r < |s.nodes| && m.Rerr?
    ensures var n := s.nodes[r];
      var (p, out) := RecvError(n, m);
      && p.index == n.index && p.seqno == n.seqno && p.bid == n.bid && p.ids == n.ids
      && (if exists d: Addr :: ErrorToTell(Get(n.table, d), m) then |out| == 1 && out[0].Rerr? && out[0].sender == r else out == [])
      && (out != [] ==> forall d: Addr ::
            && (d in out[0].unreachable <==> ErrorToTell(Get(n.table, d), m))
            && (d in out[0].unreachable ==> out[0].unreachable[d] == Larger(Get(n.table, d).highestHeard, m.unreachable[d])))
  {
    var n := s.nodes[r];
    assert NodeOk(s, r, n);
    var dests := ErrorDests(n, m);
    forall d: Addr
      ensures d in dests <==> ErrorToTell(Get(n.table, d), m)
      ensures d in dests ==> dests[d] == Larger(Get(n.table, d).highestHeard, m.unreachable[d])
    {
      ErrorTold(n, m, d);
    }
    if d: Addr :| ErrorToTell(Get(n.table, d), m) { assert d in dests; }
    if dests != map[] {
      var d :| d in dests;
      assert ErrorToTell(Get(n.table, d), m);
    }
    hide Get, ErrorToTell, ErrorDests;
  }

  lemma {:induction false} ErrorTold(n: Node, m: Msg, d: Addr)
    requires EntriesOk(n.table) && m.Rerr?
    ensures d in ErrorDests(n, m) <==> ErrorToTell(Get(n.table, d), m)
    ensures d in ErrorDests(n, m) ==> ErrorDests(n, m)[d] == Larger(Get(n.table, d).highestHeard, m.unreachable[d])
  {
    if d in n.table && d in m.unreachable && ErrorHits(n.table[d], m.sender, m.unreachable[d]) {
      assert EntryOk(n.table[d]) && n.table[d].dst == d;
      ErrorEntryIs(n.table[d], m.sender, m.unreachable[d]);
    }
    hide ErrorEntry;
  }

  lemma {:induction false} BrokenEntryIs(e: Entry, id: Addr)
    requires EntryOk(e) && e.flags == Up && Through(e.paths, id)
    ensures var f := BrokenEntry(e, id);
      Loses(e, f, id, Larger(e.seqno + 1, e.highestHeard)) && f.highestHeard == e.highestHeard
    ensures BrokenReport(e, id) <==> e.error && |e.paths| == 1
  {
    DeleteOne(e.paths, id);
    DeleteAll(e.paths, id);
  }

  // The routes after the loss of neighbour `id`: those through it lose that path; all
  // others stay.
  lemma {:induction false} LossPaths(s: Net, r: Addr, id: Addr, d: Addr)
    requires Inv(s) && r < |s.nodes|
    ensures var e, f := Get(s.nodes[r].table, d), Get(LinkFailure(s.nodes[r], id).0.table, d);
      if OnRoute(e, id) then Loses(e, f, id, Larger(e.seqno + 1, e.highestHeard)) && f.highestHeard == e.highestHeard
      else f == e
  {
    var n := s.nodes[r];
    assert NodeOk(s, r, n);
    if d in n.table && Uses(n.table[d], id) {
      assert EntryOk(n.table[d]);
      BrokenEntryIs(n.table[d], id);
      hide BrokenEntry, Loses;
    }
  }

  ghost predicate LossToTell(e: Entry, id: Addr) { OnRoute(e, id) && e.error && |e.paths| == 1 }

  // The loss is reported exactly if it took down a route that others have been told of,
  // and the error names just these, with their new numbers.
  lemma {:induction false} LossReported(s: Net, r: Addr, id: Addr)
    requires Inv(s) && r < |s.nodes|
    ensures var n := s.nodes[r];
      var (p, out) := LinkFailure(n, id);
      && p.index == n.index && p.seqno == n.seqno + 2 && p.bid == n.bid && p.ids == n.ids
      && (if exists d: Addr :: LossToTell(Get(n.table, d), id) then |out| == 1 && out[0].Rerr? && out[0].sender == r else out == [])
      && (out != [] ==> forall d: Addr ::
            && (d in out[0].unreachable <==> LossToTell(Get(n.table, d), id))
            && (d in out[0].unreachable ==>
                  out[0].unreachable[d] == Get(p.table, d).seqno == Larger(Get(n.table, d).seqno + 1, Get(n.table, d).highestHeard)))
  {
    var n := s.nodes[r];
    assert NodeOk(s, r, n);
    var dests := BrokenDests(n, id);
    forall d: Addr
      ensures d in dests <==> LossToTell(Get(n.table, d), id)
      ensures d in dests ==> dests[d] == Get(LinkFailure(n, id).0.table, d).seqno == Larger(Get(n.table, d).seqno + 1, Get(n.table, d).highestHeard)
    {
      LossTold(n, id, d);
    }
    if d: Addr :| LossToTell(Get(n.table, d), id) { assert d in dests; }
    if dests != map[] {
      var d :| d in dests;
      assert LossToTell(Get(n.table, d), id);
    }
    hide Get, LossToTell, BrokenDests, BrokenTable;
  }

  lemma {:induction false} LossTold(n: Node, id: Addr, d: Addr)
    requires EntriesOk(n.table)
    ensures d in BrokenDests(n, id) <==> LossToTell(Get(n.table, d), id)
    ensures d in BrokenDests(n, id) ==>
      BrokenDests(n, id)[d] == Get(BrokenTable(n, id), d).seqno == Larger(Get(n.table, d).seqno + 1, Get(n.table, d).highestHeard)
  {
    if d in n.table && Uses(n.table[d], id) {
      assert EntryOk(n.table[d]);
      BrokenEntryIs(n.table[d], id);
    }
    hide BrokenEntry;
  }

  // Agent `u` has a path for `d` through `r`, whose last path to `d` goes through `id`.
  // If `r` loses `id` and has told others of the route, it sends an error, and once `u`
  // has received that it has no path for `d` through `r`.
  lemma {:induction false} BreakReaches(s: Net, u: Addr, r: Addr, id: Addr, d: Addr)
    requires Inv(s) && u != r && r != d && Edge(s, u, r, d) && LossToTell(Get(s.nodes[r].table, d), id)
    ensures var out := LinkFailure(s.nodes[r], id).1;
      |out| == 1 && out[0].Rerr? && !Through(Get(RecvError(s.nodes[u], out[0]).0.table, d).paths, r)
  {
    LossReported(s, r, id);
    var m := LinkFailure(s.nodes[r], id).1[0];
    var e, f := Get(s.nodes[u].table, d), Get(RecvError(s.nodes[u], m).0.table, d);
    EdgeCloser(s, u, r, d);
    UpHasPaths(s, u, d);
    assert e.dst == d by { DstIs(s, u, d); }
    assert ErrorOn(e, m);
    ErrorPaths(s, u, m, d);
    hide Inv, LinkFailure, RecvError, Get;
    OnlyOne(e.paths, f.paths, r);
  }

  lemma {:induction false} DstIs(s: Net, r: Addr, d: Addr)
    requires Inv(s) && r < |s.nodes|
    ensures Get(s.nodes[r].table, d).dst == d
  {
    assert NodeOk(s, r, s.nodes[r]);
  }

  lemma {:induction false} OnlyOne(paths: seq<Path>, rest: seq<Path>, id: Addr)
    requires PairwiseDisjoint(paths) && WithoutOne(paths, rest, id)
    ensures !Through(rest, id)
  {
    var k :| 0 <= k < |paths| && paths[k].nexthop == id && rest == paths[..k] + paths[k + 1..];
    OthersElse(paths, k);
  }

  lemma {:induction false} OthersElse(paths: seq<Path>, k: nat)
    requires PairwiseDisjoint(paths) && k < |paths|
    ensures !Through(paths[..k] + paths[k + 1..], paths[k].nexthop)
  {
    forall q | q in paths[..k] || q in paths[k + 1..] ensures q.nexthop != paths[k].nexthop {
      if q in paths[..k] {
        var i :| 0 <= i < k && paths[..k][i] == q;
        assert paths[i] == q;
      } else {
        var i :| 0 <= i < |paths[k + 1..]| && paths[k + 1..][i] == q;
        assert paths[k + 1 + i] == q;
      }
    }
  }

  // ---------- expired paths ----------

  // The paths that have not expired, in order.
  ghost function Unexpired(paths: seq<Path>, d: Addr, expired: set<(Addr, Addr)>): seq<Path> {
    if paths == [] then []
    else if (d, paths[0].nexthop) in expired then Unexpired(paths[1..], d, expired)
    else [paths[0]] + Unexpired(paths[1..], d, expired)
  }

  lemma {:induction false} UnexpiredLast(paths: seq<Path>, x: Path, d: Addr, expired: set<(Addr, Addr)>)
    ensures Unexpired(paths + [x], d, expired) == Unexpired(paths, d, expired) + if (d, x.nexthop) in expired then [] else [x]
  {
    if paths == [] {
      assert paths + [x] == [x] && [x][1..] == [];
    } else {
      assert (paths + [x])[1..] == paths[1..] + [x];
      UnexpiredLast(paths[1..], x, d, expired);
    }
  }

  lemma {:induction false} PurgeLeaves(paths: seq<Path>, d: Addr, expired: set<(Addr, Addr)>)
    ensures Purge(paths, Expired(expired, d)) == Unexpired(paths, d, expired)
  {
    if paths != [] {
      var k := |paths| - 1;
      PurgeLeaves(paths[..k], d, expired);
      UnexpiredLast(paths[..k], paths[k], d, expired);
      assert paths[..k] + [paths[k]] == paths;
      assert paths[k].nexthop in Expired(expired, d) <==> (d, paths[k].nexthop) in expired by {
        if (d, paths[k].nexthop) in expired { assert (d, paths[k].nexthop).1 in Expired(expired, d); }
      }
    }
  }

  // The routes after the purge: one that is up keeps its unexpired paths, or goes down
  // with a new number if there are none; all others stay.
  lemma {:induction false} PurgePaths(s: Net, r: Addr, now: real, expired: set<(Addr, Addr)>, d: Addr)
    requires Inv(s) && r < |s.nodes|
    ensures var n := s.nodes[r];
      var (p, out) := RtPurge(n, now, expired);
      var e, f := Get(n.table, d), Get(p.table, d);
      var left := Unexpired(e.paths, d, expired);
      && p.index == n.index && p.seqno == n.seqno && p.bid == n.bid && p.ids == n.ids && out == []
      && if e.flags != Up || now <= 0.0 then f == e
         else
           && f.dst == e.dst && f.paths == left && f.highestHeard == e.highestHeard && f.error == e.error
           && if left != [] then f.flags == Up && f.seqno == e.seqno && f.advertised == e.advertised
              else f.flags == Down && f.seqno == Larger(e.seqno + 1, e.highestHeard) && f.advertised.Infinity?
  {
    var n := s.nodes[r];
    assert NodeOk(s, r, n);
    UpHasPaths(s, r, d);
    var e := Get(n.table, d);
    PurgeLeaves(e.paths, d, expired);
    PurgedEntryIs(e, Expired(expired, d));
    hide Inv, NodeOk, EntryOk, Purge, Unexpired, Expired, PurgedEntry;
  }

  lemma {:induction false} PurgedEntryIs(e: Entry, gone: set<Addr>)
    requires EntryOk(e)
    ensures var f := PurgedEntry(e, gone);
      if e.flags != Up then f == e
      else
        && f.dst == e.dst && f.highestHeard == e.highestHeard && f.error == e.error && f.paths == Purge(e.paths, gone)
        && if f.paths != [] then f.flags == Up && f.seqno == e.seqno && f.advertised == e.advertised
           else f.flags == Down && f.seqno == Larger(e.seqno + 1, e.highestHeard) && f.advertised.Infinity?
  {
    hide Purge;
  }

  // ---------- sending ----------

  // No lookup changes.
  ghost predicate SameTable(t: map<Addr, Entry>, u: map<Addr, Entry>) {
    forall c: Addr :: Get(u, c) == Get(t, c)
  }

  // A search is sent exactly if the route is not up, with a new number and a new id.
  lemma {:induction false} RequestSent(n: Node, d: Addr, ttl: nat)
    ensures var (p, out) := SendRequest(n, d, ttl);
      && p.index == n.index && p.ids == n.ids && SameTable(n.table, p.table)
      && if Get(n.table, d).flags == Up then p.seqno == n.seqno && p.bid == n.bid && out == []
         else p.seqno == n.seqno + 2 && p.bid == n.bid + 1
              && out == [Rreq(n.index, p.seqno, d, Get(n.table, d).seqno, n.bid, 0, 0, ttl, n.index)]
  {}

  // A data packet that is forwarded or salvaged marks the route, if it is up, as one of
  // which others must be told when it breaks.
  lemma {:induction false} ForwardMarks(n: Node, d: Addr, c: Addr)
    ensures var (p, out) := ForwardData(n, d);
      && out == [] && p == n.(table := p.table)
      && Get(p.table, c) == if c == d && Get(n.table, d).flags == Up then Get(n.table, c).(error := true) else Get(n.table, c)
  {}

  // A packet without a route: reported exactly if the route is down.
  lemma {:induction false} Unreached(n: Node, d: Addr)
    ensures var (p, out) := NoRoute(n, d);
      && p == n.(table := p.table) && SameTable(n.table, p.table)
      && out == if Get(n.table, d).flags == Down then [Rerr(map[d := Get(n.table, d).seqno], n.index)] else []
  {}

  // A beacon is sent exactly by an agent with some route.
  lemma {:induction false} Beacons(n: Node)
    ensures SayHello(n) == (n, if exists d: Addr :: Get(n.table, d).flags == Up then [Hello(n.index, n.seqno)] else [])
  {
    if d: Addr :| Get(n.table, d).flags == Up { assert d in n.table; }
    if d :| d in n.table && n.table[d].flags == Up { assert Get(n.table, d).flags == Up; }
  }

  // Exactly the ids whose time is over are forgotten; the others keep their counts.
  lemma {:induction false} IdsForgotten(n: Node, gone: set<(Addr, nat)>, b: (Addr, nat))
    ensures var (p, out) := IdPurge(n, gone);
      && out == [] && p == n.(ids := p.ids)
      && (b in p.ids <==> b in n.ids && b !in gone) && (b in p.ids ==> p.ids[b] == n.ids[b])
  {}

  // The paths after a beacon: its sender is one hop away; nothing is sent.
  lemma {:induction false} HelloPaths(s: Net, r: Addr, m: Msg, d: Addr)
    requires Inv(s) && r < |s.nodes| && m in s.msgs && m.Hello? && m.origin != r
    ensures var n := s.nodes[r];
      var (p, out) := RecvHello(n, m);
      var e, f, o := Get(n.table, d), Get(p.table, d), Offer(m.originSeqno, 0, m.origin, r);
      && out == [] && p == n.(table := p.table)
      && if d == m.origin then Learnt(n, e, o, f) && f.advertised == After(e, o) && f.error == e.error else f == e
  {
    var n := s.nodes[r];
    var k := Rrep(m.origin, m.originSeqno, 0, r, 0, r, 0, m.origin, r);
    assert NodeOk(s, r, n);
    ReplyTable(n, k, d);
    ForwardLearnt(n, Get(n.table, m.origin), k);
    hide Inv, ForwardPath, Get, Learnt, Taken;
  }
}
