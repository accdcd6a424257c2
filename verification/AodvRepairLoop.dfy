// Local repair as it stands: a failed repair (LocalRepairTimer::handle, with the
// increment of the sequence number commented out) makes a forwarding loop reachable,
// and a reply that meets a route in repair aborts the agent.
module AodvRepairLoop {
  import opened AodvRoute
  import opened AodvAgent
  import opened AodvNetwork
  import opened AodvSafety

  // Four agents in a row: D = 0 looks for C = 3 through B = 1 and A = 2.
  const D: Addr := 0
  const B: Addr := 1
  const A: Addr := 2
  const C: Addr := 3

  const Flood: Msg := Rreq(D, 4, C, 0, 1, 1, 30, D)
  const FloodAtB: Msg := Rreq(D, 4, C, 0, 1, 2, 29, B)
  const FloodAtA: Msg := Rreq(D, 4, C, 0, 1, 3, 28, A)
  const Answer: Msg := Rrep(C, 4, 1, D, 30, C, A)
  const AnswerAtA: Msg := Rrep(C, 4, 2, D, 29, A, B)
  const RepairRequest: Msg := Rreq(B, 4, D, 4, 1, 1, 30, B)
  const StaleReply: Msg := Rrep(D, 4, 3, B, 30, A, B)

  const B1: Node := Node(B, 2, 1, [Entry(D, 4, Finite(1), 255, D, Up, [], 0.0, 0, 0)], {(D, 1)})
  const A1: Node := Node(A, 2, 1, [Entry(D, 4, Finite(2), 255, B, Up, [], 0.0, 0, 0)], {(D, 1)})
  const C1: Node := Node(C, 4, 1, [Entry(D, 4, Finite(3), 255, A, Up, [], 0.0, 0, 0)], {(D, 1)})
  const B2: Node := Node(B, 4, 2, [Entry(D, 4, Finite(1), 255, D, InRepair, [], 10.0, 1, 30)], {(D, 1)})
  const B3: Node := Node(B, 4, 2, [Entry(D, 4, Infinity, 1, 0, Down, [], 10.0, 1, 30)], {(D, 1)})
  const B4: Node := Node(B, 4, 2, [Entry(D, 4, Finite(3), 1, A, Up, [], 0.0, 0, 3)], {(D, 1)})

  // The request reaches C; a packet that C sends to D reaches B, whose link to D is
  // broken; the repair fails; A, asked by B, answers with its route through B.
  ghost function Story(): seq<Event> {
    [
      Discover(D, C, 0.0, 1.0),
      Deliver(B, Flood),
      Deliver(A, FloodAtB),
      Deliver(C, FloodAtA),
      Repair(B, D, 0.0, 1.0, 2),
      RepairFails(B, D),
      Deliver(A, RepairRequest),
      Deliver(B, StaleReply)
    ]
  }

  // A packet for `d` forwarded along `p` has been forwarded |p| - 1 times.
  ghost predicate Carries(s: Net, p: seq<Addr>, d: Addr) {
    forall k :: 0 <= k < |p| - 1 ==> NextHop(s, p[k], p[k + 1], d)
  }

  lemma {:induction false} PutOne(e: Entry, f: Entry)
    requires e.dst == f.dst
    ensures Put([], f) == [f] && Put([e], f) == [f] && Get([e], e.dst) == e
  {}

  lemma {:induction false} FloodSteps()
    ensures Handle(NewNode(D), Story()[0]).1 == [Flood]
    ensures Handle(NewNode(B), Story()[1]) == (B1, [FloodAtB])
    ensures Handle(NewNode(A), Story()[2]) == (A1, [FloodAtA])
    ensures Handle(NewNode(C), Story()[3]) == (C1, [Answer])
  {
    assert {} + {(D, 1)} == {(D, 1)};
    PutOne(B1.table[0], B1.table[0]);
    PutOne(A1.table[0], A1.table[0]);
    PutOne(C1.table[0], C1.table[0]);
    assert Reversed(Fresh(D), Flood) == B1.table[0];
    assert Reversed(Fresh(D), FloodAtB) == A1.table[0];
    assert Reversed(Fresh(D), FloodAtA) == C1.table[0];
  }

  lemma {:induction false} RepairSteps()
    ensures Handle(B1, Story()[4]) == (B2, [RepairRequest])
    ensures Handle(B2, Story()[5]) == (B3, [])
  {
    var e := B1.table[0].(flags := InRepair);
    PutOne(B1.table[0], e);
    PutOne(e, B2.table[0]);
    assert RequestEntry(e, 0.0, 1.0) == (B2.table[0], Sent(30));
    PutOne(B2.table[0], B3.table[0]);
  }

  lemma {:induction false} ReplySteps()
    ensures Handle(A1, Story()[6]).1 == [StaleReply]
    ensures Get(Handle(A1, Story()[6]).0.table, D).hops == Finite(2)
    ensures Get(Handle(A1, Story()[6]).0.table, D).nexthop == B
    ensures Handle(B3, Story()[7]) == (B4, [])
  {
    var e := A1.table[0];
    PutOne(e, e);
    assert Find(A1.table, B) == 1 && Get(A1.table, B) == Fresh(B);
    hide Put, Get, Find;
    var rt0 := Reversed(Get(A1.table, B), RepairRequest);
    GetPut(A1.table, rt0, D);
    GetPut(A1.table, rt0, B);
    var t := Put(A1.table, rt0);
    assert Get(t, D) == e && Get(t, B) == rt0;
    var e1 := PcInsert(e, rt0.nexthop);
    GetPut(t, e1, D);
    GetPut(t, e1, B);
    GetPut(Put(t, e1), PcInsert(rt0, e.nexthop), D);
    PutOne(B3.table[0], B4.table[0]);
  }

  // No assertion fails along the way.
  lemma {:induction false} StoryAsserts()
    ensures AssertsHold(NewNode(D), Story()[0]) && AssertsHold(NewNode(B), Story()[1])
    ensures AssertsHold(NewNode(A), Story()[2]) && AssertsHold(NewNode(C), Story()[3])
    ensures AssertsHold(B1, Story()[4]) && AssertsHold(B2, Story()[5])
    ensures AssertsHold(A1, Story()[6]) && AssertsHold(B3, Story()[7])
  {
    hide Put, Find;
    GetPut(B3.table, Update(Get(B3.table, D), 4, 3, A), B);
  }

  lemma {:induction false} Next(s: Net, k: nat)
    requires k < 8 && Enabled(s, Story()[k]) && Legal(Apply(s, Story()[k]), Story()[k + 1..])
    ensures Legal(s, Story()[k..]) && Run(s, Story()[k..]) == Run(Apply(s, Story()[k]), Story()[k + 1..])
  {}

  // The rest of the story from step `k` on is possible and ends in a loop.
  ghost predicate EndsInLoop(s: Net, k: nat)
    requires k <= 8
  {
    Legal(s, Story()[k..]) && Cycle(Run(s, Story()[k..]), [B, A, B], D)
  }

  lemma {:induction false} FromReply(s: Net)
    requires |s.nodes| == 4 && s.nodes[B] == B3 && StaleReply in s.msgs && AssertsHold(B3, Story()[7])
    requires Handle(B3, Story()[7]) == (B4, [])
    requires Get(s.nodes[A].table, D).hops == Finite(2) && Get(s.nodes[A].table, D).nexthop == B
    ensures EndsInLoop(s, 7)
  {
    hide Handle, AssertsHold;
    var t := Apply(s, Story()[7]);
    assert Get(B4.table, D) == B4.table[0];
    hide Get;
    assert t.nodes[B] == B4 && t.nodes[A] == s.nodes[A];
    assert Story()[8..] == [];
    Next(s, 7);
  }

  lemma {:induction false} FromRepair(s: Net)
    requires |s.nodes| == 4 && s.nodes[B] == B1 && s.nodes[A] == A1
    ensures EndsInLoop(s, 4)
  {
    hide Handle, AssertsHold, Cycle;
    StoryAsserts();
    RepairSteps();
    ReplySteps();
    var t := Apply(s, Story()[4]);
    var u := Apply(t, Story()[5]);
    var v := Apply(u, Story()[6]);
    assert RepairRequest in [RepairRequest] && StaleReply in [StaleReply];
    FromReply(v);
    Next(u, 6);
    Next(t, 5);
    Next(s, 4);
  }

  // The state in which the link of B to D is found broken.
  ghost predicate Ready(s: Net) {
    |s.nodes| == 4 && s.nodes[B] == B1 && s.nodes[A] == A1 && s.nodes[C] == C1 && Answer in s.msgs
  }

  lemma {:induction false} ToRepair() returns (s: Net)
    ensures Ready(s) && Carries(s, [C, A, B], D)
    ensures forall later: seq<Event> :: Legal(s, later) ==>
      Legal(Initial(4), Story()[..4] + later) && Run(Initial(4), Story()[..4] + later) == Run(s, later)
  {
    hide Handle, AssertsHold, Cycle;
    StoryAsserts();
    FloodSteps();
    var s0 := Initial(4);
    var s1 := Apply(s0, Story()[0]);
    var s2 := Apply(s1, Story()[1]);
    var s3 := Apply(s2, Story()[2]);
    s := Apply(s3, Story()[3]);
    assert Flood in [Flood] && FloodAtB in [FloodAtB] && FloodAtA in [FloodAtA] && Answer in [Answer];
    assert Get(C1.table, D) == C1.table[0] && Get(A1.table, D) == A1.table[0];
    forall later: seq<Event> | Legal(s, later)
      ensures Legal(s0, Story()[..4] + later) && Run(s0, Story()[..4] + later) == Run(s, later)
    {
      Prepend(s3, Story()[3], later);
      Prepend(s2, Story()[2], [Story()[3]] + later);
      Prepend(s1, Story()[1], [Story()[2]] + ([Story()[3]] + later));
      Prepend(s0, Story()[0], [Story()[1]] + ([Story()[2]] + ([Story()[3]] + later)));
      assert Story()[..4] + later == [Story()[0]] + ([Story()[1]] + ([Story()[2]] + ([Story()[3]] + later)));
    }
  }

  lemma {:induction false} Prepend(s: Net, ev: Event, later: seq<Event>)
    requires Enabled(s, ev) && Legal(Apply(s, ev), later)
    ensures Legal(s, [ev] + later) && Run(s, [ev] + later) == Run(Apply(s, ev), later)
  {
    assert ([ev] + later)[1..] == later;
  }

  // The whole story, with a packet that has come from C through A as the one whose
  // loss starts the repair: it can happen, and B and A then forward to each other.
  lemma {:induction false} RepairLoop()
    ensures Legal(Initial(4), Story()) && Cycle(Run(Initial(4), Story()), [B, A, B], D)
    ensures Legal(Initial(4), Story()[..4]) && Carries(Run(Initial(4), Story()[..4]), [C, A, B], D)
    ensures Story()[4] == Repair(B, D, 0.0, 1.0, |[C, A, B]| - 1)
  {
    hide Handle, AssertsHold, Cycle, Carries;
    var s := ToRepair();
    FromRepair(s);
    assert Story()[..4] + Story()[4..] == Story();
    assert Story()[..4] + [] == Story()[..4];
    assert Legal(s, []);
  }

  // The same beginning, but the answer of C comes back while B repairs its route.
  ghost function Interrupted(): seq<Event> {
    Story()[..4] + [Deliver(A, Answer), Repair(B, D, 0.0, 1.0, 2)]
  }

  // The reply is for D, and the route to D is in repair: the assertion at line 918
  // fails, whatever the TTL of the reply.
  lemma {:induction false} RepairAborts()
    ensures Legal(Initial(4), Interrupted())
    ensures Possible(Run(Initial(4), Interrupted()), Deliver(B, AnswerAtA))
    ensures !AssertsHold(Run(Initial(4), Interrupted()).nodes[B], Deliver(B, AnswerAtA))
  {
    hide Handle, AssertsHold, Cycle, Carries;
    var s := ToRepair();
    StoryAsserts();
    RepairSteps();
    AnswerStep();
    var first, second := Deliver(A, Answer), Repair(B, D, 0.0, 1.0, 2);
    var t := Apply(s, first);
    var u := Apply(t, second);
    assert AnswerAtA in [AnswerAtA];
    assert Legal(u, []);
    Prepend(t, second, []);
    Prepend(s, first, [second] + []);
    assert [first] + ([second] + []) == [first, second];
  }

  lemma {:induction false} AnswerStep()
    ensures AssertsHold(A1, Deliver(A, Answer)) && Handle(A1, Deliver(A, Answer)).1 == [AnswerAtA]
    ensures !AssertsHold(B2, Deliver(B, AnswerAtA))
  {
    var e, f := A1.table[0], B2.table[0];
    assert Get(A1.table, D) == e && Get(A1.table, C) == Fresh(C);
    assert Get(B2.table, D) == f && Get(B2.table, C) == Fresh(C);
    hide Get, Put, Find;
    var u := Update(Fresh(C), 4, 1, C);
    GetPut(A1.table, u, D);
    GetPut(A1.table, u.(reqCnt := 0, reqTimeout := 0.0, reqLastTtl := 1), D);
    GetPut(B2.table, Update(Fresh(C), 4, 2, A), D);
  }
}
