// What the two ends of a file exchange send and when: retransmissions, the window, the
// acknowledgements, and an exchange in which the whole file arrives.
module ArqExchange {
  import opened Arq
  import opened ArqSafety

  ghost function Unacked(buffer: seq<Pack>, i: int, j: int): set<int> {
    set k | i <= k < j && 0 <= k < |buffer| && buffer[k].ackno == -1
  }

  ghost function Copies(p: Pack, n: nat): seq<Pack> { seq(n, _ => p) }

  lemma {:induction false} ResentIs(buffer: seq<Pack>, i: nat, next: nat)
    requires |buffer| == SLOTS && next < SLOTS
    ensures Resent(buffer, i, next) == Copies(buffer[next], |Unacked(buffer, i, next)|)
    decreases next - i
  {
    var u := Unacked(buffer, i, next);
    if i >= next {
      assert u == {};
    } else {
      ResentIs(buffer, i + 1, next);
      var v := Unacked(buffer, i + 1, next);
      assert u == if buffer[i].ackno == -1 then v + {i as int} else v;
    }
  }

  ghost function Later(a: int, b: int): int { if a > b then a else b }

  ghost function Earlier(a: int, b: int): int { if a < b then a else b }

  // The slots 0..m of the buffer are those in use.
  ghost predicate InUse(buffer: seq<Pack>, m: nat) {
    m < SLOTS == |buffer| && forall k :: 0 <= k < SLOTS ==> (buffer[k].sno == -1 <==> k >= m)
  }

  lemma {:induction false} BurstIs(n: Node, next: nat, m: nat)
    requires InUse(n.datato, m) && next <= m
    ensures var last := Later(next, Earlier(n.base + n.window, m));
      last <= m && Burst(n, next) == (n.datato[next..last], last)
    decreases m - next
  {
    var last := Later(next, Earlier(n.base + n.window, m));
    if next - n.base < n.window && n.datato[next].sno != -1 {
      BurstGoesOn(n, next);
      BurstIs(n, next + 1, m);
      assert n.datato[next..last] == [n.datato[next]] + n.datato[next + 1..last];
    } else {
      BurstStops(n, next);
      assert last == next && n.datato[next..last] == [];
    }
  }

  lemma {:induction false} FirstSendIs(n: Node, m: nat)
    requires SendInRange(n) && InUse(n.datato, m) && n.base == -1 && 1 <= m
    ensures var (t, out) := Sent(n);
      var last := Later(1, Earlier(n.window, m));
      && t == n.(base := 0, nextseq := last, exited := n.exited || last == m)
      && out == n.datato[..last]
  {
    var n1 := n.(base := 0, nextseq := 1);
    BurstIs(n1, 1, m);
    var last := Later(1, Earlier(n.window, m));
    assert n.datato[..last] == [n.datato[0]] + n.datato[1..last];
  }

  lemma {:induction false} SendIs(n: Node, m: nat)
    requires SendInRange(n) && InUse(n.datato, m) && n.base >= 0 && n.nextseq <= m
    ensures var (t, out) := Sent(n);
      var last := Later(n.nextseq, Earlier(n.base + n.window, m));
      && t == n.(nextseq := last, exited := n.exited || last == m)
      && out == Copies(n.datato[n.nextseq], |Unacked(n.datato, n.base, n.nextseq)|) + n.datato[n.nextseq..last]
  {
    ResentIs(n.datato, n.base, n.nextseq);
    BurstIs(n, n.nextseq, m);
  }

  // The step from `n` to `t` that sends `out`, with slots 0..m in use.
  ghost predicate SendsFrom(n: Node, t: Node, out: seq<Pack>, m: nat) {
    && |n.datato| == 100 && 0 <= n.nextseq <= m < 100
    && t == n.(base := t.base, nextseq := t.nextseq, exited := t.nextseq == m)
    && 0 <= t.nextseq <= m
    && if n.base == -1 then
         t.base == 0 && t.nextseq == Later(1, Earlier(n.window, m)) && out == n.datato[..t.nextseq]
       else
         && t.base == n.base >= 0 && t.nextseq == Later(n.nextseq, Earlier(n.base + n.window, m)) && n.nextseq <= t.nextseq
         && out == Copies(n.datato[n.nextseq], |Unacked(n.datato, n.base, n.nextseq)|) + n.datato[n.nextseq..t.nextseq]
         && (n.base < n.nextseq ==> |Unacked(n.datato, n.base, n.nextseq)| >= 1)
  }

  lemma {:induction false} SenderSends(n: Node, c: seq<string>)
    requires SenderOk(n, c) && !n.exited
    ensures SendInRange(n) && SendsFrom(n, Sent(n).0, Sent(n).1, |c|)
  {
    assert InUse(n.datato, |c|);
    if n.base == -1 {
      FirstSendIs(n, |c|);
    } else {
      SendIs(n, |c|);
      hide Sent, SenderOk, InUse;
      if n.base < n.nextseq {
        assert n.datato[n.base].ackno == -1 by { BaseUnacked(n, c); }
        assert n.base in Unacked(n.datato, n.base, n.nextseq);
      }
    }
  }

  lemma {:induction false} BaseUnacked(n: Node, c: seq<string>)
    requires SenderOk(n, c) && 0 <= n.base < n.nextseq
    ensures n.datato[n.base].ackno == -1
  {}

  // What sendpacket sends in every reachable state. At first the window from slot 0 on.
  // Later the slot at `nextseq` once for each slot before it that is not acknowledged,
  // which is at least once while the window is not empty, and then what the window has
  // room for, each slot once and in order.
  lemma {:induction false} SendsExactly(s: Net, f: string, g: string, evs: seq<Event>, fromA: bool)
    requires Initial(s, f, g) && Legal(s, evs) && !View(Run(s, evs), fromA).a.exited
    ensures var n := View(Run(s, evs), fromA).a;
      && SendInRange(n)
      && SendsFrom(n, Sent(n).0, Sent(n).1, |Chunks(if fromA then f else g)|)
  {
    RunHalf(s, f, g, evs, fromA);
    SenderSends(View(Run(s, evs), fromA).a, Chunks(if fromA then f else g));
  }

  // What is done with a packet in flight in every reachable state. An acknowledgement
  // marks its slot and moves the base to the first slot that is not acknowledged; a
  // piece fills its slot and is acknowledged; a piece that carries the mark of an
  // acknowledgement is ignored.
  lemma {:induction false} ReceivesExactly(s: Net, f: string, g: string, evs: seq<Event>, fromA: bool, p: Pack, junk: string)
    requires Initial(s, f, g) && Legal(s, evs) && !View(Run(s, evs), fromA).a.exited && p in View(Run(s, evs), fromA).toA
    ensures var n := View(Run(s, evs), fromA).a;
      && InRange(n, p) && |n.datato| == |n.datafrom| == SLOTS
      && var (t, out) := Received(n, p, junk);
         if p.sno == -1 then
           && t == n.(datato := t.datato, base := t.base) && out == []
           && 0 <= p.ackno < SLOTS && t.datato == n.datato[p.ackno := n.datato[p.ackno].(ackno := 1)]
           && 0 <= t.base < SLOTS && t.datato[t.base].ackno == -1 && forall k :: 0 <= k < t.base ==> t.datato[k].ackno == 1
         else if p.ackno == -1 then
           && t == n.(datafrom := t.datafrom) && out == [Pack(-1, p.sno, junk)]
           && 0 <= p.sno < SLOTS && t.datafrom == n.datafrom[p.sno := n.datafrom[p.sno].(ackno := 1, payload := p.payload)]
         else t == n && out == []
  {
    RunHalf(s, f, g, evs, fromA);
    RunHalf(s, f, g, evs, !fromA);
    var v := View(Run(s, evs), fromA);
    var c, d := Chunks(if fromA then f else g), Chunks(if fromA then g else f);
    hide Run, Legal, Initial;
    assert Half(v.b, v.a, v.toB, v.toA, d) && Half(v.a, v.b, v.toA, v.toB, c);
    InboundIs(v, c, d, p, junk);
  }

  lemma {:induction false} InboundIs(v: Net, c: seq<string>, d: seq<string>, p: Pack, junk: string)
    requires Half(v.a, v.b, v.toA, v.toB, c) && Half(v.b, v.a, v.toB, v.toA, d) && p in v.toA && !v.a.exited
    ensures var n := v.a;
      && InRange(n, p) && |n.datato| == |n.datafrom| == SLOTS
      && var (t, out) := Received(n, p, junk);
         if p.sno == -1 then
           && t == n.(datato := t.datato, base := t.base) && out == []
           && 0 <= p.ackno < SLOTS && t.datato == n.datato[p.ackno := n.datato[p.ackno].(ackno := 1)]
           && 0 <= t.base < SLOTS && t.datato[t.base].ackno == -1 && forall k :: 0 <= k < t.base ==> t.datato[k].ackno == 1
         else if p.ackno == -1 then
           && t == n.(datafrom := t.datafrom) && out == [Pack(-1, p.sno, junk)]
           && 0 <= p.sno < SLOTS && t.datafrom == n.datafrom[p.sno := n.datafrom[p.sno].(ackno := 1, payload := p.payload)]
         else t == n && out == []
  {
    assert DataOk(p, d) && AckOk(v.b, p, c);
    if p.sno == -1 {
      assert v.b.datafrom[p.ackno].ackno == 1 && v.a.base >= 0;
      AckKeeps(v, c, d, p);
      var t := Acked(v.a, p);
      assert t.datato[SLOTS - 1].ackno == -1;
    } else if p.ackno == -1 {
      CStrTwice(d[p.sno]);
      var n := v.a;
      if n.datafrom[p.sno].ackno == 1 {
        assert n.datafrom[p.sno].(ackno := 1, payload := p.payload) == n.datafrom[p.sno];
        assert n.datafrom[p.sno := n.datafrom[p.sno]] == n.datafrom;
      }
    }
  }

  // ---------- an exchange in which nothing is lost ----------

  lemma {:induction false} OneStep(s: Net, ev: Event, evs: seq<Event>)
    requires Possible(s, ev) && InBounds(s, ev) && Legal(Step(s, ev), evs)
    ensures Legal(s, [ev] + evs) && Run(s, [ev] + evs) == Run(Step(s, ev), evs)
  {
    assert ([ev] + evs)[1..] == evs;
  }

  // Slot k of `b` holds piece k.
  ghost predicate Filled(b: Node, c: seq<string>, k: nat) {
    |b.datafrom| == SLOTS && k < SLOTS && k < |c| && b.datafrom[k].ackno == 1 && b.datafrom[k].payload == CStr(c[k])
  }

  // The first `k` pieces have arrived at `b` and been acknowledged at `a`; those up to
  // `last` are on their way for the first time.
  ghost predicate Underway(s: Net, c: seq<string>, k: nat, last: nat) {
    && Holds(s.a.datato, c) && |s.b.datafrom| == SLOTS && !s.b.exited
    && k <= last <= |c| && s.a.base == k && s.a.nextseq == last && (s.a.exited <==> last == |c|)
    && (forall i :: 0 <= i < SLOTS ==> (s.a.datato[i].ackno == 1 <==> i < k))
    && (forall i :: k <= i < SLOTS ==> s.a.datato[i].ackno == s.b.datafrom[i].ackno == -1)
    && (forall i :: 0 <= i < k ==> Filled(s.b, c, i))
    && (forall i :: k <= i < last ==> s.a.datato[i] in s.toB)
  }

  // Piece k arrives at `b`.
  lemma {:induction false} PieceArrives(s: Net, c: seq<string>, k: nat, p: Pack)
    requires Holds(s.a.datato, c) && |s.b.datafrom| == SLOTS && !s.b.exited && k < |c|
    requires p == s.a.datato[k] && p in s.toB && p.ackno == -1 && s.b.datafrom[k].ackno == -1
    ensures var ev := Event(false, Arrives(p, ""));
      && Possible(s, ev) && InBounds(s, ev)
      && var t := Step(s, ev);
         && t.a == s.a && t.toB == s.toB && t.toA == s.toA + {Pack(-1, k, "")}
         && t.b == s.b.(datafrom := t.b.datafrom) && |t.b.datafrom| == SLOTS && Filled(t.b, c, k)
         && forall i :: 0 <= i < SLOTS && i != k ==> t.b.datafrom[i] == s.b.datafrom[i]
  {
    CStrTwice(c[k]);
    assert (set q | q in [Pack(-1, k, "")]) == {Pack(-1, k, "")};
  }

  // Its acknowledgement arrives at `a`.
  lemma {:induction false} AckArrives(s: Net, c: seq<string>, k: nat)
    requires Holds(s.a.datato, c) && k < |c| && s.a.base == k && !s.a.exited && Pack(-1, k, "") in s.toA
    requires forall i :: 0 <= i < SLOTS ==> (s.a.datato[i].ackno == 1 <==> i < k)
    ensures var ev := Event(true, Arrives(Pack(-1, k, ""), ""));
      && Possible(s, ev) && InBounds(s, ev)
      && Step(s, ev) == s.(a := s.a.(base := k + 1, datato := s.a.datato[k := s.a.datato[k].(ackno := 1)]))
  {
    var buffer := s.a.datato[k := s.a.datato[k].(ackno := 1)];
    FirstUnackedIs(buffer, k, k + 1);
    assert s.toB + {} == s.toB;
  }

  // Every piece from `k` on that is underway goes over, each acknowledged before the
  // next, while the sender runs.
  lemma {:induction false} GoOver(s: Net, c: seq<string>, k: nat, last: nat) returns (evs: seq<Event>)
    requires Underway(s, c, k, last) && last < |c|
    ensures Legal(s, evs) && Underway(Run(s, evs), c, last, last) && Run(s, evs).a.window == s.a.window
    decreases last - k
  {
    if k == last {
      evs := [];
    } else {
      var p := s.a.datato[k];
      var arrives, acked := Event(false, Arrives(p, "")), Event(true, Arrives(Pack(-1, k, ""), ""));
      PieceArrives(s, c, k, p);
      var t := Step(s, arrives);
      AckArrives(t, c, k);
      var u := Step(t, acked);
      UnderwayNext(s, t, u, c, k, last);
      hide Step, Possible, InBounds, Underway, Run, Legal;
      var rest := GoOver(u, c, k + 1, last);
      OneStep(t, acked, rest);
      OneStep(s, arrives, [acked] + rest);
      evs := [arrives] + ([acked] + rest);
    }
  }

  lemma {:induction false} UnderwayNext(s: Net, t: Net, u: Net, c: seq<string>, k: nat, last: nat)
    requires Underway(s, c, k, last) && k < last < |c|
    requires t.a == s.a && t.toB == s.toB && t.b == s.b.(datafrom := t.b.datafrom) && |t.b.datafrom| == SLOTS && Filled(t.b, c, k)
    requires forall i :: 0 <= i < SLOTS && i != k ==> t.b.datafrom[i] == s.b.datafrom[i]
    requires u == t.(a := t.a.(base := k + 1, datato := t.a.datato[k := t.a.datato[k].(ackno := 1)]))
    ensures Underway(u, c, k + 1, last) && u.a.window == s.a.window
  {
    forall i | 0 <= i < k + 1 ensures Filled(u.b, c, i) {
      assert i < k ==> Filled(s.b, c, i);
    }
  }

  // The sender has ended; the pieces underway still arrive.
  lemma {:induction false} LastOnes(s: Net, c: seq<string>, k: nat) returns (evs: seq<Event>)
    requires Holds(s.a.datato, c) && |s.b.datafrom| == SLOTS && !s.b.exited && k <= |c|
    requires forall i :: 0 <= i < k ==> Filled(s.b, c, i)
    requires forall i :: k <= i < |c| ==> s.b.datafrom[i].ackno == -1 && s.a.datato[i].ackno == -1 && s.a.datato[i] in s.toB
    ensures Legal(s, evs) && Run(s, evs).a == s.a && |Run(s, evs).b.datafrom| == SLOTS && forall i :: 0 <= i < |c| ==> Filled(Run(s, evs).b, c, i)
    decreases |c| - k
  {
    if k == |c| {
      evs := [];
    } else {
      var p := s.a.datato[k];
      var arrives := Event(false, Arrives(p, ""));
      PieceArrives(s, c, k, p);
      var t := Step(s, arrives);
      hide Step, Possible, InBounds, Run, Legal;
      forall i | 0 <= i < k + 1 ensures Filled(t.b, c, i) {
        assert i < k ==> Filled(s.b, c, i);
      }
      var rest := LastOnes(t, c, k + 1);
      OneStep(s, arrives, rest);
      evs := [arrives] + rest;
    }
  }

  // The sender sends the slots k..last, and nothing else.
  lemma {:induction false} SendStep(s: Net, c: seq<string>, k: nat, last: nat)
    requires Holds(s.a.datato, c) && SendInRange(s.a) && !s.a.exited && k <= last <= |c|
    requires Sent(s.a) == (s.a.(base := k, nextseq := last, exited := last == |c|), s.a.datato[k..last])
    ensures var ev := Event(true, Send);
      && Possible(s, ev) && InBounds(s, ev)
      && Step(s, ev).a == s.a.(base := k, nextseq := last, exited := last == |c|) && Step(s, ev).b == s.b
      && forall i :: k <= i < last ==> s.a.datato[i] in Step(s, ev).toB
  {
    var out := s.a.datato[k..last];
    hide Sent;
    forall i | k <= i < last ensures s.a.datato[i] in out {
      assert out[i - k] == s.a.datato[i];
    }
  }

  lemma {:induction false} AllUsed(buffer: seq<Pack>, c: seq<string>)
    requires Holds(buffer, c)
    ensures InUse(buffer, |c|) && buffer[SLOTS - 1].sno == -1
  {}

  // The sender sends what its window has room for.
  lemma {:induction false} SendOn(s: Net, c: seq<string>, k: nat)
    requires Underway(s, c, k, k) && k < |c| && s.a.window >= 1
    ensures var ev := Event(true, Send);
      && Possible(s, ev) && InBounds(s, ev)
      && var t := Step(s, ev);
         var last := Earlier(k + s.a.window, |c|);
         k < last <= |c| && Underway(t, c, k, last) && t.a.window == s.a.window
  {
    var last := Earlier(k + s.a.window, |c|);
    SendsNext(s.a, c, k);
    UnderwaySends(s, c, k);
    hide Sent, Underway, Holds, SendInRange, Step;
    SendStep(s, c, k, last);
    UnderwaySent(s, Step(s, Event(true, Send)), c, k, last);
  }

  lemma {:induction false} SendsNext(n: Node, c: seq<string>, k: nat)
    requires Holds(n.datato, c) && n.base == n.nextseq == k < |c| && n.window >= 1 && !n.exited
    ensures SendInRange(n)
    ensures var last := Earlier(k + n.window, |c|); Sent(n) == (n.(base := k, nextseq := last, exited := last == |c|), n.datato[k..last])
  {
    AllUsed(n.datato, c);
    SendIs(n, |c|);
    assert Unacked(n.datato, k, k) == {} && Copies(n.datato[k], 0) == [];
    var last := Earlier(k + n.window, |c|);
    assert [] + n.datato[k..last] == n.datato[k..last];
    hide Sent, InUse, Holds;
  }

  lemma {:induction false} UnderwaySends(s: Net, c: seq<string>, k: nat)
    requires Underway(s, c, k, k) && k < |c|
    ensures Holds(s.a.datato, c) && s.a.base == s.a.nextseq == k && !s.a.exited
  {}

  lemma {:induction false} UnderwaySent(s: Net, t: Net, c: seq<string>, k: nat, last: nat)
    requires Underway(s, c, k, k) && k <= last <= |c|
    requires t.a == s.a.(base := k, nextseq := last, exited := last == |c|) && t.b == s.b
    requires forall i :: k <= i < last ==> s.a.datato[i] in t.toB
    ensures Underway(t, c, k, last)
  {}

  // From here to the end.
  lemma {:induction false} Finish(s: Net, c: seq<string>, k: nat, last: nat) returns (evs: seq<Event>)
    requires Underway(s, c, k, last) && s.a.window >= 1
    ensures Legal(s, evs) && Run(s, evs).a.exited && |Run(s, evs).b.datafrom| == SLOTS && forall i :: 0 <= i < |c| ==> Filled(Run(s, evs).b, c, i)
    decreases |c| - last
  {
    hide Step, Run, Legal, Possible, InBounds;
    if last == |c| {
      evs := LastOnes(s, c, k);
    } else {
      var over := GoOver(s, c, k, last);
      var t := Run(s, over);
      SendOn(t, c, last);
      var send := Event(true, Send);
      var next := Earlier(last + t.a.window, |c|);
      var rest := Finish(Step(t, send), c, last, next);
      OneStep(t, send, rest);
      TwoRuns(s, over, [send] + rest);
      evs := over + ([send] + rest);
    }
  }

  lemma {:induction false} TwoRuns(s: Net, a: seq<Event>, b: seq<Event>)
    requires Legal(s, a) && Legal(Run(s, a), b)
    ensures Legal(s, a + b) && Run(s, a + b) == Run(Run(s, a), b)
    decreases |a|
  {
    hide Step, Possible, InBounds;
    if a == [] {
      assert a + b == b;
    } else {
      TwoRuns(Step(s, a[0]), a[1..], b);
      assert (a + b)[1..] == a[1..] + b;
    }
  }

  lemma {:induction false} Start(s: Net, f: string, g: string)
    requires Initial(s, f, g) && s.a.window >= 1
    ensures |Chunks(f)| < SLOTS
    ensures var ev := Event(true, Send);
      && Possible(s, ev) && InBounds(s, ev)
      && var t := Step(s, ev);
         var last := Earlier(s.a.window, |Chunks(f)|);
         last >= 0 && Underway(t, Chunks(f), 0, last) && t.a.window == s.a.window
  {
    var c := Chunks(f);
    var last := Earlier(s.a.window, |c|);
    NewStarts(s, f, g);
    SendsFirst(s.a, c);
    hide Sent, Underway, Holds, SendInRange, Step, Chunks, Initial;
    SendStep(s, c, 0, last);
    hide Possible, InBounds;
    NewSent(s, Step(s, Event(true, Send)), f, g, last);
  }

  lemma {:induction false} NewStarts(s: Net, f: string, g: string)
    requires Initial(s, f, g)
    ensures Holds(s.a.datato, Chunks(f)) && s.a.base == -1 && s.a.nextseq == 0 && !s.a.exited
  {}

  lemma {:induction false} SendsFirst(n: Node, c: seq<string>)
    requires Holds(n.datato, c) && n.base == -1 && n.nextseq == 0 && n.window >= 1 && !n.exited
    ensures SendInRange(n)
    ensures var last := Earlier(n.window, |c|); Sent(n) == (n.(base := 0, nextseq := last, exited := last == |c|), n.datato[0..last])
  {
    AllUsed(n.datato, c);
    FirstSendIs(n, |c|);
    var last := Earlier(n.window, |c|);
    assert n.datato[..last] == n.datato[0..last];
    hide Sent, InUse, Holds;
  }

  lemma {:induction false} NewSent(s: Net, t: Net, f: string, g: string, last: nat)
    requires Initial(s, f, g) && last <= |Chunks(f)|
    requires t.a == s.a.(base := 0, nextseq := last, exited := last == |Chunks(f)|) && t.b == s.b
    requires forall i :: 0 <= i < last ==> i < |s.a.datato| && s.a.datato[i] in t.toB
    ensures Underway(t, Chunks(f), 0, last)
  {}

  // The file arrives: with a window of at least one slot, from any two new endpoints
  // there is a run after which the sender has ended and each slot of the peer holds its
  // piece, and these pieces make up the file if it holds no NUL.
  lemma {:induction false} FileArrives(s: Net, f: string, g: string) returns (evs: seq<Event>)
    requires Initial(s, f, g) && s.a.window >= 1
    ensures Legal(s, evs) && Run(s, evs).a.exited
    ensures var b := Run(s, evs).b;
      && |b.datafrom| == SLOTS && |Chunks(f)| < SLOTS
      && (forall i :: 0 <= i < |Chunks(f)| ==> Filled(b, Chunks(f), i))
      && ('\0' !in f <==> Concat(Payloads(b.datafrom[..|Chunks(f)|])) == f)
  {
    var c := Chunks(f);
    var send := Event(true, Send);
    Start(s, f, g);
    hide Initial, Step, Possible, InBounds, Run, Legal, Underway, Filled, Chunks;
    var rest := Finish(Step(s, send), c, 0, Earlier(s.a.window, |c|));
    OneStep(s, send, rest);
    evs := [send] + rest;
    AllPieces(Run(s, evs).b, f);
  }

  lemma {:induction false} AllPieces(b: Node, f: string)
    requires Fits(f) && |b.datafrom| == SLOTS && forall i :: 0 <= i < |Chunks(f)| ==> Filled(b, Chunks(f), i)
    ensures '\0' !in f <==> Concat(Payloads(b.datafrom[..|Chunks(f)|])) == f
  {
    var c := Chunks(f);
    var got := b.datafrom[..|c|];
    forall i | 0 <= i < |c| ensures Payloads(got)[i] == Copied(c)[i] {
      assert Filled(b, c, i);
    }
    assert Payloads(got) == Copied(c);
    ChunksPrefix(f, |c|);
    ChunksCover(f);
    CopiedIs(c);
    assert c[..|c|] == c;
    hide Concat, Copied, Payloads, Filled;
  }

  lemma {:induction false} ChunksCover(f: string)
    ensures CHUNK * |Chunks(f)| >= |f|
  {
    if f != "" { ChunksCover(f[Earlier(|f|, CHUNK)..]); }
  }
}
