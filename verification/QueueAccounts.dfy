// Where the packets of the buffer go: each one put in waits, has been taken, has waited
// for more than 30 seconds, or had to make room while 64 others could still be sent.
module QueueAccounts {
  import opened Wrappers
  import opened RouteQueue

  // The items that have not expired at `now`, and those that have.
  ghost function Live(q: seq<Item>, now: real): multiset<Item> {
    if q == [] then multiset{} else (if now <= q[0].ts then multiset{q[0]} else multiset{}) + Live(q[1..], now)
  }

  ghost function Dead(q: seq<Item>, now: real): multiset<Item> {
    if q == [] then multiset{} else (if q[0].ts < now then multiset{q[0]} else multiset{}) + Dead(q[1..], now)
  }

  // The first item that has not expired, for `dst` if one is given.
  ghost function FirstLive(q: seq<Item>, now: real, dst: Option<Addr>): Option<Item> {
    if q == [] then None
    else if now <= q[0].ts && (dst.Some? ==> q[0].dst == dst.value) then Some(q[0])
    else FirstLive(q[1..], now, dst)
  }

  ghost function Alone(x: Option<Item>): multiset<Item> {
    if x.Some? then multiset{x.value} else multiset{}
  }

  // What an operation puts in, hands out, and pushes out of a full buffer.
  ghost function Entered(op: Op): multiset<Item> {
    if op.Enq? then multiset{Item(op.uid, op.dst, op.now + 30.0)} else multiset{}
  }

  ghost function Taken(q: seq<Item>, op: Op): Option<Item> {
    match op
    case Enq(_, _, _) => None
    case Deq(now) => FirstLive(q, now, None)
    case DeqFor(now, dst) => FirstLive(q, now, Some(dst))
  }

  ghost function Pushed(q: seq<Item>, op: Op): Option<Item> {
    if op.Enq? && |Live(q, op.now)| == 64 then FirstLive(q, op.now, None) else None
  }

  lemma {:induction false} LiveOrDead(q: seq<Item>, now: real)
    ensures multiset(q) == Live(q, now) + Dead(q, now)
  {
    if q != [] {
      LiveOrDead(q[1..], now);
      assert q == [q[0]] + q[1..];
    }
  }

  lemma {:induction false} PurgedLive(q: seq<Item>, now: real)
    ensures multiset(Purged(q, now)) == Live(q, now) && |Purged(q, now)| == |Live(q, now)|
  {
    if q != [] { PurgedLive(q[1..], now); }
  }

  lemma {:induction false} FirstIsLive(q: seq<Item>, now: real, dst: Addr)
    ensures var r := Purged(q, now);
      && FirstLive(q, now, None) == (if r == [] then None else Some(r[0]))
      && FirstLive(q, now, Some(dst)) == (if First(r, dst) < |r| then Some(r[First(r, dst)]) else None)
  {
    if q != [] { FirstIsLive(q[1..], now, dst); }
  }

  lemma {:induction false} WithoutOne(r: seq<Item>, k: nat)
    ensures multiset(r) == multiset(Without(r, k)) + if k < |r| then multiset{r[k]} else multiset{}
  {
    if k < |r| { assert r == r[..k] + [r[k]] + r[k + 1..]; }
  }

  lemma {:induction false} EnqAccounts(q: seq<Item>, uid: nat, dst: Addr, now: real)
    ensures Live(q, now) + multiset{Item(uid, dst, now + 30.0)} == multiset(Enqueued(q, uid, dst, now)) + Alone(Pushed(q, Enq(now, uid, dst)))
  {
    var r := Purged(q, now);
    PurgedLive(q, now);
    FirstIsLive(q, now, 0);
    hide Purged, Live, FirstLive, First;
    if |r| == 64 { assert r == [r[0]] + r[1..]; }
  }

  lemma {:induction false} DeqAccounts(q: seq<Item>, op: Op)
    requires !op.Enq?
    ensures Live(q, op.now) == multiset(Apply(q, op)) + Alone(Taken(q, op))
  {
    var r := Purged(q, op.now);
    var dst := if op.DeqFor? then op.dst else 0;
    PurgedLive(q, op.now);
    FirstIsLive(q, op.now, dst);
    WithoutOne(r, 0);
    WithoutOne(r, First(r, dst));
    hide Purged, Live, FirstLive, First, Without;
  }

  // One operation: what was in the buffer or is put in waits, is handed out, has expired
  // or is pushed out.
  lemma {:induction false} StepAccounts(q: seq<Item>, op: Op)
    ensures multiset(q) + Entered(op) == multiset(Apply(q, op)) + Alone(Taken(q, op)) + Alone(Pushed(q, op)) + Dead(q, op.now)
  {
    LiveOrDead(q, op.now);
    hide Live, Dead, FirstLive, Enqueued, Purged, First, Without;
    if op.Enq? { EnqAccounts(q, op.uid, op.dst, op.now); } else { DeqAccounts(q, op); }
  }

  // The same sums along a run.
  ghost function AllEntered(ops: seq<Op>): multiset<Item> {
    if ops == [] then multiset{} else Entered(ops[0]) + AllEntered(ops[1..])
  }

  ghost function AllTaken(q: seq<Item>, ops: seq<Op>): multiset<Item>
    decreases |ops|
  {
    if ops == [] then multiset{} else Alone(Taken(q, ops[0])) + AllTaken(Apply(q, ops[0]), ops[1..])
  }

  ghost function AllPushed(q: seq<Item>, ops: seq<Op>): multiset<Item>
    decreases |ops|
  {
    if ops == [] then multiset{} else Alone(Pushed(q, ops[0])) + AllPushed(Apply(q, ops[0]), ops[1..])
  }

  ghost function AllDead(q: seq<Item>, ops: seq<Op>): multiset<Item>
    decreases |ops|
  {
    if ops == [] then multiset{} else Dead(q, ops[0].now) + AllDead(Apply(q, ops[0]), ops[1..])
  }

  // Nothing is lost or repeated over any run: the packets put in are those that wait, were
  // handed out, were pushed out by a packet that found 64 others, or had expired.
  lemma {:induction false} Accounts(q: seq<Item>, ops: seq<Op>)
    ensures multiset(q) + AllEntered(ops) == multiset(Run(q, ops)) + AllTaken(q, ops) + AllPushed(q, ops) + AllDead(q, ops)
    decreases |ops|
  {
    hide Apply, Taken, Pushed, Dead, Entered, Alone;
    if ops != [] {
      var op, rest, r := ops[0], ops[1..], Apply(q, ops[0]);
      StepAccounts(q, op);
      Accounts(r, rest);
      Combine(multiset(q), Entered(op), multiset(r), Alone(Taken(q, op)), Alone(Pushed(q, op)), Dead(q, op.now),
              AllEntered(rest), multiset(Run(r, rest)), AllTaken(r, rest), AllPushed(r, rest), AllDead(r, rest));
    }
  }

  lemma {:induction false} Combine<T>(q: multiset<T>, e: multiset<T>, r: multiset<T>, t: multiset<T>, p: multiset<T>, d: multiset<T>,
                                      e1: multiset<T>, w: multiset<T>, t1: multiset<T>, p1: multiset<T>, d1: multiset<T>)
    requires q + e == r + t + p + d && r + e1 == w + t1 + p1 + d1
    ensures q + (e + e1) == w + (t + t1) + (p + p1) + (d + d1)
  {
    forall x: T
      ensures (q + (e + e1))[x] == (w + (t + t1) + (p + p1) + (d + d1))[x]
    {
      assert (q + e)[x] == (r + t + p + d)[x] && (r + e1)[x] == (w + t1 + p1 + d1)[x];
    }
  }

  lemma {:induction false} DeadIs(q: seq<Item>, now: real, x: Item)
    ensures x in Dead(q, now) <==> x in q && x.ts < now
  {
    if q != [] {
      DeadIs(q[1..], now, x);
      assert q == [q[0]] + q[1..];
    }
  }

  // In a run from a new buffer a packet is given up as expired only by an operation more
  // than 30 seconds after it came, and any other operation up to then finds it, as long
  // as it has not been handed or pushed out.
  lemma {:induction false} WaitsThirtySeconds(q: seq<Item>, op: Op, since: real, x: Item)
    requires x in q && x.ts == since + 30.0
    ensures x in Dead(q, op.now) <==> op.now > since + 30.0
    ensures op.now <= since + 30.0 ==> x in Apply(q, op) || Taken(q, op) == Some(x) || Pushed(q, op) == Some(x)
  {
    DeadIs(q, op.now, x);
    StepAccounts(q, op);
    assert x in multiset(q) + Entered(op);
    hide Apply, Taken, Pushed, Dead, Entered;
    assert x in multiset(Apply(q, op)) + Alone(Taken(q, op)) + Alone(Pushed(q, op)) + Dead(q, op.now);
  }
}
