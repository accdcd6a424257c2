// The packet buffer of a routing agent (aodv_rqueue.cc; the AOMDV buffer is the
// same code): a linked list of packets with time stamps. Clock values are parameters.
module RouteQueue {
  import opened Wrappers

  type Addr = nat

  const MAX_LEN: nat := 64
  const TIMEOUT: real := 30.0

  // ---------- the buffer as a sequence ----------

  datatype Item = Item(uid: nat, dst: Addr, ts: real)

  predicate Aged(x: Item, now: real) { x.ts < now }

  // purge
  function Purged(q: seq<Item>, now: real): seq<Item> {
    if q == [] then [] else if Aged(q[0], now) then Purged(q[1..], now) else [q[0]] + Purged(q[1..], now)
  }

  // What enque leaves, before the packet is added.
  function Room(q: seq<Item>, now: real): seq<Item> {
    var r := Purged(q, now);
    if |r| == MAX_LEN then r[1..] else r
  }

  function Enqueued(q: seq<Item>, uid: nat, dst: Addr, now: real): seq<Item> {
    Room(q, now) + [Item(uid, dst, now + TIMEOUT)]
  }

  // The place of the first packet for `dst`, or the length.
  function First(q: seq<Item>, dst: Addr): (k: nat)
    ensures k <= |q| && (k < |q| ==> q[k].dst == dst) && forall j :: 0 <= j < k ==> q[j].dst != dst
  {
    if q == [] || q[0].dst == dst then 0 else 1 + First(q[1..], dst)
  }

  function Without<T>(q: seq<T>, k: nat): seq<T> {
    if k < |q| then q[..k] + q[k + 1..] else q
  }

  // ---------- the linked list ----------

  class Packet {
    const uid: nat
    const dst: Addr
    var ts: real
    var next: Packet?

    constructor (uid: nat, dst: Addr)
      ensures this.uid == uid && this.dst == dst
    {
      this.uid, this.dst, ts, next := uid, dst, 0.0, null;
    }
  }

  ghost predicate Distinct(nodes: seq<Packet>) {
    forall i, j :: 0 <= i < j < |nodes| ==> nodes[i] != nodes[j]
  }

  lemma {:induction false} WithoutAt<T>(q: seq<T>, k: nat)
    requires k < |q|
    ensures |Without(q, k)| == |q| - 1
    ensures forall i {:trigger Without(q, k)[i]} :: 0 <= i < |q| - 1 ==> Without(q, k)[i] == q[if i < k then i else i + 1]
  {}

  lemma {:induction false} WithoutDistinct(nodes: seq<Packet>, k: nat)
    requires Distinct(nodes)
    ensures Distinct(Without(nodes, k))
  {}

  // `next` links the packets of `nodes` in this order.
  ghost predicate Chained(nodes: seq<Packet>)
    reads nodes
  {
    && Distinct(nodes)
    && (forall i {:trigger nodes[i].next} :: 0 <= i < |nodes| ==> nodes[i].next == At(nodes, i + 1))
  }

  ghost function At(nodes: seq<Packet>, k: int): Packet? {
    if 0 <= k < |nodes| then nodes[k] else null
  }

  class Queue {
    var head: Packet?
    var tail: Packet?
    var len: int
    ghost var nodes: seq<Packet>
    ghost var contents: seq<Item>

    ghost predicate Valid()
      reads this, nodes
    {
      && Chained(nodes) && len == |nodes|
      && head == At(nodes, 0) && tail == At(nodes, |nodes| - 1)
      && |contents| == |nodes|
      && forall i :: 0 <= i < |nodes| ==> contents[i] == Item(nodes[i].uid, nodes[i].dst, nodes[i].ts)
    }

    constructor ()
      ensures Valid() && contents == [] && nodes == []
    {
      head, tail, len, nodes, contents := null, null, 0, [], [];
    }

    // remove_head
    method RemoveHead() returns (p: Packet?)
      requires Valid()
      modifies this
      ensures Valid() && p == At(old(nodes), 0)
      ensures nodes == Without(old(nodes), 0) && contents == Without(old(contents), 0)
    {
      p := head;
      if head == tail {
        head, tail := null, null;
      } else {
        head := head.next;
      }
      if p != null {
        len := len - 1;
        nodes, contents := nodes[1..], contents[1..];
      }
    }

    // The part that purge and deque(dst) have in common: `p` is taken out, with
    // `prev` the packet before it.
    method TakeOut(p: Packet, prev: Packet?, ghost k: nat)
      requires Valid() && k < |nodes| && p == nodes[k] && prev == At(nodes, k - 1)
      modifies this, nodes`next
      ensures Valid() && nodes == Without(old(nodes), k) && contents == Without(old(contents), k)
    {
      if p == head {
        assert k == 0;
        var q := RemoveHead();
      } else {
        Unlink(p, prev, k);
      }
    }

    method Unlink(p: Packet, prev: Packet, ghost k: nat)
      requires Valid() && 0 < k < |nodes| && p == nodes[k] && prev == nodes[k - 1]
      modifies this, prev`next
      ensures Valid() && nodes == Without(old(nodes), k) && contents == Without(old(contents), k)
    {
      WithoutAt(nodes, k);
      WithoutAt(contents, k);
      WithoutDistinct(nodes, k);
      hide Without;
      if p == tail {
        prev.next, tail := null, prev;
      } else {
        prev.next := p.next;
      }
      len, nodes, contents := len - 1, Without(nodes, k), Without(contents, k);
    }

    method Purge(now: real)
      requires Valid()
      modifies this, nodes`next
      ensures Valid() && contents == Purged(old(contents), now)
      ensures forall i :: 0 <= i < |nodes| ==> nodes[i] in old(nodes)
    {
      hide Purged, Valid;
      var found, p, prev;
      ghost var k: nat;
      found, p, prev, k := FindAgedPacket(now);
      while found
        invariant Valid() && forall i :: 0 <= i < |nodes| ==> nodes[i] in old(nodes)
        invariant k <= |nodes| == |contents| && p == At(nodes, k) && prev == At(nodes, k - 1) && found == (k < |nodes|)
        invariant found ==> Aged(contents[k], now)
        invariant !found ==> forall x :: x in contents ==> !Aged(x, now)
        invariant Purged(contents, now) == Purged(old(contents), now)
        decreases |nodes|
      {
        PurgedSkips(contents, k, now);
        TakeOut(p, prev, k);
        VerifyQueue();
        found, p, prev, k := FindAgedPacket(now);
      }
      PurgedNone(contents, now);
    }

    // Returns the packet that had to go for the new one.
    method Enque(p: Packet, now: real) returns (dropped: Packet?)
      requires Valid() && p !in nodes
      modifies this, nodes`next, p
      ensures Valid() && contents == Enqueued(old(contents), p.uid, p.dst, now)
      ensures nodes != [] && nodes[|nodes| - 1] == p
      ensures var r := Purged(old(contents), now);
        if |r| == MAX_LEN then dropped != null && Item(dropped.uid, dropped.dst, dropped.ts) == r[0] else dropped == null
    {
      hide Purged, Valid;
      Purge(now);
      assert p !in nodes;
      p.next, p.ts := null, now + TIMEOUT;
      dropped := MakeRoom();
      Append(p);
      VerifyQueue();
    }

    // A full queue loses its head.
    method MakeRoom() returns (dropped: Packet?)
      requires Valid()
      modifies this
      ensures Valid() && contents == if |old(contents)| == MAX_LEN then old(contents)[1..] else old(contents)
      ensures forall i :: 0 <= i < |nodes| ==> nodes[i] in old(nodes)
      ensures if |old(contents)| == MAX_LEN then dropped != null && Item(dropped.uid, dropped.dst, dropped.ts) == old(contents)[0]
              else dropped == null
    {
      dropped := null;
      assert nodes != [] ==> contents[0] == Item(nodes[0].uid, nodes[0].dst, nodes[0].ts);
      if len == MAX_LEN {
        hide Chained;
        dropped := RemoveHead();
      }
    }

    method Append(p: Packet)
      requires Valid() && p !in nodes && p.next == null
      modifies this, nodes`next
      ensures Valid() && nodes == old(nodes) + [p] && contents == old(contents) + [Item(p.uid, p.dst, p.ts)]
    {
      if head == null {
        head, tail := p, p;
      } else {
        tail.next := p;
        tail := p;
      }
      len, nodes := len + 1, nodes + [p];
      contents := contents + [Item(p.uid, p.dst, p.ts)];
    }

    // deque()
    method Deque(now: real) returns (p: Packet?)
      requires Valid()
      modifies this, nodes`next
      ensures Valid()
      ensures var r := Purged(old(contents), now);
        if r == [] then p == null && contents == []
        else p != null && p in old(nodes) && Item(p.uid, p.dst, p.ts) == r[0] && contents == r[1..]
    {
      hide Purged;
      Purge(now);
      assert nodes != [] ==> contents[0] == Item(nodes[0].uid, nodes[0].dst, nodes[0].ts);
      hide Valid;
      p := RemoveHead();
      VerifyQueue();
    }

    // deque(dst)
    method DequeFor(dst: Addr, now: real) returns (p: Packet?)
      requires Valid()
      modifies this, nodes`next
      ensures Valid() && forall i :: 0 <= i < |nodes| ==> nodes[i] in old(nodes)
      ensures var r := Purged(old(contents), now);
        var k := First(r, dst);
        && contents == Without(r, k)
        && if k == |r| then p == null else p != null && p in old(nodes) && Item(p.uid, p.dst, p.ts) == r[k]
    {
      hide Purged, First;
      Purge(now);
      var prev;
      p, prev := FindPacketWithDst(dst);
      ghost var k := First(contents, dst);
      assert |contents| == |nodes|;
      if p == null { return null; }
      assert contents[k] == Item(p.uid, p.dst, p.ts);
      ghost var purged := nodes;
      WithoutIn(nodes, k);
      hide Valid, Without;
      TakeOut(p, prev, k);
      VerifyQueue();
    }

    // What is done with the packets for a destination when its route is found, has
    // expired or is given up: they are taken out one by one, to be sent or dropped.
    method DrainFor(dst: Addr, now: real) returns (out: seq<Packet>)
      requires Valid()
      modifies this, nodes`next
      ensures Valid() && contents == NotFor(Purged(old(contents), now), dst)
      ensures Holds(out, For(Purged(old(contents), now), dst))
      ensures forall p :: p in out ==> p in old(nodes)
    {
      hide Purged, Valid, First, Without, For, NotFor, Drained, Holds;
      out := [];
      DrainsInOrder(contents, dst, now);
      ghost var taken: seq<Item> := [];
      HoldsNone(out);
      var p := DequeFor(dst, now);
      DrainStep(old(contents), dst, now);
      assert forall d: seq<Item> :: taken + d == d;
      while p != null
        invariant Valid() && forall i :: 0 <= i < |nodes| ==> nodes[i] in old(nodes)
        invariant Holds(out, taken) && (forall x :: x in out ==> x in old(nodes))
        invariant p == null ==> (taken, contents) == Drained(old(contents), dst, now)
        invariant p != null ==> p in old(nodes)
        invariant p != null ==> (taken + ([Item(p.uid, p.dst, p.ts)] + Drained(contents, dst, now).0),
                                 Drained(contents, dst, now).1) == Drained(old(contents), dst, now)
        decreases |contents|, p != null
      {
        ghost var d := Drained(contents, dst, now);
        assert taken + ([Item(p.uid, p.dst, p.ts)] + d.0) == (taken + [Item(p.uid, p.dst, p.ts)]) + d.0;
        HoldsOne(out, taken, p);
        out, taken := out + [p], taken + [Item(p.uid, p.dst, p.ts)];
        DrainStep(contents, dst, now);
        assert taken + [] == taken;
        p := DequeFor(dst, now);
      }
    }

    method Find(dst: Addr) returns (found: bool)
      requires Valid()
      ensures found <==> exists x :: x in contents && x.dst == dst
    {
      var p, prev := FindPacketWithDst(dst);
      ghost var q := contents;
      found := p != null;
      assert found ==> q[First(q, dst)] in q;
    }

    // findPacketWithDst
    method FindPacketWithDst(dst: Addr) returns (p: Packet?, prev: Packet?)
      requires Valid()
      ensures var k := First(contents, dst); p == At(nodes, k) && prev == At(nodes, k - 1)
    {
      p, prev := head, null;
      ghost var k: nat := 0;
      while p != null
        invariant k <= |nodes| && p == At(nodes, k) && prev == At(nodes, k - 1)
        invariant forall j :: 0 <= j < k ==> nodes[j].dst != dst
        decreases |nodes| - k
      {
        if p.dst == dst {
          FirstIs(contents, dst, k);
          return;
        }
        prev, p, k := p, p.next, k + 1;
      }
      FirstIs(contents, dst, k);
    }

    // findAgedPacket
    method FindAgedPacket(now: real) returns (found: bool, p: Packet?, prev: Packet?, ghost k: nat)
      requires Valid()
      ensures k <= |nodes| == |contents| && p == At(nodes, k) && prev == At(nodes, k - 1) && found == (k < |nodes|)
      ensures found ==> Aged(contents[k], now)
      ensures !found ==> forall x :: x in contents ==> !Aged(x, now)
    {
      p, prev, k := head, null, 0;
      while p != null
        invariant k <= |nodes| && p == At(nodes, k) && prev == At(nodes, k - 1)
        invariant forall j :: 0 <= j < k ==> !Aged(contents[j], now)
        decreases |nodes| - k
      {
        if p.ts < now { return true, p, prev, k; }
        prev, p, k := p, p.next, k + 1;
      }
      return false, p, prev, k;
    }

    // verifyQueue: its two asserts hold.
    method VerifyQueue()
      requires Valid()
    {
      var p, prev, cnt := head, null, 0;
      while p != null
        invariant 0 <= cnt <= |nodes| && p == At(nodes, cnt) && prev == At(nodes, cnt - 1)
        decreases |nodes| - cnt
      {
        cnt, prev, p := cnt + 1, p, p.next;
      }
      assert cnt == len;
      assert prev == tail;
    }
  }

  lemma {:induction false} FirstIs(q: seq<Item>, dst: Addr, k: nat)
    requires k <= |q| && (k < |q| ==> q[k].dst == dst) && forall j :: 0 <= j < k ==> q[j].dst != dst
    ensures First(q, dst) == k
  {}

  lemma {:induction false} PurgedSkips(q: seq<Item>, k: nat, now: real)
    requires k < |q| && Aged(q[k], now)
    ensures Purged(Without(q, k), now) == Purged(q, now)
  {
    if k == 0 {
      assert Without(q, 0) == q[1..];
    } else {
      PurgedSkips(q[1..], k - 1, now);
      assert Without(q, k) == [q[0]] + Without(q[1..], k - 1);
      assert ([q[0]] + Without(q[1..], k - 1))[1..] == Without(q[1..], k - 1);
      hide Without;
    }
  }

  lemma {:induction false} PurgedNone(q: seq<Item>, now: real)
    requires forall x :: x in q ==> !Aged(x, now)
    ensures Purged(q, now) == q
  {
    if q != [] {
      PurgedNone(q[1..], now);
      assert q == [q[0]] + q[1..];
    }
  }

  // ---------- runs ----------

  datatype Op = Enq(now: real, uid: nat, dst: Addr) | Deq(now: real) | DeqFor(now: real, dst: Addr)

  function Apply(q: seq<Item>, op: Op): seq<Item> {
    match op
    case Enq(now, uid, dst) => Enqueued(q, uid, dst, now)
    case Deq(now) => Without(Purged(q, now), 0)
    case DeqFor(now, dst) => Without(Purged(q, now), First(Purged(q, now), dst))
  }

  function Run(q: seq<Item>, ops: seq<Op>): seq<Item>
    decreases |ops|
  {
    if ops == [] then q else Run(Apply(q, ops[0]), ops[1..])
  }

  // The clock does not go back.
  ghost predicate Timely(now: real, ops: seq<Op>)
    decreases |ops|
  {
    ops == [] || (ops[0].now >= now && Timely(ops[0].now, ops[1..]))
  }

  ghost predicate Sorted(q: seq<Item>) {
    forall i, j :: 0 <= i < j < |q| ==> q[i].ts <= q[j].ts
  }

  ghost predicate Inv(q: seq<Item>, now: real) {
    |q| <= MAX_LEN && Sorted(q) && forall x :: x in q ==> x.ts <= now + TIMEOUT
  }

  lemma {:induction false} PurgedIs(q: seq<Item>, now: real)
    ensures forall x :: x in Purged(q, now) <==> x in q && !Aged(x, now)
    ensures |Purged(q, now)| <= |q|
    ensures |Purged(q, now)| == |q| ==> forall x :: x in q ==> !Aged(x, now)
  {
    if q != [] {
      PurgedIs(q[1..], now);
      assert q == [q[0]] + q[1..];
    }
  }

  lemma {:induction false} PurgedSorted(q: seq<Item>, now: real)
    requires Sorted(q)
    ensures Sorted(Purged(q, now))
  {
    if q != [] {
      var rest := Purged(q[1..], now);
      PurgedSorted(q[1..], now);
      PurgedIs(q[1..], now);
      assert forall i :: 0 <= i < |rest| ==> rest[i] in rest;
      assert forall x :: x in q[1..] ==> q[0].ts <= x.ts;
    }
  }

  lemma {:induction false} EnqInv(r: seq<Item>, x: Item, now: real)
    requires Inv(r, now) && x.ts == now + TIMEOUT
    ensures Inv((if |r| == MAX_LEN then r[1..] else r) + [x], now)
  {}

  lemma {:induction false} PurgedInv(q: seq<Item>, now: real, at: real)
    requires Inv(q, now) && at >= now
    ensures Inv(Purged(q, at), at)
  {
    PurgedIs(q, at);
    PurgedSorted(q, at);
    hide Purged, Sorted;
  }

  lemma {:induction false} WithoutInv(q: seq<Item>, k: nat, now: real)
    requires Inv(q, now)
    ensures Inv(Without(q, k), now)
  {}

  lemma {:induction false} OpInv(q: seq<Item>, now: real, op: Op)
    requires Inv(q, now) && op.now >= now
    ensures Inv(Apply(q, op), op.now)
  {
    hide Purged, First, Inv;
    PurgedInv(q, now, op.now);
    var r := Purged(q, op.now);
    match op
    case Enq(at, uid, dst) => EnqInv(r, Item(uid, dst, at + TIMEOUT), at);
    case Deq(at) => WithoutInv(r, 0, at);
    case DeqFor(at, dst) => WithoutInv(r, First(r, dst), at);
  }

  // In every run at most 64 packets wait, in the order of their time stamps.
  lemma {:induction false} RunInv(q: seq<Item>, now: real, ops: seq<Op>)
    requires Inv(q, now) && Timely(now, ops)
    ensures Inv(Run(q, ops), if ops == [] then now else ops[|ops| - 1].now)
    decreases |ops|
  {
    if ops != [] {
      OpInv(q, now, ops[0]);
      RunInv(Apply(q, ops[0]), ops[0].now, ops[1..]);
    }
  }

  // ---------- the two purges ----------

  // The purge that the source has commented out: only from the head.
  function HeadPurged(q: seq<Item>, now: real): seq<Item> {
    if q != [] && Aged(q[0], now) then HeadPurged(q[1..], now) else q
  }

  ghost predicate AgedFirst(q: seq<Item>, now: real) {
    forall i, j :: 0 <= i < j < |q| && Aged(q[j], now) ==> Aged(q[i], now)
  }

  // The scanning purge and the head-only purge leave the same packets exactly when
  // no aged packet is behind one that is not.
  lemma {:induction false} PurgesAgreeExactly(q: seq<Item>, now: real)
    ensures HeadPurged(q, now) == Purged(q, now) <==> AgedFirst(q, now)
  {
    if q != [] {
      if Aged(q[0], now) {
        PurgesAgreeExactly(q[1..], now);
        assert forall j :: 0 < j < |q| ==> q[j] == q[1..][j - 1];
      } else {
        PurgedIs(q, now);
        if forall x :: x in q ==> !Aged(x, now) { PurgedNone(q, now); }
        if exists x :: x in q && Aged(x, now) {
          var x :| x in q && Aged(x, now);
          var j :| 0 <= j < |q| && q[j] == x;
          assert 0 < j && Aged(q[j], now) && !Aged(q[0], now);
        }
      }
    }
  }

  // So they agree in every run of a new buffer.
  lemma {:induction false} PurgesAgree(start: real, ops: seq<Op>, now: real)
    requires Timely(start, ops)
    ensures HeadPurged(Run([], ops), now) == Purged(Run([], ops), now)
  {
    RunInv([], start, ops);
    PurgesAgreeExactly(Run([], ops), now);
  }

  // ---------- what deque(dst) takes ----------

  // deque(dst) finds a packet exactly when one for `dst` has not expired, and takes
  // the oldest of them.
  lemma {:induction false} TakesOldest(start: real, ops: seq<Op>, dst: Addr, now: real)
    requires Timely(start, ops)
    ensures var q := Run([], ops);
      var r := Purged(q, now);
      var k := First(r, dst);
      && (k < |r| <==> exists x :: x in q && x.dst == dst && !Aged(x, now))
      && (k < |r| ==> r[k] in q && r[k].dst == dst && !Aged(r[k], now)
                      && forall x :: x in q && x.dst == dst && !Aged(x, now) ==> r[k].ts <= x.ts)
  {
    hide Run, Timely, Purged;
    var q := Run([], ops);
    var r := Purged(q, now);
    RunInv([], start, ops);
    PurgedIs(q, now);
    PurgedSorted(q, now);
    if First(r, dst) < |r| { assert r[First(r, dst)] in r; }
    forall x | x in q && x.dst == dst && !Aged(x, now) ensures First(r, dst) < |r| && r[First(r, dst)].ts <= x.ts {
      assert x in r;
      var j :| 0 <= j < |r| && r[j] == x;
    }
  }

  function For(q: seq<Item>, dst: Addr): seq<Item> {
    if q == [] then [] else if q[0].dst == dst then [q[0]] + For(q[1..], dst) else For(q[1..], dst)
  }

  function NotFor(q: seq<Item>, dst: Addr): seq<Item> {
    if q == [] then [] else if q[0].dst != dst then [q[0]] + NotFor(q[1..], dst) else NotFor(q[1..], dst)
  }

  // The loop of recvReply: deque(dst) until it finds nothing; what it sends and
  // what it leaves.
  function Drained(q: seq<Item>, dst: Addr, now: real): (seq<Item>, seq<Item>)
    decreases |Purged(q, now)|
  {
    var r := Purged(q, now);
    var k := First(r, dst);
    if k == |r| then ([], r)
    else
      PurgedTwice(q, now);
      PurgedWithout(r, k, now);
      var (out, rest) := Drained(Without(r, k), dst, now);
      ([r[k]] + out, rest)
  }

  lemma {:induction false} PurgedTwice(q: seq<Item>, now: real)
    ensures Purged(Purged(q, now), now) == Purged(q, now)
  {
    PurgedIs(q, now);
    PurgedNone(Purged(q, now), now);
  }

  lemma {:induction false} PurgedWithout(r: seq<Item>, k: nat, now: real)
    requires Purged(r, now) == r
    ensures Purged(Without(r, k), now) == Without(r, k)
  {
    PurgedIs(r, now);
    PurgedNone(Without(r, k), now);
  }

  lemma {:induction false} FilterCons(x: Item, t: seq<Item>, dst: Addr)
    ensures For([x] + t, dst) == if x.dst == dst then [x] + For(t, dst) else For(t, dst)
    ensures NotFor([x] + t, dst) == if x.dst == dst then NotFor(t, dst) else [x] + NotFor(t, dst)
  {}

  lemma {:induction false} FilterNone(r: seq<Item>, dst: Addr)
    requires forall x :: x in r ==> x.dst != dst
    ensures For(r, dst) == [] && NotFor(r, dst) == r
  {
    if r != [] {
      assert r == [r[0]] + r[1..];
      FilterNone(r[1..], dst);
    }
  }

  lemma {:induction false} FilterWithout(r: seq<Item>, dst: Addr, k: nat)
    requires k < |r| && r[k].dst == dst && forall j :: 0 <= j < k ==> r[j].dst != dst
    ensures For(r, dst) == [r[k]] + For(Without(r, k), dst) && NotFor(Without(r, k), dst) == NotFor(r, dst)
  {
    hide For, NotFor;
    assert r == [r[0]] + r[1..];
    FilterCons(r[0], r[1..], dst);
    if k == 0 {
      assert Without(r, 0) == r[1..];
    } else {
      FilterWithout(r[1..], dst, k - 1);
      assert Without(r, k) == [r[0]] + Without(r[1..], k - 1);
      FilterCons(r[0], Without(r[1..], k - 1), dst);
    }
  }

  // One turn of the draining loop.
  lemma {:induction false} DrainStep(q: seq<Item>, dst: Addr, now: real)
    ensures var r := Purged(q, now);
      var k := First(r, dst);
      && |r| <= |q|
      && (k == |r| ==> Drained(q, dst, now) == ([], r) && Without(r, k) == r)
      && (k < |r| ==> |Without(r, k)| < |q|)
      && (k < |r| ==> var d := Drained(Without(r, k), dst, now); Drained(q, dst, now) == ([r[k]] + d.0, d.1))
  {
    PurgedIs(q, now);
  }

  // The packets `out` are those of `items`.
  ghost predicate Holds(out: seq<Packet>, items: seq<Item>)
    reads out`ts
  {
    |out| == |items| && forall i :: 0 <= i < |out| ==> items[i] == Item(out[i].uid, out[i].dst, out[i].ts)
  }

  lemma {:induction false} HoldsNone(out: seq<Packet>)
    requires out == []
    ensures Holds(out, [])
  {}

  lemma {:induction false} HoldsOne(out: seq<Packet>, items: seq<Item>, p: Packet)
    requires Holds(out, items)
    ensures Holds(out + [p], items + [Item(p.uid, p.dst, p.ts)])
  {}

  lemma {:induction false} WithoutIn<T>(s: seq<T>, k: nat)
    ensures forall i :: 0 <= i < |Without(s, k)| ==> Without(s, k)[i] in s
  {}

  // A found route sends exactly the unexpired packets for its destination, in the
  // order in which they wait, and leaves the others in theirs.
  lemma {:induction false} DrainsInOrder(q: seq<Item>, dst: Addr, now: real)
    ensures Drained(q, dst, now) == (For(Purged(q, now), dst), NotFor(Purged(q, now), dst))
    decreases |Purged(q, now)|
  {
    var r := Purged(q, now);
    var k := First(r, dst);
    if k == |r| {
      FilterNone(r, dst);
    } else {
      FilterWithout(r, dst, k);
      PurgedTwice(q, now);
      PurgedWithout(r, k, now);
      DrainsInOrder(Without(r, k), dst, now);
    }
  }
}
