// AODV routing table entries (aodv_rtable.cc, and the entry updates of aodv.cc).
module AodvRoute {
  type Addr = nat

  // A hop count, with INFINITY2 as a value above all others.
  datatype Hops = Finite(n: nat) | Infinity

  datatype Flag = Down | Up | InRepair

  datatype Entry = Entry(
    dst: Addr,
    seqno: nat,
    hops: Hops,
    lastHopCount: nat,
    nexthop: Addr,
    flags: Flag,
    precursors: seq<Addr>,
    reqTimeout: real,
    reqCnt: nat,
    reqLastTtl: nat
  )

  const INFINITY2: nat := 255

  // The entry constructor.
  function Fresh(d: Addr): Entry {
    Entry(d, 0, Infinity, INFINITY2, 0, Down, [], 0.0, 0, 0)
  }

  function Below(h: nat, hops: Hops): bool {
    hops.Infinity? || h < hops.n
  }

  // The test that guards every route update: a fresher sequence number, or the
  // same one with fewer hops.
  predicate Improves(e: Entry, seqno: nat, hops: nat) {
    seqno > e.seqno || (seqno == e.seqno && Below(hops, e.hops))
  }

  function Update(e: Entry, seqno: nat, hops: nat, nexthop: Addr): Entry {
    e.(seqno := seqno, hops := Finite(hops), flags := Up, nexthop := nexthop)
  }

  // rt_down
  function Downed(e: Entry): Entry {
    if e.flags == Down then e
    else e.(lastHopCount := if e.hops.Finite? then e.hops.n else INFINITY2,
            hops := Infinity, flags := Down, nexthop := 0)
  }

  function PcInsert(e: Entry, id: Addr): Entry {
    if id in e.precursors then e else e.(precursors := [id] + e.precursors)
  }

  function Remove(s: seq<Addr>, id: Addr): seq<Addr> {
    if s == [] then [] else if s[0] == id then s[1..] else [s[0]] + Remove(s[1..], id)
  }

  function PcDelete(e: Entry, id: Addr): Entry {
    e.(precursors := Remove(e.precursors, id))
  }

  // ---------- the table ----------

  // The position of the entry for `d`, or the length of the table.
  function Find(t: seq<Entry>, d: Addr): (k: nat)
    ensures k <= |t| && (k < |t| ==> t[k].dst == d)
    ensures forall j :: 0 <= j < k ==> t[j].dst != d
  {
    if t == [] || t[0].dst == d then 0 else 1 + Find(t[1..], d)
  }

  // The entry for `d`, as a new one if there is none.
  function Get(t: seq<Entry>, d: Addr): (e: Entry)
    ensures e.dst == d
  {
    var k := Find(t, d);
    if k < |t| then t[k] else Fresh(d)
  }

  // Store an entry; a new one goes to the head of the list.
  function Put(t: seq<Entry>, e: Entry): seq<Entry> {
    var k := Find(t, e.dst);
    if k < |t| then t[k := e] else [e] + t
  }

  lemma {:induction false} FindAt(t: seq<Entry>, d: Addr, k: nat)
    requires k < |t| && t[k].dst == d && forall j :: 0 <= j < k ==> t[j].dst != d
    ensures Find(t, d) == k
  {}

  lemma {:induction false} GetPut(t: seq<Entry>, e: Entry, d: Addr)
    ensures Get(Put(t, e), d) == if d == e.dst then e else Get(t, d)
  {
    var k, m := Find(t, e.dst), Find(t, d);
    var p := Put(t, e);
    if k < |t| {
      if d == e.dst { FindAt(p, d, k); }
      else if m < |t| { FindAt(p, d, m); }
    } else {
      if d == e.dst { FindAt(p, d, 0); }
      else if m < |t| { FindAt(p, d, m + 1); }
    }
  }

  lemma {:induction false} GetAt(t: seq<Entry>, d: Addr)
    ensures Find(t, d) < |t| ==> Get(t, d) == t[Find(t, d)]
  {}

  lemma {:induction false} PutPut(t: seq<Entry>, e: Entry, f: Entry)
    requires e.dst == f.dst
    ensures Put(Put(t, e), f) == Put(t, f)
  {
    var k := Find(t, e.dst);
    FindAt(Put(t, e), e.dst, if k < |t| then k else 0);
  }

  // ---------- freshness ----------

  // `e` is at least as fresh as a route with this sequence number and hop count.
  ghost predicate AtLeast(e: Entry, seqno: nat, hops: nat) {
    e.seqno > seqno || (e.seqno == seqno && e.hops.Finite? && e.hops.n <= hops)
  }

  // Replacing `e` by `f` makes the route fresher or leaves it as fresh.
  ghost predicate NotWorse(e: Entry, f: Entry) {
    f.seqno > e.seqno || (f.seqno == e.seqno && (e.hops.Infinity? || (f.hops.Finite? && f.hops.n <= e.hops.n)))
  }

  // What the flags promise between handlers: a usable route has an even
  // sequence number and a finite hop count, an unusable one an odd number or 0.
  ghost predicate EntryOk(e: Entry) {
    if e.flags == Down then e.hops.Infinity? && (e.seqno % 2 == 1 || e.seqno == 0)
    else e.hops.Finite? && e.hops.n >= 1 && e.seqno >= 2 && e.seqno % 2 == 0
  }
}
