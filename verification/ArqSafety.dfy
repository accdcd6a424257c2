// Two endpoints that send each other a file. Packets in flight only accumulate: any
// of them may arrive at any time, in any order, more than once or never.
module ArqSafety {
  import opened Arq

  datatype Net = Net(a: Node, b: Node, toA: set<Pack>, toB: set<Pack>)

  datatype Event = Event(atA: bool, action: Action)

  datatype Action = Send | Arrives(p: Pack, junk: string)

  ghost function Swap(s: Net): Net {
    Net(s.b, s.a, s.toB, s.toA)
  }

  // What the action needs: a process that runs, a packet that was sent.
  ghost predicate PossibleAtA(s: Net, act: Action) {
    !s.a.exited && (act.Arrives? ==> act.p in s.toA)
  }

  // No access is out of the bounds of the slots.
  ghost predicate InBoundsAtA(s: Net, act: Action) {
    match act
    case Send => SendInRange(s.a)
    case Arrives(p, junk) => InRange(s.a, p)
  }

  ghost predicate Possible(s: Net, ev: Event) {
    PossibleAtA(if ev.atA then s else Swap(s), ev.action)
  }

  ghost predicate InBounds(s: Net, ev: Event) {
    InBoundsAtA(if ev.atA then s else Swap(s), ev.action)
  }

  ghost function StepAtA(s: Net, act: Action): Net
    requires InBoundsAtA(s, act)
  {
    var (n, out) := match act case Send => Sent(s.a) case Arrives(p, junk) => Received(s.a, p, junk);
    s.(a := n, toB := s.toB + set p | p in out)
  }

  ghost function Step(s: Net, ev: Event): Net
    requires InBounds(s, ev)
  {
    if ev.atA then StepAtA(s, ev.action) else Swap(StepAtA(Swap(s), ev.action))
  }

  // A new endpoint that has packed file `f`; the payloads of empty slots are whatever
  // the memory held.
  ghost predicate New(n: Node, f: string) {
    && |n.datato| == SLOTS && |n.datafrom| == SLOTS && Fits(f)
    && n.base == -1 && n.nextseq == 0 && !n.exited
    && n.datato == Packed(n.datato, f)
    && forall k :: 0 <= k < SLOTS ==> n.datafrom[k].ackno == -1 && (k >= |Chunks(f)| ==> n.datato[k].sno == n.datato[k].ackno == -1)
  }

  // The set-up in main.
  method Prepare(window: int, f: string) returns (e: Endpoint)
    requires Fits(f)
    ensures fresh(e) && e.Valid() && New(e.Abs(), f) && e.window == window
  {
    e := new Endpoint(window);
    e.MakePackets(f);
  }

  ghost predicate Initial(s: Net, f: string, g: string) {
    New(s.a, f) && New(s.b, g) && s.toA == {} && s.toB == {}
  }

  ghost predicate Legal(s: Net, evs: seq<Event>)
    decreases |evs|
  {
    evs == [] || (Possible(s, evs[0]) && InBounds(s, evs[0]) && Legal(Step(s, evs[0]), evs[1..]))
  }

  ghost function Run(s: Net, evs: seq<Event>): Net
    requires Legal(s, evs)
    decreases |evs|
  {
    if evs == [] then s else Run(Step(s, evs[0]), evs[1..])
  }

  // ---------- the invariant of one direction ----------

  // Slots that hold the pieces of a file, each acknowledged or not.
  ghost predicate Holds(buffer: seq<Pack>, c: seq<string>) {
    && |buffer| == SLOTS && 1 <= |c| < SLOTS
    && (forall k :: 0 <= k < |c| ==> buffer[k].sno == k && buffer[k].payload == CStr(c[k]) && (buffer[k].ackno == -1 || buffer[k].ackno == 1))
    && (forall k :: |c| <= k < SLOTS ==> buffer[k].sno == buffer[k].ackno == -1)
  }

  ghost predicate SenderOk(x: Node, c: seq<string>) {
    && Holds(x.datato, c)
    && if x.base == -1 then x.nextseq == 0 && !x.exited && forall k :: 0 <= k < SLOTS ==> x.datato[k].ackno == -1
       else 0 <= x.base <= SLOTS && x.base == FirstUnacked(x.datato, 0) && 1 <= x.nextseq <= |c| && (x.exited <==> x.nextseq == |c|)
  }

  ghost predicate ReceiverOk(y: Node, c: seq<string>) {
    && |y.datafrom| == SLOTS
    && forall k :: 0 <= k < SLOTS && y.datafrom[k].ackno == 1 ==> k < |c| && y.datafrom[k].payload == CStr(c[k])
  }

  // A packet from the sender of the file.
  ghost predicate DataOk(p: Pack, c: seq<string>) {
    p.sno != -1 ==> 0 <= p.sno < |c| && p.payload == CStr(c[p.sno])
  }

  // A packet from the receiver of the file.
  ghost predicate AckOk(y: Node, p: Pack, c: seq<string>) {
    p.sno == -1 ==> 0 <= p.ackno < |c| && p.ackno < |y.datafrom| && y.datafrom[p.ackno].ackno == 1
  }

  // File `f` on its way from x to y.
  ghost predicate Half(x: Node, y: Node, toX: set<Pack>, toY: set<Pack>, c: seq<string>) {
    && SenderOk(x, c) && ReceiverOk(y, c)
    && (forall p :: p in toY ==> DataOk(p, c))
    && (forall p :: p in toX ==> AckOk(y, p, c))
    && (x.base == -1 ==> forall p :: p in toY ==> p.sno == -1)
    && (forall k :: 0 <= k < SLOTS && y.datafrom[k].ackno == 1 ==> x.base >= 0)
    && (forall k :: 0 <= k < SLOTS && x.datato[k].ackno == 1 ==> y.datafrom[k].ackno == 1)
  }

  ghost predicate Inv(s: Net, f: string, g: string) {
    && Half(s.a, s.b, s.toA, s.toB, Chunks(f))
    && Half(s.b, s.a, s.toB, s.toA, Chunks(g))
  }

  lemma {:induction false} InvInBounds(s: Net, f: string, g: string, act: Action)
    requires Inv(s, f, g) && PossibleAtA(s, act)
    ensures InBoundsAtA(s, act)
  {}

  // ---------- one step ----------

  lemma {:induction false} FirstUnackedIs(buffer: seq<Pack>, i: nat, k: nat)
    requires i <= k <= |buffer| && (forall j :: i <= j < k ==> buffer[j].ackno == 1) && (k < |buffer| ==> buffer[k].ackno != 1)
    ensures FirstUnacked(buffer, i) == k
  {}

  lemma {:induction false} AckKeeps(s: Net, c: seq<string>, d: seq<string>, p: Pack)
    requires Half(s.a, s.b, s.toA, s.toB, c) && Half(s.b, s.a, s.toB, s.toA, d)
    requires p in s.toA && p.sno == -1 && AckInRange(s.a, p) && !s.a.exited
    ensures Half(Acked(s.a, p), s.b, s.toA, s.toB, c) && Half(s.b, Acked(s.a, p), s.toB, s.toA, d)
  {
    assert AckOk(s.b, p, c);
    var n := Acked(s.a, p);
    FirstUnackedIs(n.datato, 0, n.base);
  }

  lemma {:induction false} DataKeeps(s: Net, c: seq<string>, d: seq<string>, p: Pack, junk: string)
    requires Half(s.a, s.b, s.toA, s.toB, c) && Half(s.b, s.a, s.toB, s.toA, d)
    requires p in s.toA && p.ackno == -1 && p.sno != -1 && DataInRange(s.a, p)
    ensures var n := Stored(s.a, p);
      var toB := s.toB + {Pack(-1, p.sno, junk)};
      Half(n, s.b, s.toA, toB, c) && Half(s.b, n, toB, s.toA, d)
  {
    assert DataOk(p, d);
    CStrTwice(d[p.sno]);
  }

  lemma {:induction false} ResentFrom(buffer: seq<Pack>, i: nat, next: nat)
    requires |buffer| == SLOTS && next < SLOTS
    ensures forall p :: p in Resent(buffer, i, next) ==> p == buffer[next]
    decreases next - i
  {
    if i < next { ResentFrom(buffer, i + 1, next); }
  }

  lemma {:induction false} BurstFrom(n: Node, next: nat)
    requires |n.datato| == SLOTS && n.datato[SLOTS - 1].sno == -1 && next < SLOTS
    ensures forall p :: p in Burst(n, next).0 ==> p in n.datato && p.sno != -1
    ensures forall k :: next <= k < Burst(n, next).1 ==> n.datato[k].sno != -1
    decreases SLOTS - next
  {
    if next - n.base < n.window && n.datato[next].sno != -1 { BurstFrom(n, next + 1); }
  }

  lemma {:induction false} SendKeeps(s: Net, c: seq<string>, d: seq<string>)
    requires Half(s.a, s.b, s.toA, s.toB, c) && Half(s.b, s.a, s.toB, s.toA, d)
    requires SendInRange(s.a) && !s.a.exited
    ensures var (n, out) := Sent(s.a);
      var toB := s.toB + set p | p in out;
      Half(n, s.b, s.toA, toB, c) && Half(s.b, n, toB, s.toA, d)
  {
    hide SenderOk;
    SentData(s.a, c);
  }

  // What sendpacket sends are pieces of the file, and where it stops.
  lemma {:induction false} SentData(n: Node, c: seq<string>)
    requires SenderOk(n, c) && SendInRange(n) && !n.exited
    ensures SenderOk(Sent(n).0, c) && Sent(n).0.base >= 0
    ensures forall p :: p in Sent(n).1 ==> p.sno != -1 && DataOk(p, c)
  {
    var n1 := if n.base == -1 then n.(base := 0, nextseq := 1) else n;
    if n.base >= 0 { ResentFrom(n.datato, n.base, n.nextseq); }
    BurstFrom(n1, n1.nextseq);
    var last := Burst(n1, n1.nextseq).1;
    assert n.datato[|c|].sno == -1 && n1.nextseq <= |c|;
  }

  lemma {:induction false} StepKeeps(s: Net, f: string, g: string, act: Action)
    requires Inv(s, f, g) && PossibleAtA(s, act) && InBoundsAtA(s, act)
    ensures Inv(StepAtA(s, act), f, g)
  {
    var c, d := Chunks(f), Chunks(g);
    match act
    case Send => SendKeeps(s, c, d);
    case Arrives(p, junk) =>
      assert AckOk(s.b, p, c);
      if p.sno == -1 { AckKeeps(s, c, d, p); }
      if p.ackno == -1 { DataKeeps(s, c, d, p, junk); }
      assert (set q | q in Received(s.a, p, junk).1) == if p.ackno == -1 then {Pack(-1, p.sno, junk)} else {};
      assert s.toB + {} == s.toB;
  }

  lemma {:induction false} NewInv(s: Net, f: string, g: string)
    requires Initial(s, f, g)
    ensures Inv(s, f, g)
  {}

  // In every run no access of either endpoint is out of the bounds of its slots.
  lemma {:induction false} RunInv(s: Net, f: string, g: string, evs: seq<Event>)
    requires Inv(s, f, g) && Legal(s, evs)
    ensures Inv(Run(s, evs), f, g)
    ensures forall ev :: Possible(Run(s, evs), ev) ==> InBounds(Run(s, evs), ev)
    decreases |evs|
  {
    hide Half;
    if evs == [] {
      forall ev | Possible(s, ev) ensures InBounds(s, ev) {
        if ev.atA { InvInBounds(s, f, g, ev.action); } else { InvInBounds(Swap(s), g, f, ev.action); }
      }
    } else {
      var ev := evs[0];
      if ev.atA { StepKeeps(s, f, g, ev.action); } else { StepKeeps(Swap(s), g, f, ev.action); }
      RunInv(Step(s, ev), f, g, evs[1..]);
    }
  }

  // ---------- what the peer has ----------

  // The run as the sender of file `f`, in `a`, sees it.
  ghost function View(s: Net, fromA: bool): Net {
    if fromA then s else Swap(s)
  }

  lemma {:induction false} RunHalf(s: Net, f: string, g: string, evs: seq<Event>, fromA: bool)
    requires Initial(s, f, g) && Legal(s, evs)
    ensures var v := View(Run(s, evs), fromA); Half(v.a, v.b, v.toA, v.toB, Chunks(if fromA then f else g))
  {
    hide Half;
    NewInv(s, f, g);
    RunInv(s, f, g, evs);
  }

  // Each slot acknowledged at the sender is filled at the peer, with the same piece.
  lemma {:induction false} AckedDelivered(s: Net, f: string, g: string, evs: seq<Event>, fromA: bool, k: nat)
    requires Initial(s, f, g) && Legal(s, evs) && k < SLOTS
    ensures var v := View(Run(s, evs), fromA);
      |v.a.datato| == |v.b.datafrom| == SLOTS &&
      (v.a.datato[k].ackno == 1 ==> v.b.datafrom[k].ackno == 1 && v.b.datafrom[k].payload == v.a.datato[k].payload)
  {
    RunHalf(s, f, g, evs, fromA);
  }

  // Once sending has begun, `base` is the length of the longest prefix of
  // acknowledged slots.
  lemma {:induction false} BaseIsAckedPrefix(s: Net, f: string, g: string, evs: seq<Event>, fromA: bool)
    requires Initial(s, f, g) && Legal(s, evs)
    ensures var n := View(Run(s, evs), fromA).a;
      && |n.datato| == SLOTS
      && if n.base == -1 then forall k :: 0 <= k < SLOTS ==> n.datato[k].ackno == -1
         else 0 <= n.base < SLOTS && n.datato[n.base].ackno == -1 && forall k :: 0 <= k < n.base ==> n.datato[k].ackno == 1
  {
    RunHalf(s, f, g, evs, fromA);
    var n := View(Run(s, evs), fromA).a;
    assert n.datato[SLOTS - 1].ackno == -1;
  }

  function Concat(c: seq<string>): string {
    if c == [] then "" else c[0] + Concat(c[1..])
  }

  function Min(a: nat, b: nat): nat { if a < b then a else b }

  lemma {:induction false} ChunksPrefix(f: string, k: nat)
    requires k <= |Chunks(f)|
    ensures Concat(Chunks(f)[..k]) == f[..Min(19 * k, |f|)]
  {
    if k > 0 && f != "" {
      var m := Min(CHUNK, |f|);
      var rest := Chunks(f[m..])[..k - 1];
      assert Chunks(f)[..k] == [f[..m]] + rest;
      hide Chunks;
      ChunksPrefix(f[m..], k - 1);
      assert ([f[..m]] + rest)[1..] == rest;
      hide Concat;
      assert f[..m] + f[m..][..Min(CHUNK * (k - 1), |f[m..]|)] == f[..Min(CHUNK * k, |f|)];
    } else if k > 0 {
      assert Chunks(f)[..k] == [""];
      assert [""][1..] == [];
    }
  }

  ghost function Copied(c: seq<string>): seq<string> {
    seq(|c|, i requires 0 <= i < |c| => CStr(c[i]))
  }

  lemma {:induction false} CStrIs(a: string)
    ensures |CStr(a)| <= |a| && (|CStr(a)| == |a| ==> '\0' !in a) && ('\0' !in a ==> CStr(a) == a)
  {
    if a != "" && a[0] != '\0' {
      CStrIs(a[1..]);
      assert a == [a[0]] + a[1..];
    }
  }

  lemma {:induction false} CopiedIs(c: seq<string>)
    ensures |Concat(Copied(c))| <= |Concat(c)|
    ensures Concat(Copied(c)) == Concat(c) <==> '\0' !in Concat(c)
    ensures |Concat(Copied(c))| == |Concat(c)| ==> '\0' !in Concat(c)
  {
    if c != [] {
      CStrIs(c[0]);
      CopiedIs(c[1..]);
      assert Copied(c)[1..] == Copied(c[1..]);
    }
  }

  lemma {:induction false} PayloadsAre(v: Net, c: seq<string>)
    requires Half(v.a, v.b, v.toA, v.toB, c) && v.a.base >= 0
    ensures v.a.base <= |c| && Payloads(v.b.datafrom[..v.a.base]) == Copied(c[..v.a.base])
  {
    var n := v.a;
    assert forall k :: 0 <= k < n.base ==> n.datato[k].ackno == 1;
    assert n.datato[|c|].ackno == -1;
    forall k | 0 <= k < n.base ensures v.b.datafrom[k].payload == CStr(c[k]) {
      assert n.datato[k].ackno == 1;
    }
  }

  // The payloads of the first `base` slots of the peer, put together, are the
  // beginning of the file, exactly when there is no NUL in that part of the file.
  lemma {:induction false} PrefixDelivered(s: Net, f: string, g: string, evs: seq<Event>, fromA: bool)
    requires Initial(s, f, g) && Legal(s, evs) && View(Run(s, evs), fromA).a.base >= 0
    ensures var v := View(Run(s, evs), fromA);
      var file := if fromA then f else g;
      var part := file[..Min(CHUNK * v.a.base, |file|)];
      && v.a.base <= |v.b.datafrom|
      && (Concat(Payloads(v.b.datafrom[..v.a.base])) == part <==> '\0' !in part)
  {
    RunHalf(s, f, g, evs, fromA);
    BaseIsAckedPrefix(s, f, g, evs, fromA);
    var v := View(Run(s, evs), fromA);
    var file := if fromA then f else g;
    var c := Chunks(file);
    var base := v.a.base;
    PayloadsAre(v, c);
    hide Half, Copied, Payloads, Concat, Legal, Run, Initial;
    ChunksPrefix(file, base);
    CopiedIs(c[..base]);
  }

  ghost function Payloads(slots: seq<Pack>): seq<string> {
    seq(|slots|, i requires 0 <= i < |slots| => slots[i].payload)
  }

  // A process ends exactly when it has sent every piece, the empty one included;
  // it does not wait for acknowledgements.
  lemma {:induction false} EndsWhenAllSent(s: Net, f: string, g: string, evs: seq<Event>, fromA: bool)
    requires Initial(s, f, g) && Legal(s, evs)
    ensures var n := View(Run(s, evs), fromA).a; n.exited <==> n.nextseq == |Chunks(if fromA then f else g)|
  {
    RunHalf(s, f, g, evs, fromA);
  }
}
