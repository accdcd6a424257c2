// The sliding window exchange of files between two endpoints (exp5/peer.c and
// exp5/client1.c, which run the same code over the two ends of one connection).
module Arq {
  import opened Wrappers

  datatype Pack = Pack(sno: int, ackno: int, payload: string)

  const SLOTS: nat := 100
  const CHUNK: nat := 19

  // strcpy: what comes before the first NUL.
  function CStr(a: string): string {
    if a == "" || a[0] == '\0' then "" else [a[0]] + CStr(a[1..])
  }

  lemma {:induction false} CStrTwice(a: string)
    ensures CStr(CStr(a)) == CStr(a)
  {
    if a != "" && a[0] != '\0' { CStrTwice(a[1..]); }
  }

  // The reads of makepackets: pieces of 19 characters, and last an empty one.
  function Chunks(f: string): (c: seq<string>)
    ensures |c| >= 1
  {
    if f == "" then [""]
    else
      var k := if |f| < CHUNK then |f| else CHUNK;
      [f[..k]] + Chunks(f[k..])
  }

  // `datato` and `datafrom` are the slots sent from and received into.
  datatype Node = Node(window: int, datato: seq<Pack>, base: int, nextseq: int, datafrom: seq<Pack>, exited: bool)

  // ---------- the steps as functions ----------

  // A file and its empty last piece leave at least one slot unused.
  predicate Fits(f: string) { |Chunks(f)| < SLOTS }

  function Packed(buffer: seq<Pack>, f: string): seq<Pack>
    requires |buffer| == SLOTS && |Chunks(f)| <= SLOTS
  {
    seq(SLOTS, k requires 0 <= k < SLOTS => if k < |Chunks(f)| then Pack(k, -1, CStr(Chunks(f)[k])) else buffer[k])
  }

  function FirstUnacked(buffer: seq<Pack>, i: nat): (k: nat)
    requires i <= |buffer|
    ensures i <= k <= |buffer|
    ensures (forall j :: i <= j < k ==> buffer[j].ackno == 1) && (k < |buffer| ==> buffer[k].ackno != 1)
    decreases |buffer| - i
  {
    if i < |buffer| && buffer[i].ackno == 1 then FirstUnacked(buffer, i + 1) else i
  }

  // No access of a step is out of the bounds of the slots.
  predicate AckInRange(n: Node, p: Pack) {
    |n.datato| == SLOTS && 0 <= p.ackno < SLOTS && 0 <= n.base <= SLOTS
  }

  predicate DataInRange(n: Node, p: Pack) {
    |n.datafrom| == SLOTS && 0 <= p.sno < SLOTS
  }

  predicate SendInRange(n: Node) {
    && |n.datato| == SLOTS && n.datato[SLOTS - 1].sno == -1
    && (n.base == -1 ==> n.nextseq == 0) && -1 <= n.base && 0 <= n.nextseq < SLOTS
  }

  predicate InRange(n: Node, p: Pack) {
    (p.sno == -1 ==> AckInRange(n, p)) && (p.ackno == -1 ==> DataInRange(n, p))
  }

  function Acked(n: Node, p: Pack): Node
    requires AckInRange(n, p)
  {
    var buffer := n.datato[p.ackno := n.datato[p.ackno].(ackno := 1)];
    n.(datato := buffer, base := FirstUnacked(buffer, n.base))
  }

  function Stored(n: Node, p: Pack): Node
    requires DataInRange(n, p)
  {
    if n.datafrom[p.sno].ackno == 1 then n
    else n.(datafrom := n.datafrom[p.sno := n.datafrom[p.sno].(ackno := 1, payload := CStr(p.payload))])
  }

  // The receive step; `junk` is what the stack holds where an acknowledgement has
  // its payload.
  function Received(n: Node, p: Pack, junk: string): (Node, seq<Pack>)
    requires InRange(n, p)
  {
    var n1 := if p.sno == -1 then Acked(n, p) else n;
    if p.ackno == -1 then (Stored(n1, p), [Pack(-1, p.sno, junk)]) else (n1, [])
  }

  // The packet in slot `next`, once for each slot from i that is not acknowledged.
  function Resent(buffer: seq<Pack>, i: nat, next: nat): seq<Pack>
    requires |buffer| == SLOTS && next < SLOTS
    decreases next - i
  {
    if i >= next then []
    else (if buffer[i].ackno == -1 then [buffer[next]] else []) + Resent(buffer, i + 1, next)
  }

  // The slots sent while the window is open, and the next slot after them.
  function Burst(n: Node, next: nat): (r: (seq<Pack>, nat))
    requires |n.datato| == SLOTS && n.datato[SLOTS - 1].sno == -1 && next < SLOTS
    ensures next <= r.1 < SLOTS
    decreases SLOTS - next
  {
    if next - n.base < n.window && n.datato[next].sno != -1 then
      var (out, last) := Burst(n, next + 1);
      ([n.datato[next]] + out, last)
    else ([], next)
  }

  lemma {:induction false} BurstGoesOn(n: Node, next: nat)
    requires |n.datato| == SLOTS && n.datato[SLOTS - 1].sno == -1 && next < SLOTS
    requires next - n.base < n.window && n.datato[next].sno != -1
    ensures next + 1 < SLOTS
    ensures Burst(n, next) == ([n.datato[next]] + Burst(n, next + 1).0, Burst(n, next + 1).1)
  {}

  lemma {:induction false} BurstStops(n: Node, next: nat)
    requires |n.datato| == SLOTS && n.datato[SLOTS - 1].sno == -1 && next < SLOTS
    requires next - n.base >= n.window || n.datato[next].sno == -1
    ensures Burst(n, next) == ([], next)
  {}

  function Sent(n: Node): (Node, seq<Pack>)
    requires SendInRange(n)
  {
    var n1 := if n.base == -1 then n.(base := 0, nextseq := 1) else n;
    var first := if n.base == -1 then [n.datato[0]] else Resent(n.datato, n.base, n.nextseq);
    var (out, last) := Burst(n1, n1.nextseq);
    (n1.(nextseq := last, exited := n.exited || n.datato[last].sno == -1), first + out)
  }

  // ---------- the endpoint ----------

  class Endpoint {
    var window: int
    const datato: array<Pack>
    const datafrom: array<Pack>
    var base: int
    var nextseq: int
    var exited: bool

    ghost predicate Valid()
      reads this
    {
      datato != datafrom && datato.Length == SLOTS && datafrom.Length == SLOTS
    }

    ghost function Abs(): Node
      reads this, datato, datafrom
    {
      Node(window, datato[..], base, nextseq, datafrom[..], exited)
    }

    constructor (window: int)
      ensures Valid() && fresh(datato) && fresh(datafrom)
      ensures this.window == window && base == -1 && nextseq == 0 && !exited
      ensures forall k :: 0 <= k < SLOTS ==> datato[k].sno == datato[k].ackno == datafrom[k].sno == datafrom[k].ackno == -1
    {
      this.window, base, nextseq, exited := window, -1, 0, false;
      datato := new Pack[SLOTS];
      datafrom := new Pack[SLOTS];
      new;
      MakeInvalid(datato);
      MakeInvalid(datafrom);
    }

    static method MakeInvalid(buffer: array<Pack>)
      requires buffer.Length == SLOTS
      modifies buffer
      ensures forall k :: 0 <= k < SLOTS ==> buffer[k] == old(buffer[k]).(sno := -1, ackno := -1)
    {
      for i := 0 to SLOTS
        invariant forall k :: 0 <= k < SLOTS ==> buffer[k] == if k < i then old(buffer[k]).(sno := -1, ackno := -1) else old(buffer[k])
      {
        buffer[i] := buffer[i].(sno := -1, ackno := -1);
      }
    }

    method MakePackets(f: string)
      requires Valid() && |Chunks(f)| <= SLOTS
      modifies datato
      ensures datato[..] == Packed(old(datato[..]), f)
    {
      var i, rest, read := 0, f, 1;
      ghost var c := Chunks(f);
      while read != 0
        invariant 0 <= i <= |c|
        invariant if read != 0 then i < |c| && Chunks(rest) == c[i..] else i == |c| && rest == ""
        invariant forall k :: 0 <= k < SLOTS ==> datato[k] == if k < i then Pack(k, -1, CStr(c[k])) else old(datato[k])
        decreases |rest|, read
      {
        read := if |rest| < CHUNK then |rest| else CHUNK;
        assert Chunks(rest)[0] == rest[..read] == c[i] && (read != 0 ==> Chunks(rest)[1..] == c[i + 1..] && |Chunks(rest)| > 1);
        datato[i] := Pack(i, -1, CStr(rest[..read]));
        i, rest := i + 1, rest[read..];
      }
    }

    method SendPacket() returns (sent: seq<Pack>)
      requires Valid() && SendInRange(Abs())
      modifies this
      ensures Valid() && (Abs(), sent) == Sent(old(Abs()))
    {
      hide Burst, Resent;
      sent := Resend();
      var more := FillWindow();
      sent := sent + more;
      if datato[nextseq].sno == -1 { exited := true; }
    }

    // The first loop of sendpacket: the very first packet, or the retransmissions.
    method Resend() returns (sent: seq<Pack>)
      requires Valid() && SendInRange(Abs())
      modifies this`base, this`nextseq
      ensures var n := old(Abs());
        && Abs() == (if n.base == -1 then n.(base := 0, nextseq := 1) else n)
        && sent == if n.base == -1 then [n.datato[0]] else Resent(n.datato, n.base, n.nextseq)
    {
      var next, bas := nextseq, base;
      sent := [];
      ghost var n := Abs();
      var i := bas;
      while i < next
        invariant Abs() == if bas == old(base) then n else n.(base := 0, nextseq := 1)
        invariant old(base) == -1 ==> -1 <= i <= 0 && bas == i && sent == if i == -1 then [] else [n.datato[0]]
        invariant old(base) >= 0 ==> i >= 0 && bas == old(base) && sent + Resent(n.datato, i, next) == Resent(n.datato, bas, next)
      {
        if bas == -1 {
          sent := sent + [datato[next]];
          bas := bas + 1;
          base := bas;
          nextseq := 1;
        } else if datato[i].ackno == -1 {
          sent := sent + [datato[next]];
        }
        i := i + 1;
      }
    }

    // The second loop of sendpacket.
    method FillWindow() returns (sent: seq<Pack>)
      requires Valid() && datato[SLOTS - 1].sno == -1 && 0 <= nextseq < SLOTS
      modifies this`nextseq
      ensures var r := Burst(old(Abs()), old(nextseq)); Abs() == old(Abs()).(nextseq := r.1) && sent == r.0
    {
      hide Burst;
      var next := nextseq;
      sent := [];
      ghost var n := Abs();
      ghost var burst := Burst(n, next);
      assert sent + burst.0 == burst.0;
      while nextseq - base < window && datato[next].sno != -1
        invariant 0 <= next == nextseq < SLOTS && Abs() == n.(nextseq := next)
        invariant sent + Burst(n, next).0 == burst.0 && Burst(n, next).1 == burst.1
        decreases SLOTS - next
      {
        BurstGoesOn(n, next);
        assert sent + ([datato[next]] + Burst(n, next + 1).0) == (sent + [datato[next]]) + Burst(n, next + 1).0;
        sent := sent + [datato[next]];
        next := next + 1;
        nextseq := next;
      }
      BurstStops(n, next);
      assert sent + [] == sent;
    }

    method AckProcess(p: Pack)
      requires Valid() && AckInRange(Abs(), p)
      modifies this, datato
      ensures Valid() && Abs() == Acked(old(Abs()), p)
    {
      datato[p.ackno] := datato[p.ackno].(ackno := 1);
      ghost var buffer := datato[..];
      ghost var first := FirstUnacked(buffer, base);
      var i := base;
      while i < SLOTS && datato[i].ackno == 1
        invariant 0 <= i == base <= first <= SLOTS && datato[..] == buffer
        invariant Valid() && unchanged(datafrom) && window == old(window) && nextseq == old(nextseq) && exited == old(exited)
      {
        base := base + 1;
        i := i + 1;
      }
    }

    method DataProcess(p: Pack)
      requires Valid() && DataInRange(Abs(), p)
      modifies datafrom
      ensures Abs() == Stored(old(Abs()), p)
    {
      if datafrom[p.sno].ackno == 1 { return; }
      datafrom[p.sno] := datafrom[p.sno].(ackno := 1);
      datafrom[p.sno] := datafrom[p.sno].(payload := CStr(p.payload));
    }

    method Receive(p: Pack, junk: string) returns (sent: seq<Pack>)
      requires Valid() && InRange(Abs(), p)
      modifies this, datato, datafrom
      ensures Valid() && (Abs(), sent) == Received(old(Abs()), p, junk)
    {
      sent := [];
      if p.sno == -1 { AckProcess(p); }
      if p.ackno == -1 {
        DataProcess(p);
        sent := [Pack(-1, p.sno, junk)];
      }
    }
  }
}
