// A link that takes part in signalled admission control: the admission controller
// that sums reserved rates (param-adc.cc) and the link module that watches the
// signalling packets pass (salink.cc).
module SignalledLink {
  import opened Wrappers

  datatype Kind = Request | Accept | Reject | Confirm | Teardown

  datatype Packet = Packet(kind: Kind, flowid: int, rate: real, decision: bool)

  const NFLOWS: nat := 500
  const NONE: int := -1

  // ---------- the link as a value ----------

  datatype Link = Link(limit: real, resv: real, pending: seq<int>, numfl: int)

  function NewLink(limit: real): Link {
    Link(limit, 0.0, seq(NFLOWS, _ => NONE), -1)
  }

  // The first slot that holds `x`, or the length if none does.
  function First(s: seq<int>, x: int): (k: nat)
    ensures k <= |s| && (k < |s| <==> x in s) && (k < |s| ==> s[k] == x)
    ensures forall j :: 0 <= j < k ==> s[j] != x
  {
    if s == [] then 0 else if s[0] == x then 0 else 1 + First(s[1..], x)
  }

  function Admits(l: Link, rate: real): bool {
    l.resv + rate <= l.limit
  }

  // recv: the link and the packet afterwards, or None when the program exits.
  function Pass(l: Link, p: Packet): Option<(Link, Packet)> {
    match p.kind
    case Request =>
      if !Admits(l, p.rate) then Some((l, p.(decision := false)))
      else if NONE !in l.pending then None
      else Some((l.(resv := l.resv + p.rate, pending := l.pending[First(l.pending, NONE) := p.flowid], numfl := l.numfl + 1), p))
    case Confirm =>
      if p.flowid !in l.pending then Some((l, p))
      else
        var l1 := l.(pending := l.pending[First(l.pending, p.flowid) := NONE]);
        Some((if p.decision then l1 else l1.(resv := l.resv - p.rate, numfl := l.numfl - 1), p))
    case Teardown => Some((l.(resv := l.resv - p.rate, numfl := l.numfl - 1), p))
    case _ => Some((l, p))
  }

  // ---------- the link as objects ----------

  class ParamADC {
    const utilization: real
    const bandwidth: real
    var resvRate: real

    constructor (utilization: real, bandwidth: real)
      ensures this.utilization == utilization && this.bandwidth == bandwidth && resvRate == 0.0
    {
      this.utilization, this.bandwidth, resvRate := utilization, bandwidth, 0.0;
    }

    method RejAction(p: real)
      modifies this
      ensures resvRate == old(resvRate) - p
    {
      resvRate := resvRate - p;
    }

    method TeardownAction(p: real)
      modifies this
      ensures resvRate == old(resvRate) - p
    {
      resvRate := resvRate - p;
    }

    method AdmitFlow(r: real) returns (decide: bool)
      modifies this
      ensures decide == (old(resvRate) + r <= utilization * bandwidth)
      ensures resvRate == if decide then old(resvRate) + r else old(resvRate)
    {
      if resvRate + r <= utilization * bandwidth {
        resvRate := resvRate + r;
        return true;
      }
      return false;
    }
  }

  class SALink {
    const adc: ParamADC
    const pending: array<int>
    var numfl: int

    ghost predicate Valid()
      reads this
    {
      pending.Length == NFLOWS
    }

    ghost function Abs(): Link
      reads this, adc, pending
    {
      Link(adc.utilization * adc.bandwidth, adc.resvRate, pending[..], numfl)
    }

    constructor (adc: ParamADC)
      requires adc.resvRate == 0.0
      ensures Valid() && this.adc == adc && fresh(pending) && Abs() == NewLink(adc.utilization * adc.bandwidth)
    {
      this.adc, numfl := adc, -1;
      pending := new int[NFLOWS](_ => NONE);
    }

    // -1 if there is none
    method Lookup(flowid: int) returns (j: int)
      requires Valid()
      ensures j == if flowid in pending[..] then First(pending[..], flowid) else -1
    {
      var i := 0;
      while i < NFLOWS
        invariant 0 <= i <= NFLOWS && First(pending[..], flowid) == i + First(pending[i..], flowid)
      {
        if pending[i] == flowid { return i; }
        assert pending[i..][1..] == pending[i + 1..];
        i := i + 1;
      }
      return -1;
    }

    // None is the exit when no slot is free.
    method GetNxt() returns (j: Option<int>)
      requires Valid()
      ensures j == if NONE in pending[..] then Some(First(pending[..], NONE)) else None
    {
      var i := 0;
      while i < NFLOWS
        invariant 0 <= i <= NFLOWS && First(pending[..], NONE) == i + First(pending[i..], NONE)
      {
        if pending[i] == NONE { return Some(i); }
        assert pending[i..][1..] == pending[i + 1..];
        i := i + 1;
      }
      return None;
    }

    // `sent` is the packet passed on, or None when the program exits.
    method Recv(p: Packet) returns (sent: Option<Packet>)
      requires Valid()
      modifies this, adc, pending
      ensures Valid()
      ensures match Pass(old(Abs()), p) { case None => sent == None case Some(r) => (Abs(), sent) == (r.0, Some(r.1)) }
    {
      match p.kind
      case Request =>
        var decide := adc.AdmitFlow(p.rate);
        if decide {
          var j := GetNxt();
          if j.None? { return None; }
          pending[j.value] := p.flowid;
          numfl := numfl + 1;
        }
        return Some(p.(decision := p.decision && decide));
      case Confirm =>
        var j := Lookup(p.flowid);
        if j != -1 {
          if !p.decision {
            adc.RejAction(p.rate);
            numfl := numfl - 1;
          }
          pending[j] := NONE;
        }
        return Some(p);
      case Teardown =>
        adc.TeardownAction(p.rate);
        numfl := numfl - 1;
        return Some(p);
      case _ => return Some(p);
    }
  }
}
