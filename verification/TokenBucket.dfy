// The token bucket filter (tbf.cc). Clock values are parameters, and the timer is
// the deadline it is set for. A packet is `size` bytes; tokens are bits.
module TokenBucket {
  import opened Wrappers

  datatype Packet = Packet(uid: nat, size: nat) {
    function Bits(): nat { 8 * size }
  }

  datatype Settings = Settings(rate: real, bucket: int, qlen: int)

  // A filter that is ever to send again has a positive rate.
  type Config = c: Settings | c.rate > 0.0 witness Settings(1.0, 0, 0)

  datatype State = State(tokens: real, last: real, init: bool, queue: seq<Packet>, deadline: Option<real>)

  datatype Outcome = Forwarded(p: Packet) | Queued | Dropped

  const Start: State := State(0.0, 0.0, true, [], None)

  // ---------- the operations as functions ----------

  // The tokens that come in time `dt`, and the time in which `bits` tokens come.
  function Gain(rate: real, dt: real): real { dt * rate }

  function Wait(rate: real, bits: real): real
    requires rate > 0.0
  {
    bits / rate
  }

  // getupdatedtokens
  function Updated(c: Config, s: State, now: real): State {
    var t := s.tokens + Gain(c.rate, now - s.last);
    s.(tokens := if t > c.bucket as real then c.bucket as real else t, last := now)
  }

  function Armed(c: Config, s: State, now: real): State {
    if s.queue == [] then s.(deadline := None)
    else s.(deadline := Some(now + Wait(c.rate, s.queue[0].Bits() as real - s.tokens)))
  }

  function Filled(c: Config, s: State, now: real): State {
    if s.init then s.(tokens := c.bucket as real, last := now, init := false) else s
  }

  function Received(c: Config, s: State, p: Packet, now: real): (State, Outcome) {
    var s0 := Filled(c, s, now);
    if s0.queue != [] then
      if |s0.queue| < c.qlen then (s0.(queue := s0.queue + [p]), Queued) else (s0, Dropped)
    else
      var s1 := Updated(c, s0, now);
      if s1.tokens >= p.Bits() as real then (s1.(tokens := s1.tokens - p.Bits() as real), Forwarded(p))
      else if c.qlen != 0 then (Armed(c, s1.(queue := [p]), now), Queued)
      else (s1, Dropped)
  }

  // The timer goes off; the first packet of the queue leaves unconditionally.
  function TimedOut(c: Config, s: State, now: real): (State, Packet)
    requires s.queue != []
  {
    var p := s.queue[0];
    var s1 := Updated(c, s.(queue := s.queue[1..]), now);
    (Armed(c, s1.(tokens := s1.tokens - p.Bits() as real), now), p)
  }

  // ---------- the filter ----------

  class TBF {
    const conf: Config
    var tokens: real
    var lastUpdateTime: real
    var init: bool
    var q: seq<Packet>
    var timer: Option<real>

    ghost function Abs(): State
      reads this
    {
      State(tokens, lastUpdateTime, init, q, timer)
    }

    constructor (c: Config)
      ensures conf == c && Abs() == Start
    {
      conf, tokens, lastUpdateTime, init, q, timer := c, 0.0, 0.0, true, [], None;
    }

    method Recv(p: Packet, now: real) returns (outcome: Outcome)
      modifies this
      ensures (Abs(), outcome) == Received(conf, old(Abs()), p, now)
    {
      if init {
        tokens, lastUpdateTime, init := conf.bucket as real, now, false;
      }
      if |q| != 0 {
        if |q| < conf.qlen {
          q := q + [p];
          return Queued;
        }
        return Dropped;
      }
      GetUpdatedTokens(now);
      var pktsize := p.Bits() as real;
      if tokens >= pktsize {
        tokens := tokens - pktsize;
        return Forwarded(p);
      }
      if conf.qlen != 0 {
        q := [p];
        timer := Some(now + (pktsize - tokens) / conf.rate);
        return Queued;
      }
      return Dropped;
    }

    method GetUpdatedTokens(now: real)
      modifies this
      ensures Abs() == Updated(conf, old(Abs()), now)
    {
      tokens := tokens + (now - lastUpdateTime) * conf.rate;
      if tokens > conf.bucket as real { tokens := conf.bucket as real; }
      lastUpdateTime := now;
    }

    // An empty queue makes the original abort.
    method Timeout(now: real) returns (sent: Packet)
      requires Abs().queue != []
      modifies this
      ensures (Abs(), sent) == TimedOut(conf, old(Abs()), now)
    {
      sent, q := q[0], q[1..];
      GetUpdatedTokens(now);
      tokens, timer := tokens - sent.Bits() as real, None;
      if |q| != 0 {
        timer := Some(now + (q[0].Bits() as real - tokens) / conf.rate);
      }
    }
  }

  // ---------- runs ----------

  datatype Event = Arrive(at: real, p: Packet) | Fire(at: real)

  datatype Sent = Sent(at: real, p: Packet)

  // Time does not go back, and the timer fires at its deadline.
  ghost predicate Timely(s: State, now: real, ev: Event) {
    && ev.at >= now
    && (s.deadline.Some? ==> ev.at <= s.deadline.value)
    && (ev.Fire? ==> s.deadline == Some(ev.at))
  }

  ghost function Step(c: Config, s: State, ev: Event): (State, seq<Sent>) {
    match ev
    case Arrive(at, p) =>
      var (t, o) := Received(c, s, p, at);
      (t, if o.Forwarded? then [Sent(at, o.p)] else [])
    case Fire(at) =>
      if s.queue == [] then (s, []) else (TimedOut(c, s, at).0, [Sent(at, s.queue[0])])
  }

  ghost predicate Legal(c: Config, s: State, now: real, evs: seq<Event>)
    decreases |evs|
  {
    evs == [] || (Timely(s, now, evs[0]) && Legal(c, Step(c, s, evs[0]).0, evs[0].at, evs[1..]))
  }

  ghost function Final(c: Config, s: State, evs: seq<Event>): State
    decreases |evs|
  {
    if evs == [] then s else Final(c, Step(c, s, evs[0]).0, evs[1..])
  }

  ghost function Output(c: Config, s: State, evs: seq<Event>): seq<Sent>
    decreases |evs|
  {
    if evs == [] then [] else Step(c, s, evs[0]).1 + Output(c, Step(c, s, evs[0]).0, evs[1..])
  }

  // The bits of `out` that left in the closed interval [t1, t2].
  ghost function BitsWithin(out: seq<Sent>, t1: real, t2: real): nat {
    if out == [] then 0
    else (if t1 <= out[0].at <= t2 then out[0].p.Bits() else 0) + BitsWithin(out[1..], t1, t2)
  }

  // ---------- the invariant ----------

  function MaxQueue(c: Config): nat { if c.qlen < 0 then 1 else c.qlen }

  // A packet waits just until the tokens for it are there, and the timer is set
  // for that moment.
  ghost predicate Inv(c: Config, s: State, now: real) {
    && (s.init ==> s.queue == [])
    && (!s.init ==> s.last <= now && s.tokens <= c.bucket as real)
    && |s.queue| <= MaxQueue(c)
    && (s.deadline.Some? <==> s.queue != [])
    && (s.queue != [] ==>
          && now <= s.deadline.value
          && s.tokens + Gain(c.rate, s.deadline.value - s.last) == s.queue[0].Bits() as real)
  }

  // ---------- products, one step at a time ----------

  lemma {:induction false} GainAdds(rate: real, a: real, b: real)
    ensures Gain(rate, a) + Gain(rate, b) == Gain(rate, a + b)
  {
    assert a * rate + b * rate == (a + b) * rate;
  }

  lemma {:induction false} GainGrows(rate: real, a: real, b: real)
    requires rate > 0.0 && a <= b
    ensures Gain(rate, a) <= Gain(rate, b) && Gain(rate, 0.0) == 0.0
  {
    assert (b - a) * rate >= 0.0;
    assert b * rate - a * rate == (b - a) * rate;
  }

  lemma {:induction false} Arming(bits: real, rate: real)
    requires rate > 0.0
    ensures Gain(rate, Wait(rate, bits)) == bits && (bits >= 0.0 ==> Wait(rate, bits) >= 0.0)
  {
    var d := bits / rate;
    assert d * rate == bits;
    if bits >= 0.0 { assert d >= 0.0; }
  }

  lemma {:induction false} RecvInv(c: Config, s: State, now: real, ev: Event)
    requires Inv(c, s, now) && Timely(s, now, ev) && ev.Arrive?
    ensures Inv(c, Step(c, s, ev).0, ev.at)
  {
    var s0 := Filled(c, s, ev.at);
    Arming(ev.p.Bits() as real - Updated(c, s0, ev.at).tokens, c.rate);
    hide Gain, Wait;
    assert ev.at + Wait(c.rate, ev.p.Bits() as real - Updated(c, s0, ev.at).tokens) - ev.at
        == Wait(c.rate, ev.p.Bits() as real - Updated(c, s0, ev.at).tokens);
  }

  // Exactly how many tokens a timeout leaves: none, or, when the packet is larger
  // than the bucket, fewer than none.
  lemma {:induction false} TimeoutTokens(c: Config, s: State, now: real, at: real)
    requires Inv(c, s, now) && s.deadline == Some(at)
    ensures var left := TimedOut(c, s, at).0.tokens;
      && (left >= 0.0 <==> s.queue[0].Bits() <= c.bucket)
      && (s.queue[0].Bits() <= c.bucket ==> left == 0.0)
  {
    hide Gain, Wait;
    assert Updated(c, s.(queue := s.queue[1..]), at).tokens
        == if s.queue[0].Bits() > c.bucket then c.bucket as real else s.queue[0].Bits() as real;
  }

  lemma {:induction false} TimeoutInv(c: Config, s: State, now: real, at: real)
    requires Inv(c, s, now) && s.deadline == Some(at) && now <= at
    ensures Inv(c, TimedOut(c, s, at).0, at)
  {
    var q := s.queue[1..];
    if q != [] {
      var left := Updated(c, s.(queue := q), at).tokens - s.queue[0].Bits() as real;
      Arming(q[0].Bits() as real - left, c.rate);
      hide Gain, Wait;
      assert at + Wait(c.rate, q[0].Bits() as real - left) - at == Wait(c.rate, q[0].Bits() as real - left);
    }
  }

  lemma {:induction false} StepInv(c: Config, s: State, now: real, ev: Event)
    requires Inv(c, s, now) && Timely(s, now, ev)
    ensures Inv(c, Step(c, s, ev).0, ev.at)
    ensures ev.Fire? ==> s.queue != []
  {
    hide Gain, Wait;
    if ev.Arrive? { RecvInv(c, s, now, ev); } else { TimeoutInv(c, s, now, ev.at); }
  }

  lemma {:induction false} RunInv(c: Config, s: State, now: real, evs: seq<Event>)
    requires Inv(c, s, now) && Legal(c, s, now, evs)
    ensures Inv(c, Final(c, s, evs), if evs == [] then now else evs[|evs| - 1].at)
    decreases |evs|
  {
    hide Inv, Step, Timely;
    if evs != [] {
      StepInv(c, s, now, evs[0]);
      RunInv(c, Step(c, s, evs[0]).0, evs[0].at, evs[1..]);
    }
  }

  // The error branch of timeout is never taken, the queue keeps to its limit, and
  // the timer is set exactly while packets wait.
  lemma {:induction false} NeverAborts(c: Config, start: real, evs: seq<Event>, at: real)
    requires Legal(c, Start, start, evs)
    ensures var s := Final(c, Start, evs);
      && (s.deadline == Some(at) ==> s.queue != [])
      && (s.deadline.Some? <==> s.queue != []) && |s.queue| <= MaxQueue(c)
  {
    RunInv(c, Start, start, evs);
  }

  // ---------- the rate bound ----------

  ghost predicate FitBucket(c: Config, out: seq<Sent>) {
    forall x :: x in out ==> x.p.Bits() <= c.bucket
  }

  // What has been sent since t1, and the tokens left, were in the bucket at t1 or
  // have come since.
  ghost predicate Paid(c: Config, s: State, t1: real, sent: nat) {
    sent == 0 || (!s.init && s.last >= t1 && sent as real + s.tokens <= c.bucket as real + Gain(c.rate, s.last - t1))
  }

  ghost predicate Within(c: Config, bits: nat, t1: real, t2: real) {
    bits as real <= c.bucket as real + Gain(c.rate, t2 - t1)
  }

  lemma {:induction false} UpdatePays(c: Config, s: State, at: real, t1: real, sent: nat)
    requires Paid(c, s, t1, sent) && !s.init && s.last <= at && t1 <= at
    ensures Paid(c, Updated(c, s, at), t1, sent)
    ensures var u := Updated(c, s, at); sent as real + u.tokens <= c.bucket as real + Gain(c.rate, u.last - t1)
  {
    hide Gain;
    GainAdds(c.rate, at - s.last, s.last - t1);
    GainGrows(c.rate, 0.0, at - t1);
    assert at - s.last + (s.last - t1) == at - t1;
  }

  // A packet that leaves in the window, with its tokens at hand, is paid for.
  lemma {:induction false} SendPaid(c: Config, s: State, at: real, bits: nat, t: State, t1: real, t2: real, sent: nat)
    requires !s.init && s.last <= at && t1 <= at <= t2 && Paid(c, s, t1, sent)
    requires t.tokens == Updated(c, s, at).tokens - bits as real && t.tokens >= 0.0 && t.last == at && !t.init
    ensures Paid(c, t, t1, sent + bits) && Within(c, sent + bits, t1, t2)
  {
    hide Updated, Gain;
    assert Updated(c, s, at).last == at by { UpdatedLast(c, s, at); }
    UpdatePays(c, s, at, t1, sent);
    GainGrows(c.rate, at - t1, t2 - t1);
  }

  lemma {:induction false} UpdatedLast(c: Config, s: State, at: real)
    ensures Updated(c, s, at).last == at
  {}

  // One event: what it sends inside the window is paid for.
  lemma {:induction false} StepPaid(c: Config, s: State, now: real, ev: Event, t1: real, t2: real, sent: nat)
    requires Inv(c, s, now) && Timely(s, now, ev) && ev.at <= t2
    requires Paid(c, s, t1, sent) && FitBucket(c, Step(c, s, ev).1)
    ensures Paid(c, Step(c, s, ev).0, t1, sent + BitsWithin(Step(c, s, ev).1, t1, t2))
    ensures BitsWithin(Step(c, s, ev).1, t1, t2) > 0 ==> Within(c, sent + BitsWithin(Step(c, s, ev).1, t1, t2), t1, t2)
  {
    hide Gain, Paid, Within;
    if ev.Arrive? { ArrivePaid(c, s, now, ev.p, ev.at, t1, t2, sent); }
    if ev.Fire? {
      assert Sent(ev.at, s.queue[0]) in Step(c, s, ev).1;
      FirePaid(c, s, now, ev.at, t1, t2, sent);
    }
  }

  lemma {:induction false} ArrivePaid(c: Config, s: State, now: real, p: Packet, at: real, t1: real, t2: real, sent: nat)
    requires Inv(c, s, now) && now <= at <= t2 && Paid(c, s, t1, sent)
    ensures var (t, o) := Received(c, s, p, at);
      var more := if o.Forwarded? && t1 <= at then p.Bits() else 0;
      Paid(c, t, t1, sent + more) && (more > 0 ==> Within(c, sent + more, t1, t2))
  {
    hide Gain, Wait;
    var s0 := Filled(c, s, at);
    if s0.queue == [] && t1 <= at {
      UpdatePays(c, s0, at, t1, sent);
      if Received(c, s, p, at).1.Forwarded? {
        SendPaid(c, s0, at, p.Bits(), Received(c, s, p, at).0, t1, t2, sent);
      }
    }
  }

  lemma {:induction false} FirePaid(c: Config, s: State, now: real, at: real, t1: real, t2: real, sent: nat)
    requires Inv(c, s, now) && now <= at <= t2 && s.deadline == Some(at) && Paid(c, s, t1, sent)
    requires s.queue[0].Bits() <= c.bucket
    ensures var more := if t1 <= at then s.queue[0].Bits() else 0;
      Paid(c, TimedOut(c, s, at).0, t1, sent + more) && (more > 0 ==> Within(c, sent + more, t1, t2))
  {
    hide Gain, Wait;
    TimeoutTokens(c, s, now, at);
    if t1 <= at {
      SendPaid(c, s.(queue := s.queue[1..]), at, s.queue[0].Bits(), TimedOut(c, s, at).0, t1, t2, sent);
    }
  }

  lemma {:induction false} RunPaid(c: Config, s: State, now: real, evs: seq<Event>, t1: real, t2: real, sent: nat)
    requires Inv(c, s, now) && Legal(c, s, now, evs) && FitBucket(c, Output(c, s, evs))
    requires Within(c, sent, t1, t2) && (now <= t2 ==> Paid(c, s, t1, sent))
    ensures Within(c, sent + BitsWithin(Output(c, s, evs), t1, t2), t1, t2)
    decreases |evs|
  {
    hide Inv, Gain, Paid, Within, Step;
    if evs != [] {
      var t := Step(c, s, evs[0]);
      var rest := Output(c, t.0, evs[1..]);
      assert forall x :: x in t.1 || x in rest ==> x in t.1 + rest;
      BitsAppend(t.1, rest, t1, t2);
      StepInv(c, s, now, evs[0]);
      if evs[0].at <= t2 { StepPaid(c, s, now, evs[0], t1, t2, sent); } else { SentLater(c, s, evs[0], t1, t2); }
      RunPaid(c, t.0, evs[0].at, evs[1..], t1, t2, sent + BitsWithin(t.1, t1, t2));
    }
  }

  lemma {:induction false} SentLater(c: Config, s: State, ev: Event, t1: real, t2: real)
    requires ev.at > t2
    ensures BitsWithin(Step(c, s, ev).1, t1, t2) == 0
  {}

  lemma {:induction false} BitsAppend(a: seq<Sent>, b: seq<Sent>, t1: real, t2: real)
    ensures BitsWithin(a + b, t1, t2) == BitsWithin(a, t1, t2) + BitsWithin(b, t1, t2)
  {
    if a == [] {
      assert a + b == b;
    } else {
      assert (a + b)[1..] == a[1..] + b;
      BitsAppend(a[1..], b, t1, t2);
    }
  }

  lemma {:induction false} BitsOf(out: seq<Sent>, x: Sent)
    requires x in out
    ensures BitsWithin(out, x.at, x.at) >= x.p.Bits()
  {
    if out[0] != x { BitsOf(out[1..], x); }
  }

  ghost predicate Conforms(c: Config, out: seq<Sent>) {
    forall t1: real, t2: real :: t1 <= t2 ==> Within(c, BitsWithin(out, t1, t2), t1, t2)
  }

  lemma {:induction false} NothingSent(c: Config, t1: real, t2: real)
    requires c.bucket >= 0 && t1 <= t2
    ensures Within(c, 0, t1, t2)
  {
    GainGrows(c.rate, 0.0, t2 - t1);
  }

  // In every run the bits that leave in any closed interval are at most the bucket
  // and what the rate gives in its length, exactly when no packet that leaves is
  // larger than the bucket.
  lemma {:induction false} RateBound(c: Config, start: real, evs: seq<Event>)
    requires Legal(c, Start, start, evs)
    ensures Conforms(c, Output(c, Start, evs)) <==> c.bucket >= 0 && FitBucket(c, Output(c, Start, evs))
  {
    var out := Output(c, Start, evs);
    if c.bucket >= 0 && FitBucket(c, out) {
      forall t1: real, t2: real | t1 <= t2 ensures Within(c, BitsWithin(out, t1, t2), t1, t2) {
        NothingSent(c, t1, t2);
        RunPaid(c, Start, start, evs, t1, t2, 0);
      }
    }
    if Conforms(c, out) {
      assert Within(c, BitsWithin(out, 0.0, 0.0), 0.0, 0.0);
      forall x | x in out ensures x.p.Bits() <= c.bucket {
        BitsOf(out, x);
        assert Within(c, BitsWithin(out, x.at, x.at), x.at, x.at);
      }
    }
  }

  // ---------- what leaves ----------

  ghost function IfAccepted(c: Config, s: State, ev: Event): seq<Packet> {
    if ev.Arrive? && Received(c, s, ev.p, ev.at).1 != Dropped then [ev.p] else []
  }

  // The packets of a run that are not dropped, in the order in which they came.
  ghost function Accepted(c: Config, s: State, evs: seq<Event>): seq<Packet>
    decreases |evs|
  {
    if evs == [] then [] else IfAccepted(c, s, evs[0]) + Accepted(c, Step(c, s, evs[0]).0, evs[1..])
  }

  ghost function Packets(out: seq<Sent>): seq<Packet> {
    if out == [] then [] else [out[0].p] + Packets(out[1..])
  }

  lemma {:induction false} StepInOrder(c: Config, s: State, now: real, ev: Event)
    requires Inv(c, s, now) && Timely(s, now, ev)
    ensures Packets(Step(c, s, ev).1) + Step(c, s, ev).0.queue
         == s.queue + IfAccepted(c, s, ev)
  {}

  lemma {:induction false} PacketsAppend(a: seq<Sent>, b: seq<Sent>)
    ensures Packets(a + b) == Packets(a) + Packets(b)
  {
    if a == [] {
      assert a + b == b;
    } else {
      assert (a + b)[1..] == a[1..] + b;
      PacketsAppend(a[1..], b);
    }
  }

  // Nothing is lost, repeated or overtaken: the packets sent, and then those still
  // queued, are the packets accepted.
  lemma {:induction false} InOrder(c: Config, s: State, now: real, evs: seq<Event>)
    requires Inv(c, s, now) && Legal(c, s, now, evs)
    ensures Packets(Output(c, s, evs)) + Final(c, s, evs).queue == s.queue + Accepted(c, s, evs)
    decreases |evs|
  {
    hide Inv, Step, Received, Timely;
    if evs != [] {
      var ev, rest := evs[0], evs[1..];
      var t := Step(c, s, ev);
      StepInv(c, s, now, ev);
      StepInOrder(c, s, now, ev);
      InOrder(c, t.0, ev.at, rest);
      PacketsAppend(t.1, Output(c, t.0, rest));
      Splice(Packets(t.1), t.0.queue, s.queue, IfAccepted(c, s, ev),
             Packets(Output(c, t.0, rest)), Final(c, t.0, rest).queue, Accepted(c, t.0, rest));
    }
  }

  lemma {:induction false} Splice(p: seq<Packet>, q: seq<Packet>, q0: seq<Packet>, a: seq<Packet>, p1: seq<Packet>, q1: seq<Packet>, a1: seq<Packet>)
    requires p + q == q0 + a && p1 + q1 == q + a1
    ensures (p + p1) + q1 == q0 + (a + a1)
  {
    assert (p + p1) + q1 == p + (p1 + q1);
    assert p + (q + a1) == (p + q) + a1;
    assert (q0 + a) + a1 == q0 + (a + a1);
  }

  // When every packet that comes fits the bucket, every packet that leaves does,
  // so the bound holds of the run, and the tokens are never fewer than none.
  lemma {:induction false} SmallPackets(c: Config, start: real, evs: seq<Event>)
    requires Legal(c, Start, start, evs) && c.bucket >= 0
    requires forall ev :: ev in evs && ev.Arrive? ==> ev.p.Bits() <= c.bucket
    ensures Conforms(c, Output(c, Start, evs)) && Final(c, Start, evs).tokens >= 0.0
  {
    SmallRun(c, Start, start, evs);
    RateBound(c, start, evs);
  }

  ghost predicate Small(c: Config, s: State) {
    s.tokens >= 0.0 && forall p :: p in s.queue ==> p.Bits() <= c.bucket
  }

  lemma {:induction false} SmallStep(c: Config, s: State, now: real, ev: Event)
    requires Inv(c, s, now) && Timely(s, now, ev) && c.bucket >= 0 && Small(c, s)
    requires ev.Arrive? ==> ev.p.Bits() <= c.bucket
    ensures Small(c, Step(c, s, ev).0) && FitBucket(c, Step(c, s, ev).1)
  {
    if ev.Fire? { TimeoutTokens(c, s, now, ev.at); }
    GainGrows(c.rate, 0.0, ev.at - Filled(c, s, ev.at).last);
    hide Gain, Wait;
  }

  lemma {:induction false} SmallRun(c: Config, s: State, now: real, evs: seq<Event>)
    requires Inv(c, s, now) && Legal(c, s, now, evs) && c.bucket >= 0 && Small(c, s)
    requires forall ev :: ev in evs && ev.Arrive? ==> ev.p.Bits() <= c.bucket
    ensures FitBucket(c, Output(c, s, evs)) && Final(c, s, evs).tokens >= 0.0
    decreases |evs|
  {
    hide Inv, Step, Timely;
    if evs != [] {
      StepInv(c, s, now, evs[0]);
      SmallStep(c, s, now, evs[0]);
      SmallRun(c, Step(c, s, evs[0]).0, evs[0].at, evs[1..]);
    }
  }

  // ---------- the bound before the run ----------

  // Without a queue the filter only polices: what is larger than the bucket is dropped.
  lemma {:induction false} PolicedRun(c: Config, s: State, now: real, evs: seq<Event>)
    requires Inv(c, s, now) && Legal(c, s, now, evs) && c.qlen == 0
    ensures FitBucket(c, Output(c, s, evs))
    decreases |evs|
  {
    if evs != [] {
      StepInv(c, s, now, evs[0]);
      PolicedStep(c, s, now, evs[0]);
      hide Inv, Step, Timely;
      PolicedRun(c, Step(c, s, evs[0]).0, evs[0].at, evs[1..]);
    }
  }

  lemma {:induction false} PolicedStep(c: Config, s: State, now: real, ev: Event)
    requires Inv(c, s, now) && Timely(s, now, ev) && c.qlen == 0
    ensures FitBucket(c, Step(c, s, ev).1)
  {
    hide Gain, Wait;
  }

  ghost predicate From(evs: seq<Event>, packets: set<Packet>) {
    forall ev :: ev in evs && ev.Arrive? ==> ev.p in packets
  }

  // A packet that is larger than the bucket, alone on a filter with a queue: it waits,
  // and leaves when as many tokens would have come.
  ghost function Alone(c: Config, p: Packet): seq<Event> {
    [Arrive(0.0, p), Fire(0.0 + Wait(c.rate, p.Bits() as real - c.bucket as real))]
  }

  lemma {:induction false} AloneLeaves(c: Config, p: Packet)
    requires c.qlen != 0 && p.Bits() > c.bucket
    ensures Legal(c, Start, 0.0, Alone(c, p))
    ensures Output(c, Start, Alone(c, p)) == [Sent(Alone(c, p)[1].at, p)]
  {
    Arming(p.Bits() as real - c.bucket as real, c.rate);
    GainGrows(c.rate, 0.0, 0.0);
    hide Gain, Wait;
    var evs := Alone(c, p);
    var s1 := Step(c, Start, evs[0]).0;
    assert Updated(c, Filled(c, Start, 0.0), 0.0).tokens == c.bucket as real;
    assert s1.queue == [p] && s1.deadline == Some(evs[1].at);
    assert evs[1..] == [evs[1]] && evs[1..][1..] == [];
    assert Legal(c, Step(c, s1, evs[1]).0, evs[1].at, []);
    assert Step(c, Start, evs[0]).1 == [] && Step(c, s1, evs[1]).1 == [Sent(evs[1].at, p)];
    assert Output(c, s1, [evs[1]]) == [Sent(evs[1].at, p)] + Output(c, Step(c, s1, evs[1]).0, []);
  }

  ghost predicate AlwaysConforms(c: Config, packets: set<Packet>) {
    forall start: real, evs: seq<Event> :: Legal(c, Start, start, evs) && From(evs, packets) ==> Conforms(c, Output(c, Start, evs))
  }

  // What can be known beforehand: every run over packets from a given set keeps to the
  // bound exactly when the bucket is not negative and either there is no queue or every
  // one of the packets fits the bucket.
  lemma {:induction false} RateBoundBeforehand(c: Config, packets: set<Packet>)
    ensures AlwaysConforms(c, packets) <==> c.bucket >= 0 && (c.qlen == 0 || forall p :: p in packets ==> p.Bits() <= c.bucket)
  {
    hide Legal, Output, Conforms, FitBucket;
    if c.bucket >= 0 && (c.qlen == 0 || forall p :: p in packets ==> p.Bits() <= c.bucket) {
      forall start: real, evs: seq<Event> | Legal(c, Start, start, evs) && From(evs, packets)
        ensures Conforms(c, Output(c, Start, evs))
      {
        if c.qlen == 0 { PolicedRun(c, Start, start, evs); } else { SmallRun(c, Start, start, evs); }
        RateBound(c, start, evs);
      }
    }
    if AlwaysConforms(c, packets) {
      NoEvents(c);
      RateBound(c, 0.0, []);
      assert From([], packets) && Conforms(c, Output(c, Start, []));
      forall p | p in packets && c.qlen != 0
        ensures p.Bits() <= c.bucket
      {
        if p.Bits() > c.bucket { Oversize(c, packets, p); }
      }
    }
  }

  lemma {:induction false} Oversize(c: Config, packets: set<Packet>, p: Packet)
    requires c.qlen != 0 && p.Bits() > c.bucket && p in packets
    ensures !AlwaysConforms(c, packets)
  {
    AloneLeaves(c, p);
    assert From(Alone(c, p), packets);
    RateBound(c, 0.0, Alone(c, p));
    Outsize(c, Alone(c, p)[1].at, p);
  }

  lemma {:induction false} NoEvents(c: Config)
    ensures Legal(c, Start, 0.0, [])
  {}

  lemma {:induction false} Outsize(c: Config, at: real, p: Packet)
    requires p.Bits() > c.bucket
    ensures !FitBucket(c, [Sent(at, p)])
  {
    assert Sent(at, p) in [Sent(at, p)];
  }
}
