// What the token bucket filter does with each packet: which are dropped, which leave at
// once, when the others leave, and how fast it serves a queue.
module TokenBucketService {
  import opened Wrappers
  import opened TokenBucket

  // The tokens in the bucket at time `at`: it starts full and fills at the rate.
  ghost function Level(c: Config, s: State, at: real): real {
    if s.init || s.tokens + (at - s.last) * c.rate > c.bucket as real then c.bucket as real
    else s.tokens + (at - s.last) * c.rate
  }

  // What becomes of a packet that arrives: dropped only if the queue is full, or if there
  // is to be none and the tokens do not cover it; sent at once exactly if nothing waits
  // and they do.
  ghost predicate Treated(c: Config, s: State, p: Packet, at: real, t: State, o: Outcome) {
    var bits := 8 * p.size;
    && (o == Dropped <==> if s.queue != [] then |s.queue| >= c.qlen else c.qlen == 0 && bits as real > Level(c, s, at))
    && (o.Forwarded? <==> s.queue == [] && bits as real <= Level(c, s, at))
    && (o.Forwarded? ==> o.p == p)
    && t.queue == (if o == Queued then s.queue + [p] else s.queue)
    && !t.init
    && (if s.queue != [] then t.tokens == s.tokens && t.last == s.last && t.deadline == s.deadline
        else t.last == at && t.tokens == Level(c, s, at) - if o.Forwarded? then bits as real else 0.0)
  }

  lemma {:induction false} ArrivalTreated(c: Config, s: State, now: real, p: Packet, at: real)
    requires Inv(c, s, now)
    ensures var (t, o) := Received(c, s, p, at); Treated(c, s, p, at, t, o)
  {
    LevelIs(c, s, at);
    hide Gain, Wait, Level, Updated;
  }

  // What the bucket holds when a packet finds no queue.
  lemma {:induction false} LevelIs(c: Config, s: State, at: real)
    requires s.init || s.tokens <= c.bucket as real
    ensures Updated(c, Filled(c, s, at), at) == s.(tokens := Level(c, s, at), last := at, init := false)
  {
    var s0 := Filled(c, s, at);
    if s.init {
      assert Gain(c.rate, at - s0.last) == 0.0 by { GainGrows(c.rate, 0.0, 0.0); }
      hide Gain;
    } else {
      assert Gain(c.rate, at - s.last) == (at - s.last) * c.rate;
      hide Gain;
    }
  }

  // In every run each packet is treated so.
  lemma {:induction false} Fate(c: Config, start: real, evs: seq<Event>, p: Packet, at: real)
    requires Legal(c, Start, start, evs)
    ensures var s := Final(c, Start, evs);
      var (t, o) := Received(c, s, p, at);
      Treated(c, s, p, at, t, o)
  {
    RunInv(c, Start, start, evs);
    ArrivalTreated(c, Final(c, Start, evs), if evs == [] then start else evs[|evs| - 1].at, p, at);
  }

  // At time `x` the tokens cover the first packet of the queue.
  ghost predicate Covered(c: Config, s: State, x: real)
    requires s.queue != []
  {
    s.tokens + (x - s.last) * c.rate >= (8 * s.queue[0].size) as real
  }

  lemma {:induction false} CoveredFrom(c: Config, s: State, now: real, x: real)
    requires Inv(c, s, now) && s.queue != []
    ensures Covered(c, s, x) <==> x >= s.deadline.value
  {
    var d := s.deadline.value - s.last;
    var y := x - s.last;
    assert s.tokens + d * c.rate == (8 * s.queue[0].size) as real;
    Slower(c.rate, y, d);
    hide Inv;
  }

  lemma {:induction false} Slower(rate: real, a: real, b: real)
    requires rate > 0.0
    ensures a * rate >= b * rate <==> a >= b
  {
    assert a * rate - b * rate == (a - b) * rate;
    if a >= b { assert (a - b) * rate >= 0.0; } else { assert (b - a) * rate > 0.0; }
  }

  lemma {:induction false} Departs(c: Config, s: State, now: real)
    requires Inv(c, s, now) && s.queue != []
    ensures s.deadline.Some?
    ensures var at := s.deadline.value;
      var (t, out) := Step(c, s, Fire(at));
      && out == [Sent(at, s.queue[0])] && t.queue == s.queue[1..]
      && t.last == at && t.tokens == Level(c, s, at) - (8 * s.queue[0].size) as real
  {
    hide Wait;
  }

  // A waiting packet leaves at the first moment at which the tokens cover it, ahead of
  // those behind it, and is paid for.
  lemma {:induction false} LeavesOnTime(c: Config, start: real, evs: seq<Event>)
    requires Legal(c, Start, start, evs) && Final(c, Start, evs).queue != []
    ensures var s := Final(c, Start, evs);
      && s.deadline.Some?
      && (forall x: real :: Covered(c, s, x) <==> x >= s.deadline.value)
      && var (t, out) := Step(c, s, Fire(s.deadline.value));
         && out == [Sent(s.deadline.value, s.queue[0])] && t.queue == s.queue[1..] && t.last == s.deadline.value
         && t.tokens == Level(c, s, s.deadline.value) - (8 * s.queue[0].size) as real
  {
    RunInv(c, Start, start, evs);
    var s := Final(c, Start, evs);
    var now := if evs == [] then start else evs[|evs| - 1].at;
    hide Inv, Covered, Step, Level, Final, Legal;
    Departs(c, s, now);
    forall x: real
      ensures Covered(c, s, x) <==> x >= s.deadline.value
    {
      CoveredFrom(c, s, now, x);
    }
  }

  // ---------- how fast a queue is served ----------

  // Packets wait when each event comes.
  ghost predicate Busy(c: Config, s: State, evs: seq<Event>)
    decreases |evs|
  {
    evs == [] || (s.queue != [] && Busy(c, Step(c, s, evs[0]).0, evs[1..]))
  }

  ghost function Bits(out: seq<Sent>): nat {
    if out == [] then 0 else 8 * out[0].p.size + Bits(out[1..])
  }

  lemma {:induction false} BitsBoth(a: seq<Sent>, b: seq<Sent>)
    ensures Bits(a + b) == Bits(a) + Bits(b)
  {
    if a == [] {
      assert a + b == b;
    } else {
      assert (a + b)[1..] == a[1..] + b;
      BitsBoth(a[1..], b);
    }
  }

  lemma {:induction false} BusyStep(c: Config, s: State, now: real, ev: Event)
    requires Inv(c, s, now) && Timely(s, now, ev) && s.queue != [] && FitBucket(c, Step(c, s, ev).1)
    ensures var (t, out) := Step(c, s, ev); Bits(out) as real == s.tokens - t.tokens + Gain(c.rate, t.last - s.last)
  {
    if ev.Fire? {
      assert Step(c, s, ev).1 == [Sent(ev.at, s.queue[0])];
      assert Sent(ev.at, s.queue[0]) in Step(c, s, ev).1;
      TimeoutTokens(c, s, now, ev.at);
      assert Bits([Sent(ev.at, s.queue[0])]) == 8 * s.queue[0].size + Bits([]);
    } else {
      GainGrows(c.rate, 0.0, 0.0);
      hide Gain;
    }
  }

  // While packets wait, none larger than the bucket, the filter sends at exactly the
  // rate: the bits that leave are what the rate gives in the time, but for the change of
  // what is in the bucket.
  lemma {:induction false} ServesAtRate(c: Config, s: State, now: real, evs: seq<Event>)
    requires Inv(c, s, now) && Legal(c, s, now, evs) && Busy(c, s, evs) && FitBucket(c, Output(c, s, evs))
    ensures var t := Final(c, s, evs); Bits(Output(c, s, evs)) as real == s.tokens - t.tokens + Gain(c.rate, t.last - s.last)
    decreases |evs|
  {
    if evs == [] {
      GainGrows(c.rate, 0.0, 0.0);
    } else {
      hide Step, Gain, Inv, Timely;
      var (t, out) := Step(c, s, evs[0]);
      var rest := Output(c, t, evs[1..]);
      FitBoth(c, out, rest);
      StepInv(c, s, now, evs[0]);
      BusyStep(c, s, now, evs[0]);
      hide FitBucket;
      ServesAtRate(c, t, evs[0].at, evs[1..]);
      BitsBoth(out, rest);
      GainBoth(c.rate, s.last, t.last, Final(c, t, evs[1..]).last);
    }
  }

  lemma {:induction false} FitBoth(c: Config, a: seq<Sent>, b: seq<Sent>)
    requires FitBucket(c, a + b)
    ensures FitBucket(c, a) && FitBucket(c, b)
  {
    assert forall x :: x in a || x in b ==> x in a + b;
  }

  lemma {:induction false} GainBoth(rate: real, a: real, b: real, c: real)
    ensures Gain(rate, b - a) + Gain(rate, c - b) == Gain(rate, c - a)
  {
    GainAdds(rate, b - a, c - b);
    assert b - a + (c - b) == c - a;
    hide Gain;
  }
}
