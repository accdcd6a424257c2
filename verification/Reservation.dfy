// Reservations made along paths of signalled links: the source (sa.cc) sends a
// request through the links of its path, the sink (saack.cc) echoes the decision,
// the source turns the answer into a confirmation, and an accepted flow sends one
// teardown when it stops. Signalling packets of one flow stay in order and are not
// lost; those of different flows interleave freely.
module Reservation {
  import opened Wrappers
  import opened SignalledLink

  // Where the packets of a flow are: the request has crossed `k` links, or the
  // confirmation has crossed `k` and the teardown `torn` links.
  datatype Phase = Asking(k: nat, dec: bool) | Telling(k: nat, dec: bool, torn: nat)

  datatype Flow = Flow(id: int, rate: real, path: seq<nat>, phase: Phase)

  datatype Net = Net(links: seq<Link>, flows: seq<Flow>)

  datatype Event =
    | Begin(id: int, rate: real, path: seq<nat>)
    | RequestCrosses(f: nat)
    | Answered(f: nat)
    | ConfirmCrosses(f: nat)
    | TeardownCrosses(f: nat)

  predicate Done(f: Flow) {
    f.phase.Telling? && f.phase.k == |f.path| && (f.phase.dec ==> f.phase.torn == |f.path|)
  }

  ghost predicate Distinct(s: seq<nat>) {
    forall i, j :: 0 <= i < j < |s| ==> s[i] != s[j]
  }

  // A packet of flow `f` is about to cross link `i` of its path.
  ghost predicate Crossing(s: Net, f: nat, i: nat) {
    f < |s.flows| && i < |s.flows[f].path| && s.flows[f].path[i] < |s.links|
  }

  ghost predicate Possible(s: Net, ev: Event) {
    match ev
    case Begin(id, rate, path) =>
      && id != NONE && rate >= 0.0 && Distinct(path) && (forall i :: 0 <= i < |path| ==> path[i] < |s.links|)
      && forall g :: 0 <= g < |s.flows| && !Done(s.flows[g]) ==> s.flows[g].id != id
    case RequestCrosses(f) => f < |s.flows| && s.flows[f].phase.Asking? && Crossing(s, f, s.flows[f].phase.k)
    case Answered(f) => f < |s.flows| && s.flows[f].phase.Asking? && s.flows[f].phase.k == |s.flows[f].path|
    case ConfirmCrosses(f) => f < |s.flows| && s.flows[f].phase.Telling? && Crossing(s, f, s.flows[f].phase.k)
    case TeardownCrosses(f) =>
      && f < |s.flows| && s.flows[f].phase.Telling? && s.flows[f].phase.dec
      && s.flows[f].phase.torn < s.flows[f].phase.k && Crossing(s, f, s.flows[f].phase.torn)
  }

  ghost function Cross(s: Net, f: nat, i: nat, kind: Kind, dec: bool): Option<(Link, Packet)>
    requires Crossing(s, f, i)
  {
    Pass(s.links[s.flows[f].path[i]], Packet(kind, s.flows[f].id, s.flows[f].rate, dec))
  }

  ghost function Moved(s: Net, f: nat, i: nat, l: Link, phase: Phase): Net
    requires Crossing(s, f, i)
  {
    Net(s.links[s.flows[f].path[i] := l], s.flows[f := s.flows[f].(phase := phase)])
  }

  // None is a run that ends because a link has no slot left for a request.
  ghost function Step(s: Net, ev: Event): Option<Net>
    requires Possible(s, ev)
  {
    match ev
    case Begin(id, rate, path) => Some(s.(flows := s.flows + [Flow(id, rate, path, Asking(0, true))]))
    case RequestCrosses(f) =>
      var p := s.flows[f].phase;
      var r := Cross(s, f, p.k, Request, p.dec);
      if r.None? then None else Some(Moved(s, f, p.k, r.value.0, Asking(p.k + 1, r.value.1.decision)))
    case Answered(f) => Some(s.(flows := s.flows[f := s.flows[f].(phase := Telling(0, s.flows[f].phase.dec, 0))]))
    case ConfirmCrosses(f) =>
      var p := s.flows[f].phase;
      var r := Cross(s, f, p.k, Confirm, p.dec);
      if r.None? then None else Some(Moved(s, f, p.k, r.value.0, p.(k := p.k + 1)))
    case TeardownCrosses(f) =>
      var p := s.flows[f].phase;
      var r := Cross(s, f, p.torn, Teardown, true);
      if r.None? then None else Some(Moved(s, f, p.torn, r.value.0, p.(torn := p.torn + 1)))
  }

  ghost function Initial(limits: seq<real>): Net {
    Net(seq(|limits|, l requires 0 <= l < |limits| => NewLink(limits[l])), [])
  }

  ghost predicate Legal(s: Net, evs: seq<Event>)
    decreases |evs|
  {
    evs == [] || (Possible(s, evs[0]) && Step(s, evs[0]).Some? && Legal(Step(s, evs[0]).value, evs[1..]))
  }

  ghost function Run(s: Net, evs: seq<Event>): Net
    requires Legal(s, evs)
    decreases |evs|
  {
    if evs == [] then s else Run(Step(s, evs[0]).value, evs[1..])
  }

  // ---------- what a flow holds ----------

  // The place of link `l` on a path.
  ghost function Place(path: seq<nat>, l: nat): (i: nat)
    ensures l in path ==> i < |path| && path[i] == l
  {
    if l in path then (var i :| 0 <= i < |path| && path[i] == l; i) else |path|
  }

  // The request has crossed `l` and the confirmation has not.
  ghost predicate Waiting(f: Flow, l: nat) {
    l in f.path && if f.phase.Asking? then Place(f.path, l) < f.phase.k else Place(f.path, l) >= f.phase.k
  }

  // Link `l`, whose slots are `pending`, has reserved the rate of `f`.
  ghost predicate Holds(f: Flow, pending: seq<int>, l: nat) {
    || (Waiting(f, l) && f.id in pending)
    || (l in f.path && f.phase.Telling? && f.phase.dec && f.phase.torn <= Place(f.path, l) < f.phase.k)
  }

  ghost function Reserved(flows: seq<Flow>, pending: seq<int>, l: nat): real {
    if flows == [] then 0.0
    else Reserved(flows[..|flows| - 1], pending, l)
         + if Holds(flows[|flows| - 1], pending, l) then flows[|flows| - 1].rate else 0.0
  }

  ghost function Admitted(flows: seq<Flow>, pending: seq<int>, l: nat): nat {
    if flows == [] then 0
    else Admitted(flows[..|flows| - 1], pending, l) + if Holds(flows[|flows| - 1], pending, l) then 1 else 0
  }

  // ---------- the invariant ----------

  ghost predicate HasSlot(links: seq<Link>, f: Flow, i: nat) {
    i < |f.path| && f.path[i] < |links| && f.id in links[f.path[i]].pending
  }

  ghost predicate FlowOk(links: seq<Link>, f: Flow) {
    && f.id != NONE && f.rate >= 0.0
    && Distinct(f.path) && (forall i :: 0 <= i < |f.path| ==> f.path[i] < |links|)
    && f.phase.k <= |f.path|
    && match f.phase
       case Asking(k, dec) => dec <==> forall i :: 0 <= i < k ==> HasSlot(links, f, i)
       case Telling(k, dec, torn) => torn <= k && if dec then forall i :: k <= i < |f.path| ==> HasSlot(links, f, i) else torn == 0
  }

  // Each slot in use belongs to one flow that waits at the link.
  ghost predicate SlotsOk(flows: seq<Flow>, pending: seq<int>, l: nat) {
    && (forall i, j :: 0 <= i < j < |pending| && pending[i] != NONE ==> pending[i] != pending[j])
    && (forall x :: x in pending && x != NONE ==> exists f :: f in flows && f.id == x && Waiting(f, l))
  }

  ghost predicate LinkOk(flows: seq<Flow>, link: Link, l: nat) {
    && SlotsOk(flows, link.pending, l)
    && link.resv == Reserved(flows, link.pending, l)
    && link.numfl == Admitted(flows, link.pending, l) - 1
    && (link.resv <= link.limit || link.resv <= 0.0)
  }

  ghost predicate OneEach(flows: seq<Flow>) {
    forall i, j :: 0 <= i < j < |flows| && !Done(flows[i]) && !Done(flows[j]) ==> flows[i].id != flows[j].id
  }

  ghost predicate Inv(s: Net) {
    && OneEach(s.flows)
    && (forall f :: 0 <= f < |s.flows| ==> FlowOk(s.links, s.flows[f]))
    && (forall l :: 0 <= l < |s.links| ==> LinkOk(s.flows, s.links[l], l))
  }

  // ---------- sums ----------

  ghost function Share(f: Flow, pending: seq<int>, l: nat): real {
    if Holds(f, pending, l) then f.rate else 0.0
  }

  ghost function Count(f: Flow, pending: seq<int>, l: nat): nat {
    if Holds(f, pending, l) then 1 else 0
  }

  // Only flow `k` changes what it holds.
  lemma {:induction false} SumsChange(flows: seq<Flow>, pending: seq<int>, flows1: seq<Flow>, pending1: seq<int>, l: nat, k: nat)
    requires k < |flows| == |flows1|
    requires forall i :: 0 <= i < |flows| && i != k ==> flows[i] == flows1[i] && (Holds(flows[i], pending, l) <==> Holds(flows[i], pending1, l))
    ensures Reserved(flows1, pending1, l) == Reserved(flows, pending, l) - Share(flows[k], pending, l) + Share(flows1[k], pending1, l)
    ensures Admitted(flows1, pending1, l) == Admitted(flows, pending, l) - Count(flows[k], pending, l) + Count(flows1[k], pending1, l)
  {
    hide Holds;
    var n := |flows| - 1;
    if k < n {
      SumsChange(flows[..n], pending, flows1[..n], pending1, l, k);
    } else {
      SumsSame(flows[..n], pending, flows1[..n], pending1, l);
    }
  }

  lemma {:induction false} SumsSame(flows: seq<Flow>, pending: seq<int>, flows1: seq<Flow>, pending1: seq<int>, l: nat)
    requires |flows| == |flows1|
    requires forall i :: 0 <= i < |flows| ==> flows[i] == flows1[i] && (Holds(flows[i], pending, l) <==> Holds(flows[i], pending1, l))
    ensures Reserved(flows1, pending1, l) == Reserved(flows, pending, l)
    ensures Admitted(flows1, pending1, l) == Admitted(flows, pending, l)
  {
    hide Holds;
    if flows != [] {
      SumsSame(flows[..|flows| - 1], pending, flows1[..|flows| - 1], pending1, l);
    }
  }

  // ---------- one step ----------

  ghost predicate SameBut(p: seq<int>, q: seq<int>, id: int) {
    forall x :: x != id && x != NONE ==> (x in p <==> x in q)
  }

  ghost predicate Unique(p: seq<int>) {
    forall i, j :: 0 <= i < j < |p| && p[i] != NONE ==> p[i] != p[j]
  }

  // What the move of a packet of flow `f` across the link at place `i` has to do
  // for the invariant to be kept.
  ghost predicate GoodMove(s: Net, f: nat, i: nat, link: Link, phase: Phase)
    requires Crossing(s, f, i)
  {
    var F, l := s.flows[f], s.flows[f].path[i];
    var G, was := F.(phase := phase), s.links[l];
    && !Done(F) && FlowOk(s.links[l := link], G)
    && Unique(link.pending) && SameBut(was.pending, link.pending, F.id) && (F.id in link.pending ==> Waiting(G, l))
    && link.limit == was.limit && (link.resv <= link.limit || link.resv <= 0.0)
    && link.resv == was.resv - Share(F, was.pending, l) + Share(G, link.pending, l)
    && link.numfl == was.numfl - Count(F, was.pending, l) + Count(G, link.pending, l)
    && forall m :: 0 <= m < |s.links| && m != l ==>
         (Waiting(F, m) <==> Waiting(G, m)) && (Holds(F, s.links[m].pending, m) <==> Holds(G, s.links[m].pending, m))
  }

  lemma {:induction false} OtherIds(s: Net, f: nat, g: nat)
    requires Inv(s) && f < |s.flows| && g < |s.flows| && f != g && !Done(s.flows[f])
    ensures s.flows[g].id == s.flows[f].id ==> Done(s.flows[g])
  {}

  lemma {:induction false} MoveFlows(s: Net, f: nat, i: nat, link: Link, phase: Phase)
    requires Inv(s) && Crossing(s, f, i) && GoodMove(s, f, i, link, phase)
    ensures var t := Moved(s, f, i, link, phase);
      OneEach(t.flows) && forall g :: 0 <= g < |t.flows| ==> FlowOk(t.links, t.flows[g])
  {
    hide LinkOk, Holds, Share, Count, Waiting;
    var t := Moved(s, f, i, link, phase);
    forall g | 0 <= g < |t.flows| ensures FlowOk(t.links, t.flows[g]) {
      if g != f {
        OtherIds(s, f, g);
        assert FlowOk(s.links, s.flows[g]);
        assert forall k :: HasSlot(s.links, s.flows[g], k) && !Done(s.flows[g]) ==> HasSlot(t.links, s.flows[g], k);
        assert forall k :: HasSlot(t.links, s.flows[g], k) && !Done(s.flows[g]) ==> HasSlot(s.links, s.flows[g], k);
      }
    }
  }

  lemma {:induction false} MoveSlots(s: Net, f: nat, i: nat, link: Link, phase: Phase, m: nat)
    requires Inv(s) && Crossing(s, f, i) && GoodMove(s, f, i, link, phase) && m < |s.links|
    ensures var t := Moved(s, f, i, link, phase); SlotsOk(t.flows, t.links[m].pending, m)
  {
    hide Holds, Share, Count, Waiting, FlowOk, Reserved, Admitted;
    var t := Moved(s, f, i, link, phase);
    assert LinkOk(s.flows, s.links[m], m);
    forall x | x in t.links[m].pending && x != NONE ensures exists g :: g in t.flows && g.id == x && Waiting(g, m) {
      if m == s.flows[f].path[i] && x == s.flows[f].id {
        assert t.flows[f] in t.flows;
      } else {
        assert x in s.links[m].pending;
        var g :| g in s.flows && g.id == x && Waiting(g, m);
        if g == s.flows[f] {
          assert t.flows[f] in t.flows && Waiting(t.flows[f], m);
        } else {
          var k :| 0 <= k < |s.flows| && s.flows[k] == g;
          assert t.flows[k] == g;
        }
      }
    }
  }

  lemma {:induction false} MoveHolds(s: Net, f: nat, i: nat, link: Link, phase: Phase, m: nat, g: nat)
    requires Inv(s) && Crossing(s, f, i) && GoodMove(s, f, i, link, phase) && m < |s.links| && g < |s.flows| && g != f
    ensures Holds(s.flows[g], s.links[m].pending, m) <==> Holds(s.flows[g], Moved(s, f, i, link, phase).links[m].pending, m)
  {}

  lemma {:induction false} MoveSums(s: Net, f: nat, i: nat, link: Link, phase: Phase, m: nat)
    requires Inv(s) && Crossing(s, f, i) && GoodMove(s, f, i, link, phase) && m < |s.links|
    ensures var t := Moved(s, f, i, link, phase); LinkOk(t.flows, t.links[m], m)
  {
    var t := Moved(s, f, i, link, phase);
    MoveSlots(s, f, i, link, phase, m);
    forall g | 0 <= g < |s.flows| && g != f
      ensures Holds(s.flows[g], s.links[m].pending, m) <==> Holds(s.flows[g], t.links[m].pending, m)
    {
      MoveHolds(s, f, i, link, phase, m, g);
    }
    hide Holds, Waiting, FlowOk, SlotsOk;
    SumsChange(s.flows, s.links[m].pending, t.flows, t.links[m].pending, m, f);
    assert LinkOk(s.flows, s.links[m], m);
  }

  lemma {:induction false} MoveKeepsInv(s: Net, f: nat, i: nat, link: Link, phase: Phase)
    requires Inv(s) && Crossing(s, f, i) && GoodMove(s, f, i, link, phase)
    ensures Inv(Moved(s, f, i, link, phase))
  {
    var t := Moved(s, f, i, link, phase);
    MoveFlows(s, f, i, link, phase);
    forall m | 0 <= m < |t.links| ensures LinkOk(t.flows, t.links[m], m) {
      MoveSums(s, f, i, link, phase, m);
    }
  }

  lemma {:induction false} PlaceAt(path: seq<nat>, i: nat)
    requires Distinct(path) && i < |path|
    ensures Place(path, path[i]) == i
  {}

  // A link where a flow does not wait has no slot for it.
  lemma {:induction false} NoSlot(s: Net, f: nat, l: nat)
    requires Inv(s) && f < |s.flows| && !Done(s.flows[f]) && l < |s.links| && !Waiting(s.flows[f], l)
    ensures s.flows[f].id !in s.links[l].pending
  {}

  // Moving one place along a path does not change what is held at other links.
  lemma {:induction false} OtherLinks(s: Net, f: nat, i: nat, phase: Phase)
    requires f < |s.flows| && FlowOk(s.links, s.flows[f]) && Crossing(s, f, i)
    requires phase.Asking? == s.flows[f].phase.Asking? && phase.k <= |s.flows[f].path|
    requires var p := s.flows[f].phase;
      || (phase.k == p.k + 1 && i == p.k && (p.Telling? ==> phase.dec == p.dec && phase.torn == p.torn))
      || (phase.Telling? && phase.k == p.k && phase.torn == p.torn + 1 && i == p.torn && phase.dec == p.dec)
    ensures forall m :: 0 <= m < |s.links| && m != s.flows[f].path[i] ==>
      var G := s.flows[f].(phase := phase);
      (Waiting(s.flows[f], m) <==> Waiting(G, m)) && (Holds(s.flows[f], s.links[m].pending, m) <==> Holds(G, s.links[m].pending, m))
  {}

  lemma {:induction false} TakeSlot(p: seq<int>, id: int)
    requires Unique(p) && id !in p && NONE in p && id != NONE
    ensures var q := p[First(p, NONE) := id]; Unique(q) && SameBut(p, q, id) && id in q
  {
    var q := p[First(p, NONE) := id];
    assert q[First(p, NONE)] == id;
    forall x | x != id && x != NONE ensures x in p <==> x in q {
      if x in p { assert q[First(p, x)] == x; }
    }
  }

  lemma {:induction false} FreeSlot(p: seq<int>, id: int)
    requires Unique(p) && id in p && id != NONE
    ensures var q := p[First(p, id) := NONE]; Unique(q) && SameBut(p, q, id) && id !in q
  {
    var q := p[First(p, id) := NONE];
    forall x | x != id && x != NONE ensures x in p <==> x in q {
      if x in p { assert q[First(p, x)] == x; }
    }
  }

  // A packet of flow `f` crosses a link and moves as it should.
  ghost predicate Good(s: Net, ev: Event)
    requires Possible(s, ev) && Step(s, ev).Some?
  {
    match ev
    case RequestCrosses(f) =>
      var p := s.flows[f].phase;
      var r := Cross(s, f, p.k, Request, p.dec).value;
      GoodMove(s, f, p.k, r.0, Asking(p.k + 1, r.1.decision))
    case ConfirmCrosses(f) =>
      var p := s.flows[f].phase;
      GoodMove(s, f, p.k, Cross(s, f, p.k, Confirm, p.dec).value.0, p.(k := p.k + 1))
    case TeardownCrosses(f) =>
      var p := s.flows[f].phase;
      GoodMove(s, f, p.torn, Cross(s, f, p.torn, Teardown, true).value.0, p.(torn := p.torn + 1))
    case _ => true
  }

  lemma {:induction false} RequestStep(s: Net, f: nat)
    requires Inv(s) && Possible(s, RequestCrosses(f)) && Step(s, RequestCrosses(f)).Some?
    ensures Inv(Step(s, RequestCrosses(f)).value) && Good(s, RequestCrosses(f))
  {
    hide Reserved, Admitted;
    var F := s.flows[f];
    var k := F.phase.k;
    var l := F.path[k];
    var r := Cross(s, f, k, Request, F.phase.dec);
    var (link, dec) := (r.value.0, r.value.1.decision);
    var G := F.(phase := Asking(k + 1, dec));
    assert FlowOk(s.links, F) && LinkOk(s.flows, s.links[l], l);
    PlaceAt(F.path, k);
    NoSlot(s, f, l);
    OtherLinks(s, f, k, G.phase);
    if Admits(s.links[l], F.rate) { TakeSlot(s.links[l].pending, F.id); }
    RequestSlots(s, f, link, dec);
    MoveKeepsInv(s, f, k, link, G.phase);
  }

  lemma {:induction false} RequestSlots(s: Net, f: nat, link: Link, dec: bool)
    requires f < |s.flows| && s.flows[f].phase.Asking? && FlowOk(s.links, s.flows[f]) && Crossing(s, f, s.flows[f].phase.k)
    requires dec <==> s.flows[f].phase.dec && s.flows[f].id in link.pending
    ensures var k := s.flows[f].phase.k;
      FlowOk(s.links[s.flows[f].path[k] := link], s.flows[f].(phase := Asking(k + 1, dec)))
  {
    var F := s.flows[f];
    var k := F.phase.k;
    var links := s.links[F.path[k] := link];
    var G := F.(phase := Asking(k + 1, dec));
    assert forall j :: 0 <= j < k ==> (HasSlot(s.links, F, j) <==> HasSlot(links, G, j));
    assert HasSlot(links, G, k) <==> F.id in link.pending;
  }

  lemma {:induction false} TellingSlots(s: Net, f: nat, i: nat, link: Link, phase: Phase)
    requires f < |s.flows| && FlowOk(s.links, s.flows[f]) && Crossing(s, f, i) && s.flows[f].phase.Telling? && i < phase.k <= |s.flows[f].path|
    requires phase.Telling? && phase.dec == s.flows[f].phase.dec && phase.k >= s.flows[f].phase.k
    requires phase.torn <= phase.k && (!phase.dec ==> phase.torn == 0)
    ensures FlowOk(s.links[s.flows[f].path[i] := link], s.flows[f].(phase := phase))
  {
    var F := s.flows[f];
    var links := s.links[F.path[i] := link];
    forall j | phase.dec && phase.k <= j < |F.path| ensures HasSlot(links, F.(phase := phase), j) {
      assert HasSlot(s.links, F, j) && F.path[j] != F.path[i];
    }
  }

  lemma {:induction false} ConfirmMoves(s: Net, f: nat)
    requires Inv(s) && Possible(s, ConfirmCrosses(f)) && Step(s, ConfirmCrosses(f)).Some?
    ensures var p := s.flows[f].phase;
      GoodMove(s, f, p.k, Cross(s, f, p.k, Confirm, p.dec).value.0, p.(k := p.k + 1))
  {
    hide Reserved, Admitted;
    var F := s.flows[f];
    var k := F.phase.k;
    var l := F.path[k];
    var link := Cross(s, f, k, Confirm, F.phase.dec).value.0;
    var p := F.phase.(k := k + 1);
    assert FlowOk(s.links, F) && LinkOk(s.flows, s.links[l], l);
    PlaceAt(F.path, k);
    OtherLinks(s, f, k, p);
    TellingSlots(s, f, k, link, p);
    assert F.phase.dec ==> HasSlot(s.links, F, k);
    if F.id in s.links[l].pending { FreeSlot(s.links[l].pending, F.id); }
    hide FlowOk, OneEach, SlotsOk, Place;
  }

  lemma {:induction false} ConfirmStep(s: Net, f: nat)
    requires Inv(s) && Possible(s, ConfirmCrosses(f)) && Step(s, ConfirmCrosses(f)).Some?
    ensures Inv(Step(s, ConfirmCrosses(f)).value) && Good(s, ConfirmCrosses(f))
  {
    hide GoodMove, Inv;
    ConfirmMoves(s, f);
    var p := s.flows[f].phase;
    MoveKeepsInv(s, f, p.k, Cross(s, f, p.k, Confirm, p.dec).value.0, p.(k := p.k + 1));
  }

  lemma {:induction false} TeardownStep(s: Net, f: nat)
    requires Inv(s) && Possible(s, TeardownCrosses(f)) && Step(s, TeardownCrosses(f)).Some?
    ensures Inv(Step(s, TeardownCrosses(f)).value) && Good(s, TeardownCrosses(f))
  {
    hide Reserved, Admitted;
    var F := s.flows[f];
    var k := F.phase.torn;
    var l := F.path[k];
    var link := Cross(s, f, k, Teardown, true).value.0;
    var G := F.(phase := F.phase.(torn := k + 1));
    assert FlowOk(s.links, F) && LinkOk(s.flows, s.links[l], l);
    PlaceAt(F.path, k);
    OtherLinks(s, f, k, G.phase);
    TellingSlots(s, f, k, link, G.phase);
    NoSlot(s, f, l);
    hide FlowOk, OneEach, SlotsOk, Place;
    assert GoodMove(s, f, k, link, G.phase);
    MoveKeepsInv(s, f, k, link, G.phase);
  }

  lemma {:induction false} BeginStep(s: Net, id: int, rate: real, path: seq<nat>)
    requires Inv(s) && Possible(s, Begin(id, rate, path))
    ensures Inv(Step(s, Begin(id, rate, path)).value)
  {}

  lemma {:induction false} AnsweredStep(s: Net, f: nat)
    requires Inv(s) && Possible(s, Answered(f))
    ensures Inv(Step(s, Answered(f)).value)
  {
    var F := s.flows[f];
    assert FlowOk(s.links, F);
    var G := F.(phase := Telling(0, F.phase.dec, 0));
    var t := s.(flows := s.flows[f := G]);
    assert forall i :: HasSlot(s.links, F, i) <==> HasSlot(s.links, G, i);
    forall l | 0 <= l < |s.links| ensures LinkOk(t.flows, s.links[l], l) {
      AnsweredLink(s, f, l);
    }
  }

  lemma {:induction false} AnsweredLink(s: Net, f: nat, l: nat)
    requires Inv(s) && Possible(s, Answered(f)) && l < |s.links|
    ensures LinkOk(s.flows[f := s.flows[f].(phase := Telling(0, s.flows[f].phase.dec, 0))], s.links[l], l)
  {
    var F := s.flows[f];
    var G := F.(phase := Telling(0, F.phase.dec, 0));
    var flows := s.flows[f := G];
    assert LinkOk(s.flows, s.links[l], l) && Waiting(F, l) == Waiting(G, l) == (l in F.path);
    forall x | x in s.links[l].pending && x != NONE ensures exists g :: g in flows && g.id == x && Waiting(g, l) {
      var g :| g in s.flows && g.id == x && Waiting(g, l);
      var k :| 0 <= k < |s.flows| && s.flows[k] == g;
      assert flows[k] in flows && flows[k].id == x;
    }
    SumsChange(s.flows, s.links[l].pending, flows, s.links[l].pending, l, f);
  }

  lemma {:induction false} StepInv(s: Net, ev: Event)
    requires Inv(s) && Possible(s, ev) && Step(s, ev).Some?
    ensures Inv(Step(s, ev).value)
  {
    hide Inv;
    match ev
    case Begin(id, rate, path) => BeginStep(s, id, rate, path);
    case RequestCrosses(f) => RequestStep(s, f);
    case Answered(f) => AnsweredStep(s, f);
    case ConfirmCrosses(f) => ConfirmStep(s, f);
    case TeardownCrosses(f) => TeardownStep(s, f);
  }

  // ---------- whole runs ----------

  lemma {:induction false} InitialInv(limits: seq<real>)
    ensures Inv(Initial(limits))
  {}

  lemma {:induction false} RunInv(s: Net, evs: seq<Event>)
    requires Inv(s) && Legal(s, evs)
    ensures Inv(Run(s, evs))
    decreases |evs|
  {
    hide Inv;
    if evs != [] {
      StepInv(s, evs[0]);
      RunInv(Step(s, evs[0]).value, evs[1..]);
    }
  }

  // ---------- the ledger of a flow ----------

  // By how much a step changes the reserved rate of link `l` when it is a packet of flow
  // `f` that passes.
  ghost function Change(s: Net, ev: Event, f: nat, l: nat): real
    requires Possible(s, ev) && Step(s, ev).Some?
  {
    var t := Step(s, ev).value;
    if (ev.RequestCrosses? || ev.ConfirmCrosses? || ev.TeardownCrosses?) && ev.f == f && l < |s.links| && l < |t.links|
    then t.links[l].resv - s.links[l].resv else 0.0
  }

  // The sum of these changes along a run.
  ghost function Ledger(s: Net, evs: seq<Event>, f: nat, l: nat): real
    requires Legal(s, evs)
    decreases |evs|
  {
    if evs == [] then 0.0 else Change(s, evs[0], f, l) + Ledger(Step(s, evs[0]).value, evs[1..], f, l)
  }

  ghost function ShareAt(s: Net, f: nat, l: nat): real {
    if f < |s.flows| && l < |s.links| then Share(s.flows[f], s.links[l].pending, l) else 0.0
  }

  lemma {:induction false} MoveShares(s: Net, f: nat, i: nat, link: Link, phase: Phase, g: nat, l: nat)
    requires Inv(s) && Crossing(s, f, i) && GoodMove(s, f, i, link, phase) && g < |s.flows| && l < |s.links|
    ensures var t := Moved(s, f, i, link, phase);
      ShareAt(t, g, l) - ShareAt(s, g, l) == if g == f then t.links[l].resv - s.links[l].resv else 0.0
  {
    if g != f { MoveHolds(s, f, i, link, phase, l, g); }
    hide Holds;
  }

  lemma {:induction false} RequestShares(s: Net, g: nat, f: nat, l: nat)
    requires Inv(s) && Possible(s, RequestCrosses(g)) && Step(s, RequestCrosses(g)).Some? && f < |s.flows| && l < |s.links|
    ensures ShareAt(Step(s, RequestCrosses(g)).value, f, l) - ShareAt(s, f, l) == Change(s, RequestCrosses(g), f, l)
  {
    hide Inv, ShareAt, GoodMove, Pass;
    RequestStep(s, g);
    var p := s.flows[g].phase;
    var r := Cross(s, g, p.k, Request, p.dec).value;
    MoveShares(s, g, p.k, r.0, Asking(p.k + 1, r.1.decision), f, l);
  }

  lemma {:induction false} ConfirmShares(s: Net, g: nat, f: nat, l: nat)
    requires Inv(s) && Possible(s, ConfirmCrosses(g)) && Step(s, ConfirmCrosses(g)).Some? && f < |s.flows| && l < |s.links|
    ensures ShareAt(Step(s, ConfirmCrosses(g)).value, f, l) - ShareAt(s, f, l) == Change(s, ConfirmCrosses(g), f, l)
  {
    hide Inv, ShareAt, GoodMove, Pass;
    ConfirmStep(s, g);
    var p := s.flows[g].phase;
    MoveShares(s, g, p.k, Cross(s, g, p.k, Confirm, p.dec).value.0, p.(k := p.k + 1), f, l);
  }

  lemma {:induction false} TeardownShares(s: Net, g: nat, f: nat, l: nat)
    requires Inv(s) && Possible(s, TeardownCrosses(g)) && Step(s, TeardownCrosses(g)).Some? && f < |s.flows| && l < |s.links|
    ensures ShareAt(Step(s, TeardownCrosses(g)).value, f, l) - ShareAt(s, f, l) == Change(s, TeardownCrosses(g), f, l)
  {
    hide Inv, ShareAt, GoodMove, Pass;
    TeardownStep(s, g);
    var p := s.flows[g].phase;
    MoveShares(s, g, p.torn, Cross(s, g, p.torn, Teardown, true).value.0, p.(torn := p.torn + 1), f, l);
  }

  lemma {:induction false} StepShares(s: Net, ev: Event, f: nat, l: nat)
    requires Inv(s) && Possible(s, ev) && Step(s, ev).Some?
    ensures ShareAt(Step(s, ev).value, f, l) - ShareAt(s, f, l) == Change(s, ev, f, l)
  {
    if f < |s.flows| && l < |s.links| {
      match ev
      case Begin(_, _, _) =>
      case Answered(g) => AnsweredHolds(s, g, f, l);
      case RequestCrosses(g) => RequestShares(s, g, f, l);
      case ConfirmCrosses(g) => ConfirmShares(s, g, f, l);
      case TeardownCrosses(g) => TeardownShares(s, g, f, l);
    } else {
      SameLinks(s, ev);
    }
  }

  lemma {:induction false} SameLinks(s: Net, ev: Event)
    requires Possible(s, ev) && Step(s, ev).Some?
    ensures |Step(s, ev).value.links| == |s.links|
    ensures ev.Begin? || |Step(s, ev).value.flows| == |s.flows|
    ensures ev.Begin? ==> Step(s, ev).value.flows == s.flows + [Flow(ev.id, ev.rate, ev.path, Asking(0, true))]
  {}

  lemma {:induction false} AnsweredHolds(s: Net, g: nat, f: nat, l: nat)
    requires Inv(s) && Possible(s, Answered(g)) && f < |s.flows| && l < |s.links|
    ensures Holds(Step(s, Answered(g)).value.flows[f], s.links[l].pending, l) <==> Holds(s.flows[f], s.links[l].pending, l)
  {
    assert FlowOk(s.links, s.flows[g]);
  }

  // The ledger of a flow at a link is what the link holds for it.
  lemma {:induction false} LedgerIsShare(s: Net, evs: seq<Event>, f: nat, l: nat)
    requires Inv(s) && Legal(s, evs)
    ensures Ledger(s, evs, f, l) == ShareAt(Run(s, evs), f, l) - ShareAt(s, f, l)
    decreases |evs|
  {
    hide Inv, Change, ShareAt, Step;
    if evs != [] {
      StepShares(s, evs[0], f, l);
      StepInv(s, evs[0]);
      LedgerIsShare(Step(s, evs[0]).value, evs[1..], f, l);
    }
  }

  // Along any run, what the packets of a flow have added to the reserved rate of the
  // links once its confirmation has crossed its path: the rate at every link of the path
  // if it was accepted, nothing at any if not; behind a teardown nothing; and nothing
  // ever at links off the path.
  lemma {:induction false} AllOrNothing(limits: seq<real>, evs: seq<Event>, f: nat)
    requires Legal(Initial(limits), evs)
    ensures var s := Run(Initial(limits), evs);
      f < |s.flows| ==>
        var F := s.flows[f];
        && (forall l :: l !in F.path ==> Ledger(Initial(limits), evs, f, l) == 0.0)
        && (F.phase.Telling? && F.phase.k == |F.path| ==>
              forall i :: 0 <= i < |F.path| ==>
                Ledger(Initial(limits), evs, f, F.path[i]) == if F.phase.dec && F.phase.torn <= i then F.rate else 0.0)
  {
    InitialInv(limits);
    RunInv(Initial(limits), evs);
    var s := Run(Initial(limits), evs);
    if f < |s.flows| {
      var F := s.flows[f];
      assert FlowOk(s.links, F);
      forall l: nat
        ensures Ledger(Initial(limits), evs, f, l) == ShareAt(s, f, l)
      {
        LedgerIsShare(Initial(limits), evs, f, l);
      }
      if F.phase.Telling? && F.phase.k == |F.path| {
        forall i | 0 <= i < |F.path|
          ensures ShareAt(s, f, F.path[i]) == if F.phase.dec && F.phase.torn <= i then F.rate else 0.0
        {
          PlaceAt(F.path, i);
        }
      }
    }
  }

  // The decision that reaches the sink is yes exactly when every link of the path
  // has taken a slot and added the rate.
  lemma {:induction false} AcceptedExactly(limits: seq<real>, evs: seq<Event>, f: nat)
    requires Legal(Initial(limits), evs)
    ensures var s := Run(Initial(limits), evs);
      f < |s.flows| && s.flows[f].phase.Asking? && s.flows[f].phase.k == |s.flows[f].path| ==>
        var F := s.flows[f];
        && (F.phase.dec <==> forall i :: 0 <= i < |F.path| ==> HasSlot(s.links, F, i))
        && forall i :: 0 <= i < |F.path| ==>
             Ledger(Initial(limits), evs, f, F.path[i]) == if HasSlot(s.links, F, i) then F.rate else 0.0
  {
    InitialInv(limits);
    RunInv(Initial(limits), evs);
    var s := Run(Initial(limits), evs);
    if f < |s.flows| && s.flows[f].phase.Asking? && s.flows[f].phase.k == |s.flows[f].path| {
      var F := s.flows[f];
      assert FlowOk(s.links, F);
      forall i | 0 <= i < |F.path|
        ensures Ledger(Initial(limits), evs, f, F.path[i]) == if HasSlot(s.links, F, i) then F.rate else 0.0
      {
        LedgerIsShare(Initial(limits), evs, f, F.path[i]);
        PlaceAt(F.path, i);
      }
    }
  }

  ghost predicate SameShape(k: Link, l: Link) { l.limit == k.limit && |l.pending| == |k.pending| }

  lemma {:induction false} LimitsKept(s: Net, evs: seq<Event>)
    requires Inv(s) && Legal(s, evs)
    ensures |Run(s, evs).links| == |s.links| && forall l :: 0 <= l < |s.links| ==> SameShape(s.links[l], Run(s, evs).links[l])
    decreases |evs|
  {
    hide Inv, Step;
    if evs != [] {
      StepInv(s, evs[0]);
      StepLimits(s, evs[0]);
      LimitsKept(Step(s, evs[0]).value, evs[1..]);
    }
  }

  lemma {:induction false} StepLimits(s: Net, ev: Event)
    requires Possible(s, ev) && Step(s, ev).Some?
    ensures var t := Step(s, ev).value; |t.links| == |s.links| && forall l :: 0 <= l < |s.links| ==> SameShape(s.links[l], t.links[l])
  {}

  // The rates that a link holds, of all flows, leave room for `rate` within its limit.
  ghost predicate HasRoom(s: Net, l: nat, limit: real, rate: real) {
    l < |s.links| && Reserved(s.flows, s.links[l].pending, l) + rate <= limit
  }

  // What a request meets at a link of any run: it is admitted exactly if the rates held
  // there leave room for it. Then it takes a slot and is added to them; if not, the link
  // stays as it was, and the decision is no from there on.
  lemma {:induction false} RequestDecides(limits: seq<real>, evs: seq<Event>, f: nat)
    requires Legal(Initial(limits), evs)
    requires Possible(Run(Initial(limits), evs), RequestCrosses(f)) && Step(Run(Initial(limits), evs), RequestCrosses(f)).Some?
    ensures var s := Run(Initial(limits), evs);
      var t := Step(s, RequestCrosses(f)).value;
      var F := s.flows[f];
      var l := F.path[F.phase.k];
      var yes := l < |limits| && HasRoom(s, l, limits[l], F.rate);
      && |t.links| == |s.links| && |t.flows| == |s.flows|
      && t.flows[f].phase == Asking(F.phase.k + 1, F.phase.dec && yes)
      && (if yes then
            && t.links[l].resv == s.links[l].resv + F.rate && t.links[l].numfl == s.links[l].numfl + 1
            && F.id !in s.links[l].pending && F.id in t.links[l].pending
          else t.links[l] == s.links[l])
      && (forall m :: 0 <= m < |s.links| && m != l ==> t.links[m] == s.links[m])
      && (forall g :: 0 <= g < |s.flows| && g != f ==> t.flows[g] == s.flows[g])
  {
    InitialInv(limits);
    RunInv(Initial(limits), evs);
    LimitsKept(Initial(limits), evs);
    var s := Run(Initial(limits), evs);
    var F := s.flows[f];
    var l := F.path[F.phase.k];
    hide Run, Legal;
    assert LinkOk(s.flows, s.links[l], l) && FlowOk(s.links, F);
    PlaceAt(F.path, F.phase.k);
    NoSlot(s, f, l);
    hide Inv, Reserved, LinkOk, FlowOk;
    if NONE in s.links[l].pending { TakenSlot(s.links[l].pending, F.id); }
  }

  lemma {:induction false} TakenSlot(p: seq<int>, id: int)
    requires NONE in p
    ensures id in p[First(p, NONE) := id]
  {
    assert p[First(p, NONE) := id][First(p, NONE)] == id;
  }

  // The reserved rate of a link is the sum over the flows it holds, the traced
  // count is one less than their number, and the limit is kept.
  lemma {:induction false} ReservedIsSum(limits: seq<real>, evs: seq<Event>, l: nat)
    requires Legal(Initial(limits), evs) && l < |Run(Initial(limits), evs).links|
    ensures var s := Run(Initial(limits), evs);
      var link := s.links[l];
      && link.resv == Reserved(s.flows, link.pending, l)
      && link.numfl == Admitted(s.flows, link.pending, l) - 1
      && |link.pending| == 500 && |limits| == |s.links| && link.limit == limits[l]
      && (link.resv <= link.limit || link.resv <= 0.0)
  {
    InitialInv(limits);
    RunInv(Initial(limits), evs);
    LimitsKept(Initial(limits), evs);
    assert LinkOk(Run(Initial(limits), evs).flows, Run(Initial(limits), evs).links[l], l);
  }

  lemma {:induction false} NoneHeld(flows: seq<Flow>, pending: seq<int>, l: nat)
    requires forall f :: f in flows ==> Done(f)
    ensures Reserved(flows, pending, l) == 0.0 && Admitted(flows, pending, l) == 0
  {
    if flows != [] {
      var n := |flows| - 1;
      assert flows[n] in flows;
      assert forall f :: f in flows[..n] ==> f in flows;
      NoneHeld(flows[..n], pending, l);
    }
  }

  // The source may send a teardown at any time, also after a rejection. Where the flow
  // does not hold its rate such a teardown puts the count of the link wrong, and the
  // reserved rate too unless the rate is 0: the books are right behind it exactly when
  // the flow held the link.
  lemma {:induction false} TeardownExactly(s: Net, f: nat, i: nat)
    requires Inv(s) && Crossing(s, f, i)
    ensures var F, l := s.flows[f], s.flows[f].path[i];
      var now := Cross(s, f, i, Teardown, true).value.0;
      && (now.numfl == Admitted(s.flows, now.pending, l) - Count(F, now.pending, l) - 1 <==> Holds(F, now.pending, l))
      && (now.resv == Reserved(s.flows, now.pending, l) - Share(F, now.pending, l) <==> Holds(F, now.pending, l) || F.rate == 0.0)
  {
    assert LinkOk(s.flows, s.links[s.flows[f].path[i]], s.flows[f].path[i]);
  }

  // When every flow is done, nothing is left reserved and every slot is free.
  lemma {:induction false} NothingLeaks(limits: seq<real>, evs: seq<Event>, l: nat)
    requires Legal(Initial(limits), evs) && l < |Run(Initial(limits), evs).links|
    requires forall f :: f in Run(Initial(limits), evs).flows ==> Done(f)
    ensures var link := Run(Initial(limits), evs).links[l];
      link.resv == 0.0 && link.numfl == -1 && forall x :: x in link.pending ==> x == NONE
  {
    InitialInv(limits);
    RunInv(Initial(limits), evs);
    var s := Run(Initial(limits), evs);
    assert LinkOk(s.flows, s.links[l], l);
    NoneHeld(s.flows, s.links[l].pending, l);
    assert forall f :: f in s.flows ==> !Waiting(f, l);
  }

  // Each slot is in the use of a different flow that waits at the link.
  ghost predicate AllInUse(flows: seq<Flow>, pending: seq<int>, l: nat) {
    && (forall i, j :: 0 <= i < j < |pending| ==> pending[i] != pending[j])
    && (forall x :: x in pending ==> exists g :: g in flows && g.id == x && Waiting(g, l))
  }

  lemma {:induction false} FullExactly(s: Net, l: nat)
    requires Inv(s) && l < |s.links|
    ensures NONE !in s.links[l].pending <==> AllInUse(s.flows, s.links[l].pending, l)
  {}

  // A run ends early exactly when a link admits a request while all its slots are
  // in use.
  lemma {:induction false} EndsExactly(limits: seq<real>, evs: seq<Event>, ev: Event)
    requires Legal(Initial(limits), evs) && Possible(Run(Initial(limits), evs), ev)
    ensures var s := Run(Initial(limits), evs);
      Step(s, ev).None? <==>
        && ev.RequestCrosses?
        && var l := s.flows[ev.f].path[s.flows[ev.f].phase.k];
           Admits(s.links[l], s.flows[ev.f].rate) && AllInUse(s.flows, s.links[l].pending, l)
  {
    InitialInv(limits);
    RunInv(Initial(limits), evs);
    var s := Run(Initial(limits), evs);
    if ev.RequestCrosses? {
      FullExactly(s, s.flows[ev.f].path[s.flows[ev.f].phase.k]);
    }
  }
}
