/** Simultaneous pickup and delivery (resources/pickup_delivery.h). */
module PickupDelivery {
  import opened Types
  import opened Resources

  /** Forward: load picked up, delivery room left. Backward: pickup room left, load delivered. */
  datatype State = State(P: real, D: real)

  datatype PickupDelivery = PickupDelivery(pickup: nat -> real, delivery: nat -> real, Q: real) {
    function InitState(dir: Direction): State {
      if dir.Forward? then State(0.0, Q) else State(Q, 0.0)
    }

    function ExtendAlongArc(dir: Direction, s: State, a: nat): (State, Bound) {
      (s, Fin(0.0))
    }

    function ExtendToVertex(dir: Direction, s: State, v: nat): (State, Bound) {
      var p, d := pickup(v), delivery(v);
      if dir.Forward? then
        var P' := s.P + p;
        if P' > Q then (State(0.0, 0.0), Inf)
        else if d > s.D then (State(0.0, 0.0), Inf)
        else (State(P', Min(s.D - d, Q - P')), Fin(0.0))
      else
        var D' := s.D + d;
        if D' > Q then (State(0.0, 0.0), Inf)
        else if p > s.P then (State(0.0, 0.0), Inf)
        else (State(Min(s.P - p, Q - D'), D'), Fin(0.0))
    }

    function DominationCost(dir: Direction, v: nat, s: State, t: State): Bound {
      if dir.Forward? then
        if s.P > t.P || s.D < t.D then Inf else Fin(0.0)
      else
        if s.D > t.D || s.P < t.P then Inf else Fin(0.0)
    }

    function ConcatenationCost(v: nat, fw: State, bw: State): Bound {
      if fw.P > bw.P || bw.D > fw.D then Inf else Fin(0.0)
    }

    function AsResource(): Resource<State> {
      Resource(1, InitState, ExtendAlongArc, ExtendToVertex, DominationCost, ConcatenationCost, 0.0,
               false, (v: nat, s: State) => 0, false, (s: State) => 0, 0.0)
    }
  }

  /** Demands are amounts, so they are not negative. */
  ghost predicate Demands(pd: PickupDelivery) {
    && 0.0 <= pd.Q
    && (forall v :: 0.0 <= pd.pickup(v))
    && (forall v :: 0.0 <= pd.delivery(v))
  }

  ghost function Inv(pd: PickupDelivery): Invariant<State> {
    (dir: Direction, v: nat, s: State) => InRange(pd, s)
  }

  // ----- The laws on the functions themselves -----

  lemma Dominance(pd: PickupDelivery, dir: Direction, v: nat, w: nat, s: State, t: State)
    requires pd.DominationCost(dir, v, s, t).Fin? && pd.ExtendToVertex(dir, t, w).1.Fin?
    ensures pd.ExtendToVertex(dir, s, w).1.Fin?
    ensures pd.DominationCost(dir, w, pd.ExtendToVertex(dir, s, w).0, pd.ExtendToVertex(dir, t, w).0).Fin?
  {
  }

  ghost predicate InRange(pd: PickupDelivery, s: State) {
    0.0 <= s.P && 0.0 <= s.D && s.P + s.D <= pd.Q
  }

  lemma RangeKept(pd: PickupDelivery, dir: Direction, s: State, v: nat)
    requires Demands(pd)
    ensures InRange(pd, pd.InitState(dir))
    ensures InRange(pd, s) && pd.ExtendToVertex(dir, s, v).1.Fin? ==> InRange(pd, pd.ExtendToVertex(dir, s, v).0)
  {
  }

  lemma SplitShift(pd: PickupDelivery, j: nat, k: nat, s: State, t: State)
    requires Demands(pd) && InRange(pd, s) && InRange(pd, t)
    ensures var bw := pd.ExtendToVertex(Backward, t, j);
            var fw := pd.ExtendToVertex(Forward, s, j);
            (bw.1.Fin? && pd.ConcatenationCost(j, s, bw.0).Fin?)
            <==> (fw.1.Fin? && pd.ConcatenationCost(k, fw.0, t).Fin?)
  {
  }

  lemma SplitAtSink(pd: PickupDelivery, j: nat, s: State)
    requires Demands(pd) && InRange(pd, s)
    ensures var end := pd.ExtendToVertex(Backward, State(pd.Q, 0.0), j);
            end.1.Fin? && pd.ConcatenationCost(j, s, end.0).Fin? <==> pd.ExtendToVertex(Forward, s, j).1.Fin?
  {
  }

  // ----- The same laws on the resource -----

  lemma AtVertex(pd: PickupDelivery, dir: Direction, s: State, v: nat)
    ensures pd.AsResource().extendToVertex(dir, s, v) == pd.ExtendToVertex(dir, s, v)
  {
  }

  lemma Step(pd: PickupDelivery, dir: Direction, s: State, a: nat, v: nat)
    ensures Advance(pd.AsResource(), dir, s, a, v) == pd.ExtendToVertex(dir, s, v)
  {
    AtVertex(pd, dir, s, v);
    assert pd.AsResource().extendAlongArc(dir, s, a) == (s, Fin(0.0));
  }

  lemma Join(pd: PickupDelivery, s: State, a: nat, j: nat, t: State)
    ensures JoinCost(pd.AsResource(), s, a, j, t) == pd.ConcatenationCost(j, s, t)
  {
    assert pd.AsResource().extendAlongArc(Forward, s, a) == (s, Fin(0.0));
  }

  lemma Simulation(pd: PickupDelivery, R: Resource<State>, top: Topology, dir: Direction, s: State, t: State, a: nat)
    requires R == pd.AsResource()
    ensures SimulationAt(R, top, dir, s, t, a)
  {
    Step(pd, dir, s, a, top.Head(dir, a));
    Step(pd, dir, t, a, top.Head(dir, a));
    if Dom(R, dir, top.Tail(dir, a), s, t) && Advance(R, dir, t, a, top.Head(dir, a)).1.Fin? {
      Dominance(pd, dir, top.Tail(dir, a), top.Head(dir, a), s, t);
    }
  }

  lemma Shift(pd: PickupDelivery, R: Resource<State>, top: Topology, inv: Invariant<State>, s: State, a: nat, b: nat,
              t: State)
    requires R == pd.AsResource() && inv == Inv(pd) && Demands(pd)
    ensures ShiftAt(R, top, inv, s, a, b, t)
  {
    Step(pd, Backward, t, b, top.to(a));
    Step(pd, Forward, s, a, top.to(a));
    Join(pd, s, a, top.to(a), Advance(R, Backward, t, b, top.to(a)).0);
    Join(pd, Advance(R, Forward, s, a, top.to(a)).0, b, top.to(b), t);
    if top.to(a) == top.from(b) && inv(Forward, top.from(a), s) && inv(Backward, top.to(b), t) {
      SplitShift(pd, top.to(a), top.to(b), s, t);
    }
  }

  lemma SinkJoin(pd: PickupDelivery, R: Resource<State>, top: Topology, inv: Invariant<State>, s: State, a: nat)
    requires R == pd.AsResource() && inv == Inv(pd) && Demands(pd)
    ensures SinkJoinAt(R, top, inv, s, a)
  {
    Step(pd, Forward, s, a, top.sink);
    assert R.initState(Backward) == State(pd.Q, 0.0);
    AtVertex(pd, Backward, R.initState(Backward), top.sink);
    Join(pd, s, a, top.sink, Initial(R, Backward, top.sink).0);
    if inv(Forward, top.from(a), s) {
      SplitAtSink(pd, top.sink, s);
    }
  }

  lemma JoinMonotonicity(pd: PickupDelivery, R: Resource<State>, top: Topology, s1: State, s2: State, a: nat,
                         t1: State, t2: State)
    requires R == pd.AsResource()
    ensures JoinMonotoneAt(R, top, s1, s2, a, t1, t2)
  {
    Join(pd, s1, a, top.to(a), t1);
    Join(pd, s2, a, top.to(a), t2);
  }

  lemma InvariantStep(pd: PickupDelivery, R: Resource<State>, top: Topology, inv: Invariant<State>, dir: Direction,
                      s: State, a: nat)
    requires R == pd.AsResource() && inv == Inv(pd) && Demands(pd)
    ensures InvariantAt(R, top, inv, dir, s, a)
  {
    Step(pd, dir, s, a, top.Head(dir, a));
    AtVertex(pd, dir, R.initState(dir), top.Start(dir));
    assert R.initState(dir) == pd.InitState(dir);
    RangeKept(pd, dir, s, top.Head(dir, a));
    RangeKept(pd, dir, pd.InitState(dir), top.Start(dir));
  }

  lemma PickupDeliveryDisposable(pd: PickupDelivery, top: Topology)
    ensures Disposable(pd.AsResource(), top)
  {
    var R := pd.AsResource();
    forall dir, v, s, t ensures FilterAt(R, dir, v, s, t) {}
    forall dir, s, t, a ensures CostFreeAt(R, dir, s, t, a) { AtVertex(pd, dir, s, a); }
    forall dir, v, s, t, u ensures DomOrderAt(R, dir, v, s, t, u) {}
    forall dir, s, t, a ensures SimulationAt(R, top, dir, s, t, a) { Simulation(pd, R, top, dir, s, t, a); }
  }

  lemma PickupDeliveryJoinable(pd: PickupDelivery, top: Topology)
    requires Demands(pd)
    ensures Joinable(pd.AsResource(), top, Inv(pd))
  {
    var R, inv := pd.AsResource(), Inv(pd);
    forall s1, s2, a, t1, t2
      ensures JoinMonotoneAt(R, top, s1, s2, a, t1, t2)
    {
      JoinMonotonicity(pd, R, top, s1, s2, a, t1, t2);
    }
    forall dir, s, a ensures InvariantAt(R, top, inv, dir, s, a) { InvariantStep(pd, R, top, inv, dir, s, a); }
    forall s, a, b, t ensures ShiftAt(R, top, inv, s, a, b, t) { Shift(pd, R, top, inv, s, a, b, t); }
    forall s, a ensures SinkJoinAt(R, top, inv, s, a) { SinkJoin(pd, R, top, inv, s, a); }
  }
}
