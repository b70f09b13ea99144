/** A disposable resource carried in the resource pack (resources/standard.h). */
module StandardResource {
  import opened Types
  import opened Resources

  datatype Standard = Standard(consumption: nat -> real, lb: nat -> real, ub: nat -> real, source: nat, sink: nat) {
    function InitState(dir: Direction): real {
      if dir.Forward? then lb(source) else ub(sink)
    }

    function ExtendAlongArc(dir: Direction, q: real, a: nat): (real, Bound) {
      if dir.Forward? then (q + consumption(a), Fin(0.0)) else (q - consumption(a), Fin(0.0))
    }

    function ExtendToVertex(dir: Direction, q: real, v: nat): (real, Bound) {
      if dir.Forward? then
        var r := Max(q, lb(v));
        (r, if r > ub(v) then Inf else Fin(0.0))
      else
        var r := Min(q, ub(v));
        (r, if r < lb(v) then Inf else Fin(0.0))
    }

    function DominationCost(dir: Direction, v: nat, s: real, t: real): Bound {
      if dir.Forward? then
        if s > t then Inf else Fin(0.0)
      else
        if s < t then Inf else Fin(0.0)
    }

    function ConcatenationCost(v: nat, fw: real, bw: real): Bound {
      if fw > bw then Inf else Fin(0.0)
    }

    function AsResource(): Resource<real> {
      Resource(1, InitState, ExtendAlongArc, ExtendToVertex, DominationCost, ConcatenationCost, 0.0,
               false, (v: nat, s: real) => 0, false, (s: real) => 0, 0.0)
    }
  }

  ghost predicate Matches(std: Standard, top: Topology) {
    std.source == top.source && std.sink == top.sink
  }

  /** Backward states stay inside the window of their vertex. */
  ghost function Inv(std: Standard): Invariant<real> {
    (dir: Direction, v: nat, s: real) => std.lb(v) <= s <= std.ub(v)
  }

  lemma Along(std: Standard, dir: Direction, s: real, a: nat)
    ensures std.AsResource().extendAlongArc(dir, s, a) == std.ExtendAlongArc(dir, s, a)
  {
  }

  lemma AtVertex(std: Standard, dir: Direction, s: real, v: nat)
    ensures std.AsResource().extendToVertex(dir, s, v) == std.ExtendToVertex(dir, s, v)
  {
  }

  lemma Step(std: Standard, dir: Direction, s: real, a: nat, v: nat)
    ensures Advance(std.AsResource(), dir, s, a, v)
            == std.ExtendToVertex(dir, if dir.Forward? then s + std.consumption(a) else s - std.consumption(a), v)
  {
    Along(std, dir, s, a);
    AtVertex(std, dir, std.ExtendAlongArc(dir, s, a).0, v);
  }

  lemma Join(std: Standard, s: real, a: nat, j: nat, t: real)
    ensures JoinCost(std.AsResource(), s, a, j, t) == if s + std.consumption(a) > t then Inf else Fin(0.0)
  {
    Along(std, Forward, s, a);
  }

  lemma Simulation(std: Standard, R: Resource<real>, top: Topology, dir: Direction, s: real, t: real, a: nat)
    requires R == std.AsResource()
    ensures SimulationAt(R, top, dir, s, t, a)
  {
    Step(std, dir, s, a, top.Head(dir, a));
    Step(std, dir, t, a, top.Head(dir, a));
  }

  lemma Shift(std: Standard, R: Resource<real>, top: Topology, inv: Invariant<real>, s: real, a: nat, b: nat, t: real)
    requires R == std.AsResource()
    ensures ShiftAt(R, top, inv, s, a, b, t)
  {
    Step(std, Backward, t, b, top.to(a));
    Step(std, Forward, s, a, top.to(a));
    Join(std, s, a, top.to(a), Advance(R, Backward, t, b, top.to(a)).0);
    Join(std, Advance(R, Forward, s, a, top.to(a)).0, b, top.to(b), t);
  }

  lemma SinkJoin(std: Standard, R: Resource<real>, top: Topology, inv: Invariant<real>, s: real, a: nat)
    requires R == std.AsResource() && Matches(std, top)
    ensures SinkJoinAt(R, top, inv, s, a)
  {
    Step(std, Forward, s, a, top.sink);
    AtVertex(std, Backward, std.ub(top.sink), top.sink);
    assert R.initState(Backward) == std.ub(top.sink);
    Join(std, s, a, top.sink, Initial(R, Backward, top.sink).0);
  }

  lemma JoinMonotonicity(std: Standard, R: Resource<real>, top: Topology, s1: real, s2: real, a: nat, t1: real,
                         t2: real)
    requires R == std.AsResource()
    ensures JoinMonotoneAt(R, top, s1, s2, a, t1, t2)
  {
    Join(std, s1, a, top.to(a), t1);
    Join(std, s2, a, top.to(a), t2);
  }

  lemma InvariantStep(std: Standard, R: Resource<real>, top: Topology, inv: Invariant<real>, dir: Direction, s: real,
                      a: nat)
    requires R == std.AsResource() && inv == Inv(std)
    ensures InvariantAt(R, top, inv, dir, s, a)
  {
    Step(std, dir, s, a, top.Head(dir, a));
    AtVertex(std, dir, R.initState(dir), top.Start(dir));
  }

  lemma StandardDisposable(std: Standard, top: Topology)
    ensures Disposable(std.AsResource(), top)
  {
    var R := std.AsResource();
    forall dir, v, s, t ensures FilterAt(R, dir, v, s, t) {}
    forall dir, s, t, a ensures CostFreeAt(R, dir, s, t, a) {}
    forall dir, v, s, t, u ensures DomOrderAt(R, dir, v, s, t, u) {}
    forall dir, s, t, a ensures SimulationAt(R, top, dir, s, t, a) { Simulation(std, R, top, dir, s, t, a); }
  }

  lemma StandardJoinable(std: Standard, top: Topology)
    requires Matches(std, top)
    ensures Joinable(std.AsResource(), top, Inv(std))
  {
    var R, inv := std.AsResource(), Inv(std);
    forall s1, s2, a, t1, t2
      ensures JoinMonotoneAt(R, top, s1, s2, a, t1, t2)
    {
      JoinMonotonicity(std, R, top, s1, s2, a, t1, t2);
    }
    forall dir, s, a ensures InvariantAt(R, top, inv, dir, s, a) { InvariantStep(std, R, top, inv, dir, s, a); }
    forall s, a, b, t ensures ShiftAt(R, top, inv, s, a, b, t) { Shift(std, R, top, inv, s, a, b, t); }
    forall s, a ensures SinkJoinAt(R, top, inv, s, a) { SinkJoin(std, R, top, inv, s, a); }
  }
}
