/**
 * The Resource concept and the resource pack (resource.h).
 *
 * A resource is a record of functions over a label state S, the way the template
 * parameter of the engine is used. A pack of several resources is built by Both,
 * one fold step of the parameter pack at a time.
 */
module Resources {
  import opened Types

  /** The arcs of the problem as seen by a resource. */
  datatype Topology = Topology(from: nat -> nat, to: nat -> nat, source: nat, sink: nat) {
    /** The vertex a label stands on before it is extended along arc a. */
    function Tail(dir: Direction, a: nat): nat { if dir.Forward? then from(a) else to(a) }

    function Head(dir: Direction, a: nat): nat { if dir.Forward? then to(a) else from(a) }

    function Start(dir: Direction): nat { if dir.Forward? then source else sink }

    function End(dir: Direction): nat { if dir.Forward? then sink else source }
  }

  datatype Resource<!S> = Resource(
    size: nat,
    initState: Direction -> S,
    extendAlongArc: (Direction, S, nat) -> (S, Bound),
    extendToVertex: (Direction, S, nat) -> (S, Bound),
    dominationCost: (Direction, nat, S, S) -> Bound,
    concatenationCost: (nat, S, S) -> Bound,
    minDominationCost: real,
    // What the label store keeps in its arrays to filter dominance checks.
    hasNg: bool,
    ngBits: (nat, S) -> bv32,
    hasR1c: bool,
    r1cBits: S -> bv64,
    minDominationCostExclR1c: real)

  /** One extension step: along arc a, then to the vertex v it leads to. */
  function Advance<S>(R: Resource<S>, dir: Direction, s: S, a: nat, v: nat): (S, Bound) {
    var along := R.extendAlongArc(dir, s, a);
    if along.1.Inf? then along else
    var at := R.extendToVertex(dir, along.0, v);
    (at.0, along.1.Plus(at.1))
  }

  /** The state of the initial label of a direction, which stands on vertex v. */
  function Initial<S>(R: Resource<S>, dir: Direction, v: nat): (S, Bound) {
    R.extendToVertex(dir, R.initState(dir), v)
  }

  /** Cost of joining forward state s at the tail of a with backward state t at its head j. */
  function JoinCost<S>(R: Resource<S>, s: S, a: nat, j: nat, t: S): Bound {
    var along := R.extendAlongArc(Forward, s, a);
    if along.1.Inf? then Inf else along.1.Plus(R.concatenationCost(j, along.0, t))
  }

  // ----- Packs -----

  /** EmptyPack: no resource beyond the main ones. */
  datatype EmptyPack = NoResource {
    function Init(dir: Direction): () { () }

    function Extend(dir: Direction, s: (), a: nat): ((), Bound) { ((), Fin(0.0)) }

    function Domination(dir: Direction, v: nat, s: (), t: ()): Bound { Fin(0.0) }

    function Concatenation(v: nat, s: (), t: ()): Bound { Fin(0.0) }

    function NgBits(v: nat, s: ()): bv32 { 0 }

    function R1cBits(s: ()): bv64 { 0 }

    function AsResource(): Resource<()> {
      Resource(0, Init, Extend, Extend, Domination, Concatenation, 0.0, false, NgBits, false, R1cBits, 0.0)
    }
  }

  /** A pack of two; larger packs nest it. An infeasible part stops the fold. */
  datatype Pack<!A, !B> = Pack(R1: Resource<A>, R2: Resource<B>) {
    function Init(dir: Direction): (A, B) { (R1.initState(dir), R2.initState(dir)) }

    function ExtendAlongArc(dir: Direction, s: (A, B), a: nat): ((A, B), Bound) {
      var r1 := R1.extendAlongArc(dir, s.0, a);
      if r1.1.Inf? then (s, Inf) else
      var r2 := R2.extendAlongArc(dir, s.1, a);
      if r2.1.Inf? then (s, Inf) else ((r1.0, r2.0), r1.1.Plus(r2.1))
    }

    function ExtendToVertex(dir: Direction, s: (A, B), v: nat): ((A, B), Bound) {
      var r1 := R1.extendToVertex(dir, s.0, v);
      if r1.1.Inf? then (s, Inf) else
      var r2 := R2.extendToVertex(dir, s.1, v);
      if r2.1.Inf? then (s, Inf) else ((r1.0, r2.0), r1.1.Plus(r2.1))
    }

    function Domination(dir: Direction, v: nat, s: (A, B), t: (A, B)): Bound {
      R1.dominationCost(dir, v, s.0, t.0).Plus(R2.dominationCost(dir, v, s.1, t.1))
    }

    function Concatenation(v: nat, s: (A, B), t: (A, B)): Bound {
      var c1 := R1.concatenationCost(v, s.0, t.0);
      if c1.Inf? then Inf else c1.Plus(R2.concatenationCost(v, s.1, t.1))
    }

    function NgBits(v: nat, s: (A, B)): bv32 {
      if R1.hasNg then R1.ngBits(v, s.0) else R2.ngBits(v, s.1)
    }

    function R1cBits(s: (A, B)): bv64 {
      if R1.hasR1c then R1.r1cBits(s.0) else R2.r1cBits(s.1)
    }

    function AsResource(): Resource<(A, B)> {
      Resource(R1.size + R2.size, Init, ExtendAlongArc, ExtendToVertex, Domination, Concatenation,
               R1.minDominationCost + R2.minDominationCost, R1.hasNg || R2.hasNg, NgBits,
               R1.hasR1c || R2.hasR1c, R1cBits,
               if R1.hasR1c then R1.minDominationCostExclR1c + R2.minDominationCost
               else R1.minDominationCost + R2.minDominationCostExclR1c)
    }
  }

  // ----- The laws a disposable resource obeys -----

  ghost predicate ZeroOrInf(c: Bound) { c == Fin(0.0) || c == Inf }

  /** No function of the resource changes the cost of a path. */
  ghost predicate CostFreeAt<S(!new)>(R: Resource<S>, dir: Direction, s: S, t: S, a: nat) {
    && ZeroOrInf(R.extendAlongArc(dir, s, a).1)
    && ZeroOrInf(R.extendToVertex(dir, s, a).1)
    && ZeroOrInf(R.dominationCost(dir, a, s, t))
    && ZeroOrInf(R.concatenationCost(a, s, t))
  }

  ghost predicate Dom<S(!new)>(R: Resource<S>, dir: Direction, v: nat, s: S, t: S) {
    R.dominationCost(dir, v, s, t).Fin?
  }

  ghost predicate DomOrderAt<S(!new)>(R: Resource<S>, dir: Direction, v: nat, s: S, t: S, u: S) {
    && Dom(R, dir, v, s, s)
    && (Dom(R, dir, v, s, t) && Dom(R, dir, v, t, u) ==> Dom(R, dir, v, s, u))
  }

  /** Every extension of the dominated state is an extension of the dominating one. */
  ghost predicate SimulationAt<S(!new)>(R: Resource<S>, top: Topology, dir: Direction, s: S, t: S, a: nat) {
    Dom(R, dir, top.Tail(dir, a), s, t) && Advance(R, dir, t, a, top.Head(dir, a)).1.Fin? ==>
      && Advance(R, dir, s, a, top.Head(dir, a)).1.Fin?
      && Dom(R, dir, top.Head(dir, a), Advance(R, dir, s, a, top.Head(dir, a)).0,
             Advance(R, dir, t, a, top.Head(dir, a)).0)
  }

  ghost predicate JoinMonotoneAt<S(!new)>(R: Resource<S>, top: Topology, s1: S, s2: S, a: nat, t1: S, t2: S) {
    && Dom(R, Forward, top.from(a), s1, s2)
    && Dom(R, Backward, top.to(a), t1, t2)
    && JoinCost(R, s2, a, top.to(a), t2).Fin?
    ==> JoinCost(R, s1, a, top.to(a), t1).Fin?
  }

  /** inv(dir, v, s) describes the states that labels of direction dir can carry at vertex v. */
  type Invariant<!S> = (Direction, nat, S) -> bool

  ghost predicate InvariantAt<S(!new)>(R: Resource<S>, top: Topology, inv: Invariant<S>, dir: Direction, s: S, a: nat) {
    && (Initial(R, dir, top.Start(dir)).1.Fin? ==> inv(dir, top.Start(dir), Initial(R, dir, top.Start(dir)).0))
    && (inv(dir, top.Tail(dir, a), s) && Advance(R, dir, s, a, top.Head(dir, a)).1.Fin? ==>
          inv(dir, top.Head(dir, a), Advance(R, dir, s, a, top.Head(dir, a)).0))
  }

  /** Moving the split point from arc a = (i, j) over vertex j to arc b = (j, k) changes nothing. */
  ghost predicate ShiftAt<S(!new)>(R: Resource<S>, top: Topology, inv: Invariant<S>, s: S, a: nat, b: nat, t: S) {
    top.to(a) == top.from(b) && inv(Forward, top.from(a), s) && inv(Backward, top.to(b), t) ==>
      var bw := Advance(R, Backward, t, b, top.to(a));
      var fw := Advance(R, Forward, s, a, top.to(a));
      (bw.1.Fin? && JoinCost(R, s, a, top.to(a), bw.0).Fin?)
        <==> (fw.1.Fin? && JoinCost(R, fw.0, b, top.to(b), t).Fin?)
  }

  /** Joining with the empty suffix is the same as extending into the sink. */
  ghost predicate SinkJoinAt<S(!new)>(R: Resource<S>, top: Topology, inv: Invariant<S>, s: S, a: nat) {
    top.to(a) == top.sink && inv(Forward, top.from(a), s) ==>
      var end := Initial(R, Backward, top.sink);
      (end.1.Fin? && JoinCost(R, s, a, top.sink, end.0).Fin?)
        <==> Advance(R, Forward, s, a, top.sink).1.Fin?
  }

  /** The arrays kept beside the labels never reject a label that dominates. */
  ghost predicate FilterAt<S(!new)>(R: Resource<S>, dir: Direction, v: nat, s: S, t: S) {
    var c := R.dominationCost(dir, v, s, t);
    && (c.Fin? ==> R.minDominationCost <= c.val)
    && (c.Fin? ==> R.ngBits(v, s) & !R.ngBits(v, t) == 0)
    && (c.Fin? && R.r1cBits(t) & !R.r1cBits(s) == 0 ==> R.minDominationCostExclR1c <= c.val)
  }

  ghost predicate Filters<S(!new)>(R: Resource<S>) {
    forall dir, v, s, t :: FilterAt(R, dir, v, s, t)
  }

  /** The laws without which dominance loses paths. */
  ghost predicate Disposable<S(!new)>(R: Resource<S>, top: Topology) {
    && R.minDominationCost == 0.0
    && Filters(R)
    && (forall dir, s, t, a :: CostFreeAt(R, dir, s, t, a))
    && (forall dir, v, s, t, u :: DomOrderAt(R, dir, v, s, t, u))
    && (forall dir, s, t, a :: SimulationAt(R, top, dir, s, t, a))
  }

  /** The laws without which a bidirectional join is not exact. */
  ghost predicate Joinable<S(!new)>(R: Resource<S>, top: Topology, inv: Invariant<S>) {
    JoinMonotone(R, top) && Invariants(R, top, inv) && Shifts(R, top, inv) && SinkJoins(R, top, inv)
  }

  ghost predicate JoinMonotone<S(!new)>(R: Resource<S>, top: Topology) {
    forall s1, s2, a, t1, t2 :: JoinMonotoneAt(R, top, s1, s2, a, t1, t2)
  }

  ghost predicate Invariants<S(!new)>(R: Resource<S>, top: Topology, inv: Invariant<S>) {
    forall dir, s, a :: InvariantAt(R, top, inv, dir, s, a)
  }

  ghost predicate Shifts<S(!new)>(R: Resource<S>, top: Topology, inv: Invariant<S>) {
    forall s, a, b, t :: ShiftAt(R, top, inv, s, a, b, t)
  }

  ghost predicate SinkJoins<S(!new)>(R: Resource<S>, top: Topology, inv: Invariant<S>) {
    forall s, a :: SinkJoinAt(R, top, inv, s, a)
  }

  // ----- The laws lift to packs -----

  ghost function BothInv<A, B>(inv1: Invariant<A>, inv2: Invariant<B>): Invariant<(A, B)> {
    (dir, v: nat, s: (A, B)) => inv1(dir, v, s.0) && inv2(dir, v, s.1)
  }

  ghost function EmptyInv(): Invariant<()> { (dir, v: nat, s: ()) => true }

  lemma EmptyCosts(dir: Direction, s: (), a: nat, v: nat, t: ())
    ensures var R := NoResource.AsResource();
            && R.extendAlongArc(dir, s, a) == ((), Fin(0.0))
            && R.extendToVertex(dir, s, v) == ((), Fin(0.0))
            && R.dominationCost(dir, v, s, t) == Fin(0.0)
            && R.concatenationCost(v, s, t) == Fin(0.0)
            && R.ngBits(v, s) == 0 && R.r1cBits(s) == 0
  {
  }

  lemma EmptyDisposable(top: Topology)
    ensures Disposable(NoResource.AsResource(), top)
  {
    var R := NoResource.AsResource();
    forall dir, v, s, t ensures FilterAt(R, dir, v, s, t) { EmptyCosts(dir, s, v, v, t); }
    forall dir, s, t, a ensures CostFreeAt(R, dir, s, t, a) { EmptyCosts(dir, s, a, a, t); }
    forall dir, v, s, t, u ensures DomOrderAt(R, dir, v, s, t, u) { EmptyCosts(dir, s, v, v, u); }
    forall dir, s, t, a ensures SimulationAt(R, top, dir, s, t, a) {
      EmptyCosts(dir, s, a, top.Head(dir, a), t);
    }
  }

  lemma EmptyShift(R: Resource<()>, top: Topology, inv: Invariant<()>, s: (), a: nat, b: nat, t: ())
    requires R == NoResource.AsResource()
    ensures ShiftAt(R, top, inv, s, a, b, t)
  {
    EmptyCosts(Backward, t, b, top.to(a), t);
    EmptyCosts(Forward, s, a, top.to(a), t);
    EmptyCosts(Forward, s, b, top.to(b), t);
  }

  lemma EmptyJoinable(top: Topology)
    ensures Joinable(NoResource.AsResource(), top, EmptyInv())
  {
    var R, inv := NoResource.AsResource(), EmptyInv();
    forall s1, s2, a, t1, t2 ensures JoinMonotoneAt(R, top, s1, s2, a, t1, t2) {
      EmptyCosts(Forward, s1, a, top.to(a), t1);
    }
    forall dir, s, a ensures InvariantAt(R, top, inv, dir, s, a) {}
    forall s, a, b, t ensures ShiftAt(R, top, inv, s, a, b, t) { EmptyShift(R, top, inv, s, a, b, t); }
    forall s, a ensures SinkJoinAt(R, top, inv, s, a) {
      EmptyCosts(Forward, s, a, top.sink, ());
      EmptyCosts(Backward, s, a, top.sink, ());
    }
  }

  lemma PackParts<A, B>(K: Pack<A, B>, dir: Direction, s: (A, B), a: nat, t: (A, B))
    ensures K.AsResource().initState(dir) == K.Init(dir)
    ensures K.AsResource().extendAlongArc(dir, s, a) == K.ExtendAlongArc(dir, s, a)
    ensures K.AsResource().extendToVertex(dir, s, a) == K.ExtendToVertex(dir, s, a)
    ensures K.AsResource().dominationCost(dir, a, s, t) == K.Domination(dir, a, s, t)
    ensures K.AsResource().concatenationCost(a, s, t) == K.Concatenation(a, s, t)
    ensures K.AsResource().ngBits(a, s) == K.NgBits(a, s) && K.AsResource().r1cBits(s) == K.R1cBits(s)
  {
  }

  lemma PackAdvance<A, B>(K: Pack<A, B>, dir: Direction, s: (A, B), a: nat, v: nat)
    ensures var r := Advance(K.AsResource(), dir, s, a, v);
            var r1 := Advance(K.R1, dir, s.0, a, v);
            var r2 := Advance(K.R2, dir, s.1, a, v);
            && (r.1.Fin? <==> r1.1.Fin? && r2.1.Fin?)
            && (r.1.Fin? ==> r.0 == (r1.0, r2.0) && r.1 == r1.1.Plus(r2.1))
  {
    PackParts(K, dir, s, a, s);
    PackParts(K, dir, K.ExtendAlongArc(dir, s, a).0, v, s);
  }

  lemma PackJoin<A, B>(K: Pack<A, B>, s: (A, B), a: nat, j: nat, t: (A, B))
    ensures JoinCost(K.AsResource(), s, a, j, t) == JoinCost(K.R1, s.0, a, j, t.0).Plus(JoinCost(K.R2, s.1, a, j, t.1))
  {
    PackParts(K, Forward, s, a, s);
    PackParts(K, Forward, K.ExtendAlongArc(Forward, s, a).0, j, t);
  }

  /** A pack dominates, and joins, exactly if each of its parts does. */
  lemma PackDominates<A(!new), B(!new)>(K: Pack<A, B>, dir: Direction, v: nat, s: (A, B), t: (A, B))
    ensures Dom(K.AsResource(), dir, v, s, t) <==> Dom(K.R1, dir, v, s.0, t.0) && Dom(K.R2, dir, v, s.1, t.1)
    ensures K.AsResource().concatenationCost(v, s, t).Fin? <==>
              K.R1.concatenationCost(v, s.0, t.0).Fin? && K.R2.concatenationCost(v, s.1, t.1).Fin?
  {
    PackParts(K, dir, s, v, t);
  }

  lemma PackNgBits<A(!new), B(!new)>(K: Pack<A, B>, R: Resource<(A, B)>, dir: Direction, v: nat, s: (A, B), t: (A, B))
    requires R == K.AsResource() && R.dominationCost(dir, v, s, t).Fin?
    requires FilterAt(K.R1, dir, v, s.0, t.0) && FilterAt(K.R2, dir, v, s.1, t.1)
    ensures R.minDominationCost <= R.dominationCost(dir, v, s, t).val
    ensures R.ngBits(v, s) & !R.ngBits(v, t) == 0
  {
    PackParts(K, dir, s, v, t);
    PackParts(K, dir, t, v, s);
  }

  lemma PackR1cBitsFirst<A(!new), B(!new)>(K: Pack<A, B>, R: Resource<(A, B)>, dir: Direction, v: nat, s: (A, B),
                           t: (A, B))
    requires R == K.AsResource() && R.dominationCost(dir, v, s, t).Fin? && K.R1.hasR1c
    requires FilterAt(K.R1, dir, v, s.0, t.0) && FilterAt(K.R2, dir, v, s.1, t.1)
    requires R.r1cBits(t) & !R.r1cBits(s) == 0
    ensures R.minDominationCostExclR1c <= R.dominationCost(dir, v, s, t).val
  {
    PackParts(K, dir, s, v, t);
    assert K.R1.r1cBits(t.0) & !K.R1.r1cBits(s.0) == 0;
  }

  lemma PackR1cBitsSecond<A(!new), B(!new)>(K: Pack<A, B>, R: Resource<(A, B)>, dir: Direction, v: nat, s: (A, B),
                            t: (A, B))
    requires R == K.AsResource() && R.dominationCost(dir, v, s, t).Fin? && !K.R1.hasR1c
    requires FilterAt(K.R1, dir, v, s.0, t.0) && FilterAt(K.R2, dir, v, s.1, t.1)
    requires R.r1cBits(t) & !R.r1cBits(s) == 0
    ensures R.minDominationCostExclR1c <= R.dominationCost(dir, v, s, t).val
  {
    PackParts(K, dir, s, v, t);
    assert K.R2.r1cBits(t.1) & !K.R2.r1cBits(s.1) == 0;
  }

  lemma PackFilter<A(!new), B(!new)>(K: Pack<A, B>, R: Resource<(A, B)>, dir: Direction, v: nat, s: (A, B), t: (A, B))
    requires R == K.AsResource()
    requires FilterAt(K.R1, dir, v, s.0, t.0) && FilterAt(K.R2, dir, v, s.1, t.1)
    ensures FilterAt(R, dir, v, s, t)
  {
    if R.dominationCost(dir, v, s, t).Fin? {
      PackNgBits(K, R, dir, v, s, t);
      if R.r1cBits(t) & !R.r1cBits(s) == 0 {
        if K.R1.hasR1c { PackR1cBitsFirst(K, R, dir, v, s, t); } else { PackR1cBitsSecond(K, R, dir, v, s, t); }
      }
    }
  }

  lemma PackCostFree<A(!new), B(!new)>(K: Pack<A, B>, R: Resource<(A, B)>, dir: Direction, s: (A, B), t: (A, B), a: nat)
    requires R == K.AsResource()
    requires CostFreeAt(K.R1, dir, s.0, t.0, a) && CostFreeAt(K.R2, dir, s.1, t.1, a)
    ensures CostFreeAt(R, dir, s, t, a)
  {
    PackExtendFree(K, dir, s, t, a);
    PackPairFree(K, dir, s, t, a);
    PackParts(K, dir, s, a, t);
  }

  lemma PackExtendCost<A, B>(K: Pack<A, B>, dir: Direction, s: (A, B), a: nat)
    ensures K.ExtendAlongArc(dir, s, a).1 == K.R1.extendAlongArc(dir, s.0, a).1.Plus(K.R2.extendAlongArc(dir, s.1, a).1)
    ensures K.ExtendToVertex(dir, s, a).1 == K.R1.extendToVertex(dir, s.0, a).1.Plus(K.R2.extendToVertex(dir, s.1, a).1)
  {
  }

  lemma PackExtendFree<A(!new), B(!new)>(K: Pack<A, B>, dir: Direction, s: (A, B), t: (A, B), a: nat)
    requires CostFreeAt(K.R1, dir, s.0, t.0, a) && CostFreeAt(K.R2, dir, s.1, t.1, a)
    ensures ZeroOrInf(K.ExtendAlongArc(dir, s, a).1) && ZeroOrInf(K.ExtendToVertex(dir, s, a).1)
  {
    PackExtendCost(K, dir, s, a);
    PlusFree(K.R1.extendAlongArc(dir, s.0, a).1, K.R2.extendAlongArc(dir, s.1, a).1);
    PlusFree(K.R1.extendToVertex(dir, s.0, a).1, K.R2.extendToVertex(dir, s.1, a).1);
    hide *;
  }

  lemma PlusFree(c: Bound, d: Bound)
    requires ZeroOrInf(c) && ZeroOrInf(d)
    ensures ZeroOrInf(c.Plus(d))
  {
  }

  lemma PackPairFree<A(!new), B(!new)>(K: Pack<A, B>, dir: Direction, s: (A, B), t: (A, B), a: nat)
    requires CostFreeAt(K.R1, dir, s.0, t.0, a) && CostFreeAt(K.R2, dir, s.1, t.1, a)
    ensures ZeroOrInf(K.Domination(dir, a, s, t)) && ZeroOrInf(K.Concatenation(a, s, t))
  {
  }

  lemma PackOrder<A(!new), B(!new)>(K: Pack<A, B>, R: Resource<(A, B)>, dir: Direction, v: nat, s: (A, B), t: (A, B),
                    u: (A, B))
    requires R == K.AsResource()
    requires DomOrderAt(K.R1, dir, v, s.0, t.0, u.0) && DomOrderAt(K.R2, dir, v, s.1, t.1, u.1)
    ensures DomOrderAt(R, dir, v, s, t, u)
  {
    PackParts(K, dir, s, v, s);
    PackParts(K, dir, s, v, t);
    PackParts(K, dir, t, v, u);
    PackParts(K, dir, s, v, u);
  }

  lemma PackSimulation<A(!new), B(!new)>(K: Pack<A, B>, R: Resource<(A, B)>, top: Topology, dir: Direction, s: (A, B),
                         t: (A, B), a: nat)
    requires R == K.AsResource()
    requires SimulationAt(K.R1, top, dir, s.0, t.0, a) && SimulationAt(K.R2, top, dir, s.1, t.1, a)
    ensures SimulationAt(R, top, dir, s, t, a)
  {
    var v := top.Head(dir, a);
    PackAdvance(K, dir, s, a, v);
    PackAdvance(K, dir, t, a, v);
    PackParts(K, dir, s, top.Tail(dir, a), t);
    PackParts(K, dir, Advance(R, dir, s, a, v).0, v, Advance(R, dir, t, a, v).0);
  }

  /**
   * A pack of disposable resources is disposable. The store filters on the first part
   * that has ng bits and the first that has cut bits, and that is enough.
   */
  lemma PackDisposable<A(!new), B(!new)>(K: Pack<A, B>, top: Topology)
    requires Disposable(K.R1, top) && Disposable(K.R2, top)
    ensures Disposable(K.AsResource(), top)
  {
    var R := K.AsResource();
    forall dir, v, s, t ensures FilterAt(R, dir, v, s, t) {
      assert FilterAt(K.R1, dir, v, s.0, t.0) && FilterAt(K.R2, dir, v, s.1, t.1);
      PackFilter(K, R, dir, v, s, t);
    }
    forall dir, s, t, a ensures CostFreeAt(R, dir, s, t, a) {
      assert CostFreeAt(K.R1, dir, s.0, t.0, a) && CostFreeAt(K.R2, dir, s.1, t.1, a);
      PackCostFree(K, R, dir, s, t, a);
    }
    forall dir, v, s, t, u ensures DomOrderAt(R, dir, v, s, t, u) {
      assert DomOrderAt(K.R1, dir, v, s.0, t.0, u.0) && DomOrderAt(K.R2, dir, v, s.1, t.1, u.1);
      PackOrder(K, R, dir, v, s, t, u);
    }
    forall dir, s, t, a ensures SimulationAt(R, top, dir, s, t, a) {
      assert SimulationAt(K.R1, top, dir, s.0, t.0, a) && SimulationAt(K.R2, top, dir, s.1, t.1, a);
      PackSimulation(K, R, top, dir, s, t, a);
    }
  }

  lemma PackShift<A(!new), B(!new)>(K: Pack<A, B>, R: Resource<(A, B)>, top: Topology, inv: Invariant<(A, B)>,
                                    inv1: Invariant<A>, inv2: Invariant<B>, s: (A, B), a: nat, b: nat, t: (A, B))
    requires R == K.AsResource() && inv == BothInv(inv1, inv2)
    requires ShiftAt(K.R1, top, inv1, s.0, a, b, t.0) && ShiftAt(K.R2, top, inv2, s.1, a, b, t.1)
    ensures ShiftAt(R, top, inv, s, a, b, t)
  {
    PackAdvance(K, Backward, t, b, top.to(a));
    PackAdvance(K, Forward, s, a, top.to(a));
    PackJoin(K, s, a, top.to(a), Advance(R, Backward, t, b, top.to(a)).0);
    PackJoin(K, Advance(R, Forward, s, a, top.to(a)).0, b, top.to(b), t);
  }

  lemma PackSinkJoin<A(!new), B(!new)>(K: Pack<A, B>, R: Resource<(A, B)>, top: Topology, inv: Invariant<(A, B)>,
                                       inv1: Invariant<A>, inv2: Invariant<B>, s: (A, B), a: nat)
    requires R == K.AsResource() && inv == BothInv(inv1, inv2)
    requires SinkJoinAt(K.R1, top, inv1, s.0, a) && SinkJoinAt(K.R2, top, inv2, s.1, a)
    ensures SinkJoinAt(R, top, inv, s, a)
  {
    PackAdvance(K, Forward, s, a, top.sink);
    PackParts(K, Backward, K.Init(Backward), top.sink, s);
    PackJoin(K, s, a, top.sink, Initial(R, Backward, top.sink).0);
  }

  lemma PackJoinable<A(!new), B(!new)>(K: Pack<A, B>, top: Topology, inv1: Invariant<A>, inv2: Invariant<B>)
    requires Joinable(K.R1, top, inv1) && Joinable(K.R2, top, inv2)
    ensures Joinable(K.AsResource(), top, BothInv(inv1, inv2))
  {
    var R, inv := K.AsResource(), BothInv(inv1, inv2);
    forall s1, s2, a, t1, t2 ensures JoinMonotoneAt(R, top, s1, s2, a, t1, t2) {
      assert JoinMonotoneAt(K.R1, top, s1.0, s2.0, a, t1.0, t2.0);
      assert JoinMonotoneAt(K.R2, top, s1.1, s2.1, a, t1.1, t2.1);
      PackParts(K, Forward, s1, top.from(a), s2);
      PackParts(K, Backward, t1, top.to(a), t2);
      PackJoin(K, s1, a, top.to(a), t1);
      PackJoin(K, s2, a, top.to(a), t2);
    }
    forall dir, s, a ensures InvariantAt(R, top, inv, dir, s, a) {
      assert InvariantAt(K.R1, top, inv1, dir, s.0, a) && InvariantAt(K.R2, top, inv2, dir, s.1, a);
      PackAdvance(K, dir, s, a, top.Head(dir, a));
      PackParts(K, dir, K.Init(dir), top.Start(dir), s);
    }
    forall s, a, b, t ensures ShiftAt(R, top, inv, s, a, b, t) {
      assert ShiftAt(K.R1, top, inv1, s.0, a, b, t.0) && ShiftAt(K.R2, top, inv2, s.1, a, b, t.1);
      PackShift(K, R, top, inv, inv1, inv2, s, a, b, t);
    }
    forall s, a ensures SinkJoinAt(R, top, inv, s, a) {
      assert SinkJoinAt(K.R1, top, inv1, s.0, a) && SinkJoinAt(K.R2, top, inv2, s.1, a);
      PackSinkJoin(K, R, top, inv, inv1, inv2, s, a);
    }
  }
}
