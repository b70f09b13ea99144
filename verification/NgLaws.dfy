/** The ng-path resource is disposable and joinable, and means what it should on paths. */
module NgLaws {
  import opened Types
  import opened Resources
  import opened Bits
  import opened NgPaths

  // ----- Dominance -----

  ghost predicate BitsWithin(s: bv32, t: bv32) { forall p: nat :: p < 32 && Bit(s, p) ==> Bit(t, p) }

  lemma DominationIs(ng: Ng, dir: Direction, v: nat, s: bv32, t: bv32)
    ensures ng.AsResource().dominationCost(dir, v, s, t) == ng.DominationCost(dir, v, s, t)
    ensures ZeroOrInf(ng.DominationCost(dir, v, s, t))
    ensures Dom(ng.AsResource(), dir, v, s, t) <==> BitsWithin(s, t)
  {
    hide Without, Bit;
    SubsetIff(s, t);
  }

  lemma NextMonotone(ng: Ng, dir: Direction, s: bv32, t: bv32, a: nat)
    requires Built(ng) && BitsWithin(s, t)
    ensures BitsWithin(NextState(ng, dir, s, a), NextState(ng, dir, t, a))
  {
    hide Mask, And, Or, Bit;
    var u, v := ng.top.Tail(dir, a), ng.top.Head(dir, a);
    var m, n := Shifted(s, ng.PairsFor(u, v)), Shifted(t, ng.PairsFor(u, v));
    ShiftedMonotone(ng, u, v, s, t);
    Arrived(ng, dir, m, v);
    Arrived(ng, dir, n, v);
  }

  lemma ShiftedMonotone(ng: Ng, u: nat, v: nat, s: bv32, t: bv32)
    requires Tables(ng) && BitsWithin(s, t)
    ensures BitsWithin(Shifted(s, ng.PairsFor(u, v)), Shifted(t, ng.PairsFor(u, v)))
  {
    hide Mask, And, Or, Bit;
    PairsWithin(ng, u, v);
    Positions(ng, u);
    Positions(ng, v);
    var pairs := ng.PairsFor(u, v);
    forall p: nat | p < 32 && Bit(Shifted(s, pairs), p) ensures Bit(Shifted(t, pairs), p) {
      ShiftedBits(s, pairs, p);
      ShiftedBits(t, pairs, p);
      var x :| x in pairs && x.1 == p && Bit(s, x.0);
      assert x.0 < 32 && Bit(t, x.0);
    }
  }

  lemma NgSimulation(ng: Ng, R: Resource<bv32>, dir: Direction, s: bv32, t: bv32, a: nat)
    requires Built(ng) && R == ng.AsResource()
    ensures SimulationAt(R, ng.top, dir, s, t, a)
  {
    hide Mask, And, Bit, NextState;
    var u, v := ng.top.Tail(dir, a), ng.top.Head(dir, a);
    StepIs(ng, dir, s, a);
    StepIs(ng, dir, t, a);
    DominationIs(ng, dir, u, s, t);
    if BitsWithin(s, t) {
      Positions(ng, u);
      NextMonotone(ng, dir, s, t, a);
      DominationIs(ng, dir, v, NextState(ng, dir, s, a), NextState(ng, dir, t, a));
    }
  }

  lemma NgFilter(ng: Ng, R: Resource<bv32>, dir: Direction, v: nat, s: bv32, t: bv32)
    requires R == ng.AsResource()
    ensures FilterAt(R, dir, v, s, t)
  {
    DominationIs(ng, dir, v, s, t);
    CompressedIs(ng, v, s);
    CompressedIs(ng, v, t);
    NoCuts(ng, s);
    NoCuts(ng, t);
    if BitsWithin(s, t) {
      StillWithin(s, t, Mask(ng.Self(v)));
      AsWithout(ng.Compressed(v, s), ng.Compressed(v, t));
      NoCutFilter();
    }
    hide Mask, Without, Bit;
  }

  lemma CompressedIs(ng: Ng, v: nat, s: bv32)
    ensures ng.AsResource().ngBits(v, s) == ng.Compressed(v, s) == Without(s, Mask(ng.Self(v)))
  {
    hide Mask, Without;
  }

  lemma NoCuts(ng: Ng, s: bv32)
    ensures ng.AsResource().r1cBits(s) == 0
  {
  }

  lemma NoCutFilter()
    ensures (0 as bv64) & !(0 as bv64) == 0
  {
  }

  lemma AsWithout(x: bv32, y: bv32)
    ensures x & !y == Without(x, y)
  {
  }

  lemma StillWithin(s: bv32, t: bv32, m: bv32)
    requires BitsWithin(s, t)
    ensures Without(Without(s, m), Without(t, m)) == 0
  {
    hide Mask, And, Without, Bit;
    var x, y := Without(s, m), Without(t, m);
    forall p: nat | p < 32 && Bit(x, p) ensures Bit(y, p) {
      BitWithout(s, m, p);
      BitWithout(t, m, p);
    }
    SubsetIff(x, y);
  }

  lemma NgCostFree(ng: Ng, R: Resource<bv32>, dir: Direction, s: bv32, t: bv32, a: nat)
    requires R == ng.AsResource()
    ensures CostFreeAt(R, dir, s, t, a)
  {
    AlongIs(ng, dir, s, a);
    AtVertexIs(ng, dir, s, a);
    DominationIs(ng, dir, a, s, t);
    ConcatIs(ng, a, s, t);
    AlongFree(ng, dir, s, a);
    hide And, Without, Or, Mask, Shifted;
  }

  lemma AlongFree(ng: Ng, dir: Direction, s: bv32, a: nat)
    ensures ZeroOrInf(ng.ExtendAlongArc(dir, s, a).1)
  {
    hide Mask, And, Shifted;
  }

  lemma NgOrder(ng: Ng, R: Resource<bv32>, dir: Direction, v: nat, s: bv32, t: bv32, u: bv32)
    requires R == ng.AsResource()
    ensures DomOrderAt(R, dir, v, s, t, u)
  {
    hide Mask, And, Bit, Without;
    DominationIs(ng, dir, v, s, s);
    DominationIs(ng, dir, v, s, t);
    DominationIs(ng, dir, v, t, u);
    DominationIs(ng, dir, v, s, u);
  }

  /** Remembering less is never worse. */
  lemma NgDisposable(ng: Ng)
    requires Built(ng)
    ensures Disposable(ng.AsResource(), ng.top)
  {
    hide Mask, And, Or, Bit, Without, Built, Roomy, FilterAt, CostFreeAt, DomOrderAt, SimulationAt;
    var R := ng.AsResource();
    forall dir, v, s, t ensures FilterAt(R, dir, v, s, t) { NgFilter(ng, R, dir, v, s, t); }
    forall dir, s, t, a ensures CostFreeAt(R, dir, s, t, a) { NgCostFree(ng, R, dir, s, t, a); }
    forall dir, v, s, t, u ensures DomOrderAt(R, dir, v, s, t, u) { NgOrder(ng, R, dir, v, s, t, u); }
    forall dir, s, t, a ensures SimulationAt(R, ng.top, dir, s, t, a) { NgSimulation(ng, R, dir, s, t, a); }
  }

  // ----- Joins -----

  /** States at v are proper. */
  ghost function NgInv(ng: Ng): Invariant<bv32> { (dir: Direction, v: nat, s: bv32) => Proper(ng, v, s) }

  lemma NgJoinMonotone(ng: Ng, R: Resource<bv32>, s1: bv32, s2: bv32, a: nat, t1: bv32, t2: bv32)
    requires Built(ng) && R == ng.AsResource()
    ensures JoinMonotoneAt(R, ng.top, s1, s2, a, t1, t2)
  {
    hide Mask, And, Shifted, Bit;
    var u, v := ng.top.from(a), ng.top.to(a);
    DominationIs(ng, Forward, u, s1, s2);
    DominationIs(ng, Backward, v, t1, t2);
    if BitsWithin(s1, s2) && BitsWithin(t1, t2) {
      JoinValue(ng, s1, a, t1);
      JoinValue(ng, s2, a, t2);
      Positions(ng, u);
      ShiftedMonotone(ng, u, v, s1, s2);
      DisjointIff(Shifted(s1, ng.PairsFor(u, v)), t1);
      DisjointIff(Shifted(s2, ng.PairsFor(u, v)), t2);
    }
  }

  lemma NgInvariant(ng: Ng, R: Resource<bv32>, inv: Invariant<bv32>, dir: Direction, s: bv32, a: nat)
    requires Built(ng) && R == ng.AsResource() && inv == NgInv(ng)
    ensures InvariantAt(R, ng.top, inv, dir, s, a)
  {
    hide Mask, And, Bit, NextState, Proper;
    Started(ng, dir, ng.top.Start(dir));
    StepIs(ng, dir, s, a);
    NextProper(ng, dir, s, a);
  }

  /** No vertex is remembered on both sides of v, by states s at u before it and t at x behind it. */
  ghost predicate ApartAround(ng: Ng, u: nat, s: bv32, v: nat, x: nat, t: bv32) {
    forall w: nat :: In(ng, v, w) && (Holds(ng, u, s, w) || w == u) ==> !(Holds(ng, x, t, w) || w == x)
  }

  lemma LeftOfShift(ng: Ng, s: bv32, a: nat, b: nat, t: bv32)
    requires Built(ng) && Roomy(ng) && ng.top.to(a) == ng.top.from(b)
    requires Proper(ng, ng.top.from(a), s) && Proper(ng, ng.top.to(b), t)
    ensures var u, v, x := ng.top.from(a), ng.top.to(a), ng.top.to(b);
            var bw := Advance(ng.AsResource(), Backward, t, b, v);
            (bw.1.Fin? && JoinCost(ng.AsResource(), s, a, v, bw.0).Fin?)
              <==> !Holds(ng, x, t, v) && !Holds(ng, u, s, v) && ApartAround(ng, u, s, v, x, t)
  {
    hide Mask, And, Shifted, Bit, Built, Roomy, Advance, JoinCost;
    var u, v, x := ng.top.from(a), ng.top.to(a), ng.top.to(b);
    var bw := Advance(ng.AsResource(), Backward, t, b, v);
    assert ng.top.Tail(Backward, b) == x && ng.top.Head(Backward, b) == v;
    Stepped(ng, Backward, t, b);
    if bw.1.Fin? {
      JoinedNg(ng, s, a, bw.0);
      if !Holds(ng, u, s, v) {
        forall w: nat | In(ng, v, w) && (Holds(ng, u, s, w) || w == u)
          ensures Holds(ng, v, bw.0, w) <==> Holds(ng, x, t, w) || w == x
        {
          assert w == v ==> w == u && Holds(ng, u, s, v);
        }
      }
    }
  }

  lemma RightOfShift(ng: Ng, s: bv32, a: nat, b: nat, t: bv32)
    requires Built(ng) && Roomy(ng) && ng.top.to(a) == ng.top.from(b)
    requires Proper(ng, ng.top.from(a), s) && Proper(ng, ng.top.to(b), t)
    ensures var u, v, x := ng.top.from(a), ng.top.to(a), ng.top.to(b);
            var fw := Advance(ng.AsResource(), Forward, s, a, v);
            (fw.1.Fin? && JoinCost(ng.AsResource(), fw.0, b, x, t).Fin?)
              <==> !Holds(ng, x, t, v) && !Holds(ng, u, s, v) && ApartAround(ng, u, s, v, x, t)
  {
    hide Mask, And, Shifted, Bit, Built, Roomy, Advance, JoinCost;
    var u, v, x := ng.top.from(a), ng.top.to(a), ng.top.to(b);
    var fw := Advance(ng.AsResource(), Forward, s, a, v);
    assert ng.top.Tail(Forward, a) == u && ng.top.Head(Forward, a) == v;
    Stepped(ng, Forward, s, a);
    if fw.1.Fin? {
      JoinedNg(ng, fw.0, b, t);
      JoinAfter(ng, u, s, v, fw.0, x, t);
    }
  }

  /** What joining behind v means, told by the state before it. */
  lemma JoinAfter(ng: Ng, u: nat, s: bv32, v: nat, r: bv32, x: nat, t: bv32)
    requires Proper(ng, x, t) && !Holds(ng, u, s, v)
    requires forall w: nat ::
             Holds(ng, v, r, w) <==> (In(ng, v, w) && (Holds(ng, u, s, w) || w == u)) || (w == v && In(ng, v, v))
    ensures (!Holds(ng, v, r, x) && forall w: nat ::
              In(ng, x, w) && (Holds(ng, v, r, w) || w == v) ==> !Holds(ng, x, t, w))
            <==> !Holds(ng, x, t, v) && ApartAround(ng, u, s, v, x, t)
  {
    hide Mask, And, Bit;
    var behind := !Holds(ng, v, r, x) && forall w: nat ::
        In(ng, x, w) && (Holds(ng, v, r, w) || w == v) ==> !Holds(ng, x, t, w);
    if behind {
      forall w: nat | In(ng, v, w) && (Holds(ng, u, s, w) || w == u) ensures !(Holds(ng, x, t, w) || w == x) {
        assert Holds(ng, v, r, w);
      }
    }
    if !Holds(ng, x, t, v) && ApartAround(ng, u, s, v, x, t) {
      assert !Holds(ng, v, r, x);
      forall w: nat | In(ng, x, w) && (Holds(ng, v, r, w) || w == v) ensures !Holds(ng, x, t, w) {
        assert w != v ==> In(ng, v, w) && (Holds(ng, u, s, w) || w == u);
      }
    }
  }

  lemma NgShift(ng: Ng, R: Resource<bv32>, inv: Invariant<bv32>, s: bv32, a: nat, b: nat, t: bv32)
    requires Built(ng) && Roomy(ng) && R == ng.AsResource() && inv == NgInv(ng)
    ensures ShiftAt(R, ng.top, inv, s, a, b, t)
  {
    hide Mask, And, Shifted, Bit, Advance, JoinCost, Proper, ApartAround, Holds, Built, Roomy;
    if ng.top.to(a) == ng.top.from(b) && Proper(ng, ng.top.from(a), s) && Proper(ng, ng.top.to(b), t) {
      LeftOfShift(ng, s, a, b, t);
      RightOfShift(ng, s, a, b, t);
    }
  }

  lemma BuiltTables(ng: Ng)
    requires Built(ng)
    ensures Tables(ng)
  {
  }

  lemma NgSinkJoin(ng: Ng, R: Resource<bv32>, inv: Invariant<bv32>, s: bv32, a: nat)
    requires Built(ng) && Roomy(ng) && R == ng.AsResource() && inv == NgInv(ng)
    ensures SinkJoinAt(R, ng.top, inv, s, a)
  {
    hide Mask, And, Shifted, Bit, Advance, JoinCost, Built, Roomy;
    if ng.top.to(a) == ng.top.sink && Proper(ng, ng.top.from(a), s) {
      var u, v := ng.top.from(a), ng.top.sink;
      BuiltTables(ng);
      Started(ng, Backward, v);
      assert ng.top.Tail(Forward, a) == u && ng.top.Head(Forward, a) == v;
      Stepped(ng, Forward, s, a);
      JoinedNg(ng, s, a, Initial(R, Backward, v).0);
    }
  }

  /** Splitting at any arc gives the same answer. */
  lemma NgJoinable(ng: Ng)
    requires Built(ng) && Roomy(ng)
    ensures Joinable(ng.AsResource(), ng.top, NgInv(ng))
  {
    hide Mask, And, Or, Bit, Without, Built, Roomy, JoinMonotoneAt, InvariantAt, ShiftAt, SinkJoinAt;
    var R, inv := ng.AsResource(), NgInv(ng);
    forall s1, s2, a, t1, t2
      ensures JoinMonotoneAt(R, ng.top, s1, s2, a, t1, t2)
    {
      NgJoinMonotone(ng, R, s1, s2, a, t1, t2);
    }
    forall dir, s, a ensures InvariantAt(R, ng.top, inv, dir, s, a) { NgInvariant(ng, R, inv, dir, s, a); }
    forall s, a, b, t ensures ShiftAt(R, ng.top, inv, s, a, b, t) { NgShift(ng, R, inv, s, a, b, t); }
    forall s, a ensures SinkJoinAt(R, ng.top, inv, s, a) { NgSinkJoin(ng, R, inv, s, a); }
  }
}
