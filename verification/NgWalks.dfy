/** What the ng bit state says about the path behind a label. */
module NgWalks {
  import opened Types
  import opened Resources
  import opened NgPaths
  import opened NgLaws

  // ----- Path semantics, without states -----

  /** Vertex w, visited at position i, has stayed in the neighbourhood of every vertex since. */
  ghost predicate StaysFrom(ng: Ng, F: seq<nat>, i: nat, w: nat)
    requires i < |F|
  {
    F[i] == w && (forall m: nat :: i < m < |F| ==> In(ng, F[m], w)) && (i == |F| - 1 ==> In(ng, w, w))
  }

  ghost predicate Remembers(ng: Ng, F: seq<nat>, w: nat) {
    exists i: nat :: i < |F| && StaysFrom(ng, F, i, w)
  }

  /** The same, looking from the first vertex of a path at a later visit. */
  ghost predicate ComesBack(ng: Ng, B: seq<nat>, j: nat, w: nat)
    requires j < |B|
  {
    B[j] == w && (forall m: nat :: m < j ==> In(ng, B[m], w)) && (j == 0 ==> In(ng, w, w))
  }

  ghost predicate Foresees(ng: Ng, B: seq<nat>, w: nat) {
    exists j: nat :: j < |B| && ComesBack(ng, B, j, w)
  }

  /** The vertex at i is visited again at j although every vertex between remembers it. */
  ghost predicate NgCycle(ng: Ng, F: seq<nat>, i: nat, j: nat)
    requires i < j < |F|
  {
    F[i] == F[j] && (forall m: nat :: i < m < j ==> In(ng, F[m], F[i])) && (j == i + 1 ==> In(ng, F[i], F[i]))
  }

  ghost predicate NgFeasible(ng: Ng, F: seq<nat>) {
    forall i: nat, j: nat :: i < j < |F| ==> !NgCycle(ng, F, i, j)
  }

  lemma RemembersNext(ng: Ng, F: seq<nat>, v: nat, w: nat)
    requires |F| > 0
    ensures Remembers(ng, F + [v], w) <==>
            (In(ng, v, w) && (Remembers(ng, F, w) || w == F[|F| - 1])) || (w == v && In(ng, v, v))
  {
    var G := F + [v];
    if Remembers(ng, G, w) {
      var i: nat :| i < |G| && StaysFrom(ng, G, i, w);
      if i < |F| {
        assert G[|F|] == v;
        if i < |F| - 1 {
          forall m: nat | i < m < |F| ensures In(ng, F[m], w) { assert G[m] == F[m]; }
          assert StaysFrom(ng, F, i, w);
        }
      }
    }
    if In(ng, v, w) && Remembers(ng, F, w) {
      var i: nat :| i < |F| && StaysFrom(ng, F, i, w);
      assert StaysFrom(ng, G, i, w);
    }
    if In(ng, v, w) && w == F[|F| - 1] { assert StaysFrom(ng, G, |F| - 1, w); }
    if w == v && In(ng, v, v) { assert StaysFrom(ng, G, |F|, w); }
  }

  lemma CyclePrefix(ng: Ng, F: seq<nat>, B: seq<nat>, i: nat, j: nat)
    requires i < j < |F|
    ensures NgCycle(ng, F + B, i, j) <==> NgCycle(ng, F, i, j)
  {
    var G := F + B;
    assert forall m: nat :: m < |F| ==> G[m] == F[m];
    if NgCycle(ng, G, i, j) {
      forall m: nat | i < m < j ensures In(ng, F[m], F[i]) { assert In(ng, G[m], G[i]); }
    }
  }

  lemma CycleSuffix(ng: Ng, F: seq<nat>, B: seq<nat>, i: nat, j: nat)
    requires i < j < |B|
    ensures NgCycle(ng, F + B, i + |F|, j + |F|) <==> NgCycle(ng, B, i, j)
  {
    var G, x, y := F + B, i + |F|, j + |F|;
    assert forall m: nat :: m < |B| ==> G[m + |F|] == B[m];
    if NgCycle(ng, G, x, y) {
      forall m: nat | i < m < j ensures In(ng, B[m], B[i]) { assert In(ng, G[m + |F|], G[x]); }
    }
    if NgCycle(ng, B, i, j) {
      forall m: nat | x < m < y ensures In(ng, G[m], G[x]) { assert G[m] == B[m - |F|]; }
    }
  }

  lemma CycleAtEnd(ng: Ng, F: seq<nat>, v: nat, i: nat)
    requires i < |F|
    ensures NgCycle(ng, F + [v], i, |F|) <==> StaysFrom(ng, F, i, v)
  {
    var G := F + [v];
    assert forall m: nat :: m < |F| ==> G[m] == F[m];
    if NgCycle(ng, G, i, |F|) {
      forall m: nat | i < m < |F| ensures In(ng, F[m], v) { assert In(ng, G[m], G[i]); }
    }
  }

  lemma FeasibleNext(ng: Ng, F: seq<nat>, v: nat)
    ensures NgFeasible(ng, F + [v]) <==> NgFeasible(ng, F) && !Remembers(ng, F, v)
  {
    hide NgCycle, StaysFrom;
    var G := F + [v];
    forall i: nat, j: nat | i < j < |F|
      ensures NgCycle(ng, G, i, j) <==> NgCycle(ng, F, i, j)
    {
      CyclePrefix(ng, F, [v], i, j);
    }
    forall i: nat | i < |F| ensures NgCycle(ng, G, i, |F|) <==> StaysFrom(ng, F, i, v) { CycleAtEnd(ng, F, v, i); }
  }

  lemma ForeseesNext(ng: Ng, B: seq<nat>, v: nat, w: nat)
    requires |B| > 0
    ensures Foresees(ng, [v] + B, w) <==>
              (In(ng, v, w) && (Foresees(ng, B, w) || w == B[0])) || (w == v && In(ng, v, v))
  {
    var G := [v] + B;
    if Foresees(ng, G, w) {
      var j: nat :| j < |G| && ComesBack(ng, G, j, w);
      if j > 0 {
        assert G[0] == v;
        if j > 1 {
          forall m: nat | m < j - 1 ensures In(ng, B[m], w) { assert G[m + 1] == B[m]; }
          assert ComesBack(ng, B, j - 1, w);
        }
      }
    }
    if In(ng, v, w) && Foresees(ng, B, w) {
      var j: nat :| j < |B| && ComesBack(ng, B, j, w);
      assert ComesBack(ng, G, j + 1, w);
    }
    if In(ng, v, w) && w == B[0] { assert ComesBack(ng, G, 1, w); }
    if w == v && In(ng, v, v) { assert ComesBack(ng, G, 0, w); }
  }

  lemma CycleAtStart(ng: Ng, B: seq<nat>, v: nat, j: nat)
    requires j < |B|
    ensures NgCycle(ng, [v] + B, 0, j + 1) <==> ComesBack(ng, B, j, v)
  {
    var G := [v] + B;
    assert forall m: nat :: m < |B| ==> G[m + 1] == B[m];
    if NgCycle(ng, G, 0, j + 1) {
      forall m: nat | m < j ensures In(ng, B[m], v) { assert In(ng, G[m + 1], G[0]); }
    }
    if ComesBack(ng, B, j, v) {
      forall m: nat | 0 < m < j + 1 ensures In(ng, G[m], G[0]) { assert G[m] == B[m - 1]; }
    }
  }

  lemma FeasibleBefore(ng: Ng, B: seq<nat>, v: nat)
    ensures NgFeasible(ng, [v] + B) <==> NgFeasible(ng, B) && !Foresees(ng, B, v)
  {
    hide NgCycle, ComesBack;
    var G := [v] + B;
    forall i: nat, j: nat | 0 < i < j < |G|
      ensures NgCycle(ng, G, i, j) <==> NgCycle(ng, B, i - 1, j - 1)
    {
      CycleSuffix(ng, [v], B, i - 1, j - 1);
    }
    forall j: nat | 0 < j < |G|
      ensures NgCycle(ng, G, 0, j) <==> ComesBack(ng, B, j - 1, v)
    {
      CycleAtStart(ng, B, v, j - 1);
    }
    if NgFeasible(ng, G) {
      forall i: nat, j: nat | i < j < |B| ensures !NgCycle(ng, B, i, j) { assert !NgCycle(ng, G, i + 1, j + 1); }
      forall j: nat | j < |B| ensures !ComesBack(ng, B, j, v) { assert !NgCycle(ng, G, 0, j + 1); }
    }
  }

  // ----- States of labels -----

  /** The vertices of a forward chain. */
  function Stops(top: Topology, arcs: seq<nat>): (r: seq<nat>)
    ensures |r| == |arcs| + 1
  {
    if arcs == [] then [top.source] else Stops(top, arcs[..|arcs| - 1]) + [top.to(arcs[|arcs| - 1])]
  }

  ghost predicate Chained(top: Topology, arcs: seq<nat>) {
    arcs == [] || (Chained(top, arcs[..|arcs| - 1]) && top.from(arcs[|arcs| - 1]) == Stops(top,
            arcs[..|arcs| - 1])[|arcs| - 1])
  }

  /** The state of a forward label, if the extension is feasible all the way. */
  function ForwardState(ng: Ng, arcs: seq<nat>): Option<bv32> {
    if arcs == [] then Some(Initial(ng.AsResource(), Forward, ng.top.source).0) else
    var a := arcs[|arcs| - 1];
    var s := ForwardState(ng, arcs[..|arcs| - 1]);
    if s.None? then None else
    var r := Advance(ng.AsResource(), Forward, s.value, a, ng.top.to(a));
    if r.1.Fin? then Some(r.0) else None
  }

  /**
   * The forward bit state refines path semantics: extension is feasible exactly when the path is, and
   * the bit of w is set exactly when w was visited and has stayed in every later neighbourhood.
   */
  lemma {:induction false} ForwardRefines(ng: Ng, arcs: seq<nat>)
    requires Built(ng) && Roomy(ng) && Chained(ng.top, arcs)
    ensures ForwardState(ng, arcs).Some? <==> NgFeasible(ng, Stops(ng.top, arcs))
    ensures ForwardState(ng, arcs).Some? ==>
              && Proper(ng, Stops(ng.top, arcs)[|arcs|], ForwardState(ng, arcs).value)
              && forall w: nat ::
              Holds(ng, Stops(ng.top, arcs)[|arcs|], ForwardState(ng, arcs).value, w) <==>
                Remembers(ng, Stops(ng.top, arcs), w)
  {
    hide Built, Roomy, Advance, Holds, Proper, Remembers, NgFeasible, In;
    BuiltTables(ng);
    if arcs == [] {
      Started(ng, Forward, ng.top.source);
      SingleStop(ng, ng.top.source);
    } else {
      var n := |arcs| - 1;
      var rest, a := arcs[..n], arcs[n];
      var F := Stops(ng.top, rest);
      ForwardRefines(ng, rest);
      FeasibleNext(ng, F, ng.top.to(a));
      if ForwardState(ng, rest).Some? {
        var s := ForwardState(ng, rest).value;
        ProperSelf(ng, F[n], s);
        TailHead(ng.top, a);
        Stepped(ng, Forward, s, a);
        forall w: nat
          ensures Remembers(ng, F + [ng.top.to(a)], w) <==>
                    (In(ng, ng.top.to(a), w) && (Remembers(ng, F, w) || w == F[n]))
                    || (w == ng.top.to(a) && In(ng, ng.top.to(a), ng.top.to(a)))
        {
          RemembersNext(ng, F, ng.top.to(a), w);
        }
      }
    }
  }

  lemma TailHead(top: Topology, a: nat)
    ensures top.Tail(Forward, a) == top.from(a) && top.Head(Forward, a) == top.to(a)
    ensures top.Tail(Backward, a) == top.to(a) && top.Head(Backward, a) == top.from(a)
  {
  }

  lemma ProperSelf(ng: Ng, v: nat, s: bv32)
    requires Proper(ng, v, s)
    ensures Bits.Bit(s, ng.Self(v))
  {
  }

  lemma SingleStop(ng: Ng, v: nat)
    ensures NgFeasible(ng, [v])
    ensures forall w: nat :: Remembers(ng, [v], w) <==> w == v && In(ng, v, v)
    ensures forall w: nat :: Foresees(ng, [v], w) <==> w == v && In(ng, v, v)
  {
    forall w: nat | w == v && In(ng, v, v) ensures Remembers(ng, [v], w) && Foresees(ng, [v], w) {
      assert StaysFrom(ng, [v], 0, w) && ComesBack(ng, [v], 0, w);
    }
  }

  /** The vertices of a chain that ends at the sink. */
  function StopsBack(top: Topology, arcs: seq<nat>): (r: seq<nat>)
    ensures |r| == |arcs| + 1
  {
    if arcs == [] then [top.sink] else [top.from(arcs[0])] + StopsBack(top, arcs[1..])
  }

  ghost predicate ChainedBack(top: Topology, arcs: seq<nat>) {
    arcs == [] || (ChainedBack(top, arcs[1..]) && top.to(arcs[0]) == StopsBack(top, arcs[1..])[0])
  }

  /** The state of a backward label that has taken the arcs from the last to the first. */
  function BackwardState(ng: Ng, arcs: seq<nat>): Option<bv32> {
    if arcs == [] then Some(Initial(ng.AsResource(), Backward, ng.top.sink).0) else
    var s := BackwardState(ng, arcs[1..]);
    if s.None? then None else
    var r := Advance(ng.AsResource(), Backward, s.value, arcs[0], ng.top.from(arcs[0]));
    if r.1.Fin? then Some(r.0) else None
  }

  /** The same for backward labels, with the path read from its front. */
  lemma {:induction false} BackwardRefines(ng: Ng, arcs: seq<nat>)
    requires Built(ng) && Roomy(ng) && ChainedBack(ng.top, arcs)
    ensures BackwardState(ng, arcs).Some? <==> NgFeasible(ng, StopsBack(ng.top, arcs))
    ensures BackwardState(ng, arcs).Some? ==>
              && Proper(ng, StopsBack(ng.top, arcs)[0], BackwardState(ng, arcs).value)
              && forall w: nat ::
              Holds(ng, StopsBack(ng.top, arcs)[0], BackwardState(ng, arcs).value, w) <==>
                Foresees(ng, StopsBack(ng.top, arcs), w)
  {
    hide Built, Roomy, Advance, Holds, Proper, Foresees, NgFeasible, In;
    BuiltTables(ng);
    if arcs == [] {
      Started(ng, Backward, ng.top.sink);
      SingleStop(ng, ng.top.sink);
    } else {
      var rest, a := arcs[1..], arcs[0];
      var B, v := StopsBack(ng.top, rest), ng.top.from(a);
      BackwardRefines(ng, rest);
      FeasibleBefore(ng, B, v);
      if BackwardState(ng, rest).Some? {
        var s := BackwardState(ng, rest).value;
        ProperSelf(ng, B[0], s);
        TailHead(ng.top, a);
        Stepped(ng, Backward, s, a);
        forall w: nat
          ensures Foresees(ng, [v] + B, w) <==>
                    (In(ng, v, w) && (Foresees(ng, B, w) || w == B[0])) || (w == v && In(ng, v, v))
        {
          ForeseesNext(ng, B, v, w);
        }
      }
    }
  }

  // ----- Joining -----

  /** Nothing is remembered on both sides of the arc, and its head is not remembered before it. */
  ghost predicate Compatible(ng: Ng, F: seq<nat>, B: seq<nat>)
    requires |F| > 0 && |B| > 0
  {
    !Remembers(ng, F, B[0]) && forall w: nat ::
        In(ng, B[0], w) && (Remembers(ng, F, w) || w == F[|F| - 1]) ==> !Foresees(ng, B, w)
  }

  /** w, last seen before the arc at i, is seen again at y behind it. */
  lemma StraddlingCycle(ng: Ng, F: seq<nat>, B: seq<nat>, i: nat, y: nat)
    requires i < |F| && y < |B|
    ensures NgCycle(ng, F + B, i, y + |F|) <==> F[i] == B[y] && Across(ng, F, B, i, y)
  {
    var G, j, w := F + B, y + |F|, F[i];
    assert forall m: nat :: m < |F| ==> G[m] == F[m];
    assert forall m: nat :: m < |B| ==> G[m + |F|] == B[m];
    if NgCycle(ng, G, i, j) {
      forall m: nat | i < m < |F| ensures In(ng, F[m], w) { assert In(ng, G[m], G[i]); }
      forall m: nat | m < y ensures In(ng, B[m], w) { assert In(ng, G[m + |F|], G[i]); }
    }
    if F[i] == B[y] && Across(ng, F, B, i, y) {
      forall m: nat | i < m < j ensures In(ng, G[m], G[i]) {
        if m >= |F| { assert G[m] == B[m - |F|]; }
      }
    }
  }

  /** Every vertex between the two positions remembers F[i]. */
  ghost predicate Across(ng: Ng, F: seq<nat>, B: seq<nat>, i: nat, y: nat)
    requires i < |F| && y < |B|
  {
    && (forall m: nat :: i < m < |F| ==> In(ng, F[m], F[i])) && (forall m: nat :: m < y ==> In(ng, B[m], F[i]))
    && (i == |F| - 1 && y == 0 ==> In(ng, F[i], F[i]))
  }

  /** Two feasible parts are compatible exactly when no vertex is seen on both sides too early. */
  lemma CompatibleIff(ng: Ng, F: seq<nat>, B: seq<nat>)
    requires |F| > 0 && |B| > 0
    ensures Compatible(ng, F, B) <==>
              forall i: nat, y: nat :: i < |F| && y < |B| && F[i] == B[y] ==> !Across(ng, F, B, i, y)
  {
    if Compatible(ng, F, B) {
      forall i: nat, y: nat | i < |F| && y < |B| && F[i] == B[y]
        ensures !Across(ng, F, B, i, y)
      {
        NotAcross(ng, F, B, i, y);
      }
    }
    if forall i: nat, y: nat :: i < |F| && y < |B| && F[i] == B[y] ==> !Across(ng, F, B, i, y) {
      forall i: nat | i < |F| ensures !StaysFrom(ng, F, i, B[0]) { assert F[i] == B[0] ==> !Across(ng, F, B, i, 0); }
      forall w: nat | In(ng, B[0], w) && (Remembers(ng, F, w) || w == F[|F| - 1])
        ensures !Foresees(ng, B, w)
      {
        NotForeseen(ng, F, B, w);
      }
    }
  }

  lemma NotAcross(ng: Ng, F: seq<nat>, B: seq<nat>, i: nat, y: nat)
    requires |F| > 0 && |B| > 0 && Compatible(ng, F, B) && i < |F| && y < |B| && F[i] == B[y]
    ensures !Across(ng, F, B, i, y)
  {
    var w := F[i];
    if Across(ng, F, B, i, y) {
      if y == 0 {
        assert StaysFrom(ng, F, i, w);
      } else {
        assert In(ng, B[0], w);
        assert i < |F| - 1 ==> StaysFrom(ng, F, i, w);
        assert ComesBack(ng, B, y, w);
      }
    }
  }

  lemma NotForeseen(ng: Ng, F: seq<nat>, B: seq<nat>, w: nat)
    requires |F| > 0 && |B| > 0 && In(ng, B[0], w) && (Remembers(ng, F, w) || w == F[|F| - 1])
    requires forall i: nat, y: nat :: i < |F| && y < |B| && F[i] == B[y] ==> !Across(ng, F, B, i, y)
    ensures !Foresees(ng, B, w)
  {
    var i: nat := if w == F[|F| - 1] then |F| - 1 else var i: nat :| i < |F| && StaysFrom(ng, F, i, w); i;
    forall y: nat | y < |B| ensures !ComesBack(ng, B, y, w) { assert B[y] == w ==> !Across(ng, F, B, i, y); }
  }

  /** Two feasible parts form a feasible path exactly when they are compatible. */
  lemma JoinSemantics(ng: Ng, F: seq<nat>, B: seq<nat>)
    requires |F| > 0 && |B| > 0 && NgFeasible(ng, F) && NgFeasible(ng, B)
    ensures NgFeasible(ng, F + B) <==> Compatible(ng, F, B)
  {
    hide NgCycle, Compatible, Across;
    CompatibleIff(ng, F, B);
    var G := F + B;
    forall i: nat, j: nat | i < j < |F| ensures !NgCycle(ng, G, i, j) { CyclePrefix(ng, F, B, i, j); }
    forall i: nat, j: nat | |F| <= i < j < |G|
      ensures !NgCycle(ng, G, i, j)
    {
      CycleSuffix(ng, F, B, i - |F|, j - |F|);
    }
    forall i: nat, j: nat | i < |F| <= j < |G|
      ensures NgCycle(ng, G, i, j) <==> F[i] == B[j - |F|] && Across(ng, F, B, i, j - |F|)
    {
      StraddlingCycle(ng, F, B, i, j - |F|);
    }
    if NgFeasible(ng, G) {
      forall i: nat, y: nat | i < |F| && y < |B| && F[i] == B[y]
        ensures !Across(ng, F, B, i, y)
      {
        assert !NgCycle(ng, G, i, y + |F|);
      }
    }
  }

  /**
   * Prefix, arc and suffix join exactly when the whole path is ng-feasible, for every path and every
   * split arc.
   */
  lemma NgSplit(ng: Ng, p: seq<nat>, a: nat, t: seq<nat>)
    requires Built(ng) && Roomy(ng) && Chained(ng.top, p) && ChainedBack(ng.top, t)
    requires ng.top.from(a) == Stops(ng.top, p)[|p|] && ng.top.to(a) == StopsBack(ng.top, t)[0]
    ensures (ForwardState(ng, p).Some? && BackwardState(ng, t).Some?
             && JoinCost(ng.AsResource(), ForwardState(ng, p).value, a, ng.top.to(a), BackwardState(ng, t).value).Fin?)
            <==> NgFeasible(ng, Stops(ng.top, p) + StopsBack(ng.top, t))
  {
    hide Built, Roomy, Holds, Proper, Foresees, Remembers, NgFeasible, In, JoinCost, Stops, StopsBack, ForwardState,
         BackwardState;
    var F, B := Stops(ng.top, p), StopsBack(ng.top, t);
    ForwardRefines(ng, p);
    BackwardRefines(ng, t);
    PartsFeasible(ng, F, B);
    if ForwardState(ng, p).Some? && BackwardState(ng, t).Some? {
      var s, u := ForwardState(ng, p).value, BackwardState(ng, t).value;
      ProperSelf(ng, F[|p|], s);
      JoinedNg(ng, s, a, u);
      JoinSemantics(ng, F, B);
    }
  }

  lemma PartsFeasible(ng: Ng, F: seq<nat>, B: seq<nat>)
    ensures NgFeasible(ng, F + B) ==> NgFeasible(ng, F) && NgFeasible(ng, B)
  {
    hide NgCycle;
    var G := F + B;
    forall i: nat, j: nat | i < j < |F|
      ensures NgCycle(ng, G, i, j) <==> NgCycle(ng, F, i, j)
    {
      CyclePrefix(ng, F, B, i, j);
    }
    if NgFeasible(ng, G) {
      forall x: nat, y: nat | x < y < |B| ensures !NgCycle(ng, B, x, y) {
        CycleSuffix(ng, F, B, x, y);
        assert !NgCycle(ng, G, x + |F|, y + |F|);
      }
    }
  }
}
