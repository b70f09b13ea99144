/** What labels mean: following arcs succeeds exactly on walks that both resources and the pack allow. */
module WalkTimes {
  import opened Types
  import opened Resources
  import opened Problems
  import opened Exactness
  import opened Paths
  import opened Schedules

  function WindowsX<S>(P: Problem<S>): Windows {
    Windows((a: nat) => P.consumption(a).x, (v: nat) => P.lb(v).x, (v: nat) => P.ub(v).x)
  }

  function WindowsY<S>(P: Problem<S>): Windows {
    Windows((a: nat) => P.consumption(a).y, (v: nat) => P.lb(v).y, (v: nat) => P.ub(v).y)
  }

  /** What the pack makes of the walk: its state at the end and what it has charged on the way. */
  function PackAlong<S>(R: Resource<S>, dir: Direction, vs: seq<nat>, arcs: seq<nat>): Option<(S, real)>
    requires |vs| == |arcs| + 1
    decreases |arcs|
  {
    if arcs == [] then
      var start := Initial(R, dir, vs[0]);
      if start.1.Inf? then None else Some((start.0, start.1.val))
    else
      var n := |arcs| - 1;
      var before := PackAlong(R, dir, vs[..n + 1], arcs[..n]);
      if before.None? then None else
      var next := Advance(R, dir, before.value.0, arcs[n], vs[n + 1]);
      if next.1.Inf? then None else Some((next.0, before.value.1 + next.1.val))
  }

  /** The label that follows the arcs from the start, if it gets to the end. */
  function Walked<S>(P: Problem<S>, dir: Direction, arcs: seq<nat>): Option<Node<S>> {
    var start := InitialNode(P, dir);
    if start.None? then None else Run(P, dir, start.value, arcs)
  }

  lemma WalkedNext<S>(P: Problem<S>, dir: Direction, arcs: seq<nat>, a: nat)
    ensures Walked(P, dir, arcs + [a]) ==
            (var n := Walked(P, dir, arcs); if n.None? then None else Step(P, dir, n.value, a))
  {
    var start := InitialNode(P, dir);
    if start.Some? {
      RunAppend(P, dir, start.value, arcs, [a]);
      var n := Run(P, dir, start.value, arcs);
      if n.Some? {
        assert [a][1..] == [];
        var m := Step(P, dir, n.value, a);
        if m.Some? { assert Run(P, dir, m.value, []) == m; }
      }
    }
  }

  lemma {:induction false} WalkCostAppend<S>(P: Problem<S>, arcs: seq<nat>, a: nat)
    ensures WalkCost(P, arcs + [a]) == WalkCost(P, arcs) + P.cost(a)
  {
    if arcs == [] {
      assert [a][1..] == [] && arcs + [a] == [a];
    } else {
      assert (arcs + [a])[1..] == arcs[1..] + [a];
      WalkCostAppend(P, arcs[1..], a);
    }
  }

  /** What a label that has followed the arcs holds: the best resources, and all that was charged. */
  ghost predicate Holds<S>(P: Problem<S>, dir: Direction, vs: seq<nat>, arcs: seq<nat>, n: Node<S>)
    requires |vs| == |arcs| + 1
  {
    && n.vertex == vs[|arcs|]
    && BestLast(WindowsX(P), dir, false, vs, arcs, n.q.x) && BestLast(WindowsY(P), dir, false, vs, arcs, n.q.y)
    && (var end := PackAlong(P.pack, dir, vs, arcs);
    end.Some? && n.states == end.value.0 && n.cost == WalkCost(P, arcs) + end.value.1)
  }

  /** Both resources can be spent in time and the pack refuses nothing. */
  ghost predicate Allowed<S>(P: Problem<S>, dir: Direction, vs: seq<nat>, arcs: seq<nat>)
    requires |vs| == |arcs| + 1
  {
    && CanBeTimed(WindowsX(P), dir, false, vs, arcs) && CanBeTimed(WindowsY(P), dir, false, vs, arcs)
    && PackAlong(P.pack, dir, vs, arcs).Some?
  }

  lemma WalkedStart<S>(P: Problem<S>, dir: Direction)
    ensures var v := P.top.Start(dir);
            && (Walked(P, dir, []).Some? <==> Allowed(P, dir, [v], []))
            && (Walked(P, dir, []).Some? ==> Holds(P, dir, [v], [], Walked(P, dir, []).value))
  {
    StartTimed(WindowsX(P), dir, false, P.top.Start(dir));
    StartTimed(WindowsY(P), dir, false, P.top.Start(dir));
  }

  /** One arc more. */
  lemma StepMeaning<S>(P: Problem<S>, dir: Direction, vs: seq<nat>, arcs: seq<nat>, n: Node<S>, v: nat, a: nat)
    requires |vs| == |arcs| + 1 && Holds(P, dir, vs, arcs, n)
    requires a < P.nArcs && P.top.Tail(dir, a) == n.vertex && P.top.Head(dir, a) == v
    ensures Step(P, dir, n, a).Some? <==> Allowed(P, dir, vs + [v], arcs + [a])
    ensures Step(P, dir, n, a).Some? ==> Holds(P, dir, vs + [v], arcs + [a], Step(P, dir, n, a).value)
  {
    hide BestLast, CanBeTimed, WalkCost;
    NextTimed(WindowsX(P), dir, false, vs, arcs, n.q.x, v, a);
    NextTimed(WindowsY(P), dir, false, vs, arcs, n.q.y, v, a);
    BestIsTimed(WindowsX(P), dir, false, vs + [v], arcs + [a]);
    BestIsTimed(WindowsY(P), dir, false, vs + [v], arcs + [a]);
    WalkCostAppend(P, arcs, a);
    assert (vs + [v])[..|arcs| + 1] == vs && (arcs + [a])[..|arcs|] == arcs;
  }

  /**
   * Along a connected walk a label gets to the end exactly if values can be chosen for both main resources and the pack
   * refuses nothing. It then holds the best last values: the least in a forward search, the greatest in a backward one.
   */
  lemma {:induction false} WalkedMeaning<S>(P: Problem<S>, dir: Direction, vs: seq<nat>, arcs: seq<nat>)
    requires Connects(P.top, dir, vs, arcs) && vs[0] == P.top.Start(dir)
             && forall i: nat :: i < |arcs| ==> arcs[i] < P.nArcs
    ensures Walked(P, dir, arcs).Some? <==> Allowed(P, dir, vs, arcs)
    ensures Walked(P, dir, arcs).Some? ==> Holds(P, dir, vs, arcs, Walked(P, dir, arcs).value)
    decreases |arcs|
  {
    hide Step, Walked, Allowed, Holds;
    if arcs == [] {
      WalkedStart(P, dir);
      assert vs == [P.top.Start(dir)];
    } else {
      var m := |arcs| - 1;
      var vs', arcs', v, a := vs[..m + 1], arcs[..m], vs[m + 1], arcs[m];
      assert vs == vs' + [v] && arcs == arcs' + [a];
      WalkedMeaning(P, dir, vs', arcs');
      WalkedNext(P, dir, arcs', a);
      if Walked(P, dir, arcs').Some? {
        HoldsVertex(P, dir, vs', arcs', Walked(P, dir, arcs').value);
        StepMeaning(P, dir, vs', arcs', Walked(P, dir, arcs').value, v, a);
      } else {
        NotAllowedMore(P, dir, vs', arcs', v, a);
      }
    }
  }

  lemma HoldsVertex<S>(P: Problem<S>, dir: Direction, vs: seq<nat>, arcs: seq<nat>, n: Node<S>)
    requires |vs| == |arcs| + 1 && Holds(P, dir, vs, arcs, n)
    ensures n.vertex == vs[|arcs|]
  {
  }

  lemma NotAllowedMore<S>(P: Problem<S>, dir: Direction, vs: seq<nat>, arcs: seq<nat>, v: nat, a: nat)
    requires |vs| == |arcs| + 1 && !Allowed(P, dir, vs, arcs)
    ensures !Allowed(P, dir, vs + [v], arcs + [a])
  {
    hide CanBeTimed;
    var X, Y := WindowsX(P), WindowsY(P);
    if !CanBeTimed(X, dir, false, vs, arcs) { NoTimesMore(X, dir, false, vs, arcs, v, a); }
    if !CanBeTimed(Y, dir, false, vs, arcs) { NoTimesMore(Y, dir, false, vs, arcs, v, a); }
    assert (vs + [v])[..|arcs| + 1] == vs && (arcs + [a])[..|arcs|] == arcs;
  }

  /** Only connected walks get to the end. */
  lemma {:induction false} WalkedConnects<S>(P: Problem<S>, dir: Direction, arcs: seq<nat>) returns (vs: seq<nat>)
    requires Walked(P, dir, arcs).Some?
    ensures Connects(P.top, dir, vs, arcs) && vs[0] == P.top.Start(dir)
    ensures vs[|arcs|] == Walked(P, dir, arcs).value.vertex && forall i: nat :: i < |arcs| ==> arcs[i] < P.nArcs
    decreases |arcs|
  {
    hide Walked, Connects, Extend;
    if arcs == [] {
      vs := [P.top.Start(dir)];
      WalkedStart(P, dir);
      SingleVertex(P.top, dir, P.top.Start(dir));
      HoldsVertex(P, dir, vs, arcs, Walked(P, dir, []).value);
    } else {
      var m := |arcs| - 1;
      var arcs', a := arcs[..m], arcs[m];
      assert arcs == arcs' + [a];
      WalkedNext(P, dir, arcs', a);
      var before := WalkedConnects(P, dir, arcs');
      ExtendVertex(P, dir, Walked(P, dir, arcs').value, a);
      ConnectsMore(P.top, dir, before, arcs', a);
      vs := before + [P.top.Head(dir, a)];
    }
  }

  lemma ExtendVertex<S>(P: Problem<S>, dir: Direction, n: Node<S>, a: nat)
    requires Step(P, dir, n, a).Some?
    ensures Step(P, dir, n, a).value.vertex == P.top.Head(dir, a)
  {
  }

  /**
   * The walk vs over the arcs leads from the source to the sink, in time for both resources, and the pack allows it.
   */
  ghost predicate Timely<S>(P: Problem<S>, vs: seq<nat>, arcs: seq<nat>) {
    && Connects(P.top, Forward, vs, arcs) && vs[0] == P.top.source && vs[|arcs|] == P.top.sink
    && (forall i: nat :: i < |arcs| ==> arcs[i] < P.nArcs)
    && Allowed(P, Forward, vs, arcs)
  }

  lemma TimelyWalks<S>(P: Problem<S>, vs: seq<nat>, arcs: seq<nat>)
    requires Timely(P, vs, arcs)
    ensures Walked(P, Forward, arcs).Some? && FeasibleWalk(P, arcs, Walked(P, Forward, arcs).value)
    ensures Walked(P, Forward, arcs).value.cost == WalkCost(P, arcs) + PackAlong(P.pack, Forward, vs, arcs).value.1
  {
    hide Run, InitialNode, CanBeTimed, BestLast, PackAlong, WalkCost;
    WalkedMeaning(P, Forward, vs, arcs);
    HoldsVertex(P, Forward, vs, arcs, Walked(P, Forward, arcs).value);
  }

  lemma WalkTimely<S>(P: Problem<S>, arcs: seq<nat>, z: Node<S>) returns (vs: seq<nat>)
    requires FeasibleWalk(P, arcs, z)
    ensures Timely(P, vs, arcs)
  {
    hide Run, InitialNode, CanBeTimed, BestLast, PackAlong, WalkCost;
    assert Walked(P, Forward, arcs) == Some(z);
    vs := WalkedConnects(P, Forward, arcs);
    WalkedMeaning(P, Forward, vs, arcs);
  }

  /** What the solves call a feasible walk is just that, and its cost is that of its arcs and what the pack charges. */
  lemma FeasibleIff<S>(P: Problem<S>, arcs: seq<nat>)
    ensures (exists z :: FeasibleWalk(P, arcs, z)) <==> exists vs :: Timely(P, vs, arcs)
    ensures forall vs, z :: Timely(P, vs, arcs) && FeasibleWalk(P, arcs, z) ==>
              z.cost == WalkCost(P, arcs) + PackAlong(P.pack, Forward, vs, arcs).value.1
  {
    hide FeasibleWalk;
    if z :| FeasibleWalk(P, arcs, z) { var vs := WalkTimely(P, arcs, z); }
    if vs :| Timely(P, vs, arcs) {
      TimelyWalks(P, vs, arcs);
      var z := Walked(P, Forward, arcs).value;
      assert FeasibleWalk(P, arcs, z);
    }
    forall vs, z | Timely(P, vs, arcs) && FeasibleWalk(P, arcs, z)
      ensures z.cost == WalkCost(P, arcs) + PackAlong(P.pack, Forward, vs, arcs).value.1
    {
      TimelyWalks(P, vs, arcs);
      OneEnd(P, arcs, z, Walked(P, Forward, arcs).value);
    }
  }

  lemma OneEnd<S>(P: Problem<S>, arcs: seq<nat>, y: Node<S>, z: Node<S>)
    requires FeasibleWalk(P, arcs, y) && FeasibleWalk(P, arcs, z)
    ensures y == z
  {
  }
}
