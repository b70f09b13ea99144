/** Building the bucket graph and solving from scratch (build, solve). */
module Building {
  import opened Types
  import opened Resources
  import opened Problems
  import opened Grids
  import opened BucketArcs
  import opened BucketOrder
  import opened LabelingSpec
  import opened JumpArcSearch
  import opened Exactness
  import opened LabelCounts
  import opened Clearances
  import opened Caps
  import opened Paths
  import opened Solving
  import opened Bidirectional
  import opened BidirectionalSolve

  /** The part of build for one direction: bucket arcs, then components. */
  method BuildDirection<S(!new)>(P: Problem<S>, G: Grid, dir: Direction, out: seq<seq<nat>>, mid: Bound, theta: real)
    returns (C: Setup<S>)
    requires Ready(P, G) && Disposable(P.pack, P.top)
    requires |out| == P.nVertices && forall v: nat :: v < P.nVertices ==> out[v] == ArcsAt(P, Forward, v, P.nArcs)
    ensures C.P == P && C.G == G && C.dir == dir && C.mid == mid && C.theta == theta && C.opposite.None?
    ensures SetupOk(C) && Full(C) && NoJumps(C) && ArcsOrdered(C) && Plain(C)
  {
    hide GridUpTo, Disposable, TopoOrder, Grouped, ArcsAt, FullArcs, ArcOrder;
    var adj := BuildAdjacency(P, dir);
    var arcs := BuildBucketArcs(P, G, dir, adj);
    TargetsValid(P, G, dir, arcs);
    var graph, id, count, groups := ComputeSccs(P, G, dir, arcs);
    ComponentsAreTopological(P, G, dir, arcs, graph, id, count);
    TopoSize(P, G, dir, id, count);
    C := Setup(P, G, dir, out, arcs, seq(|G.buckets|, b => []), {}, id, count, groups, mid, None, theta);
    forall b: nat | b < |C.arcs| ensures ArcOrder(C.arcs[b]) { FullArcsOrder(P, G, dir, b); }
  }

  lemma TopoSize<S>(P: Problem<S>, G: Grid, dir: Direction, id: seq<int>, count: nat)
    requires Ready(P, G) && TopoOrder(P, G, dir, id, count)
    ensures |id| == |G.buckets|
  {
  }

  lemma TargetsValid<S>(P: Problem<S>, G: Grid, dir: Direction, arcs: seq<seq<BucketArc>>)
    requires Ready(P, G) && |arcs| == |G.buckets| && forall b: nat :: b < |arcs| ==> arcs[b] == FullArcs(P, G, dir, b)
    ensures ValidTargets(G, arcs)
  {
    hide FullArcs, Open;
    forall b: nat, i: nat | b < |arcs| && i < |arcs[b]| ensures arcs[b][i].toBucket < |G.buckets| {
      FullArcsMembers(P, G, dir, b);
      var e := arcs[b][i];
      assert e in FullArcs(P, G, dir, b);
      BucketIndexFacts(P, G, P.top.Head(dir, e.arc), Arrival(P, dir, Corner(dir, G.buckets[b]), e.arc));
    }
  }

  /** build, then solve with one direction: any well-formed instance of disposable resources is solved to optimality. */
  method BuildAndSolve<S(!new)>(P: Problem<S>, width: nat -> Vec, theta: real, maxPaths: nat)
    returns (paths: seq<Path>, capped: bool, ghost C: Setup<S>, ghost s: Store<S>)
    requires WellFormed(P) && Widths(P, width) && Disposable(P.pack, P.top)
    ensures SetupOk(C) && Full(C) && C.P == P && C.theta == theta && C.dir.Forward?
    ensures StoreOk(C, s) && Answers(C, s, maxPaths, paths)
    ensures !capped && InitialNode(P, Forward).Some? ==> Finished(C, s) && Tight(C, s)
    ensures forall i: nat :: i < |paths| ==> Realises(P, paths[i]) && paths[i].reducedCost < theta
    ensures forall i: nat, j: nat :: i < j < |paths| ==> paths[i].reducedCost <= paths[j].reducedCost
    ensures !capped ==> Optimal(P, paths, theta, theta)
    ensures FewPartial(P, Forward, SCC_CAP) ==> !capped
  {
    hide FewPartial, Plain, SetupOk, Full, Disposable, GridUpTo, Realises, Optimal, Finished, Preserves, Answers,
         StoreOk, Tight;
    var G := BuildBuckets(P, width);
    var out := BuildAdjacency(P, Forward);
    var graph := BuildDirection(P, G, Forward, out, Inf, theta);
    C := graph;
    FullPreserves(C, theta);
    var run;
    paths, run, capped := SolveMono(graph, maxPaths, theta);
    s := run.State();
  }

  /** build, then solve with both directions around a midpoint. */
  method BuildAndSolveBothWays<S(!new)>(P: Problem<S>, width: nat -> Vec, mid: real, theta: real, maxPaths: nat,
                                        ghost inv: Invariant<S>)
    returns (paths: seq<Path>, capped: bool, ghost C: Setup<S>, ghost B: Setup<S>, ghost end: Option<Outcome<S>>)
    requires WellFormed(P) && Widths(P, width) && Disposable(P.pack, P.top) && Joinable(P.pack, P.top, inv)
    requires P.lb(P.top.sink).AtMost(P.ub(P.top.sink))
    ensures forall i: nat :: i < |paths| ==> Realises(P, paths[i]) && paths[i].reducedCost < theta
    ensures forall i: nat, j: nat :: i < j < |paths| ==> paths[i].reducedCost <= paths[j].reducedCost
    ensures Paired(C, B) && BothFull(C, B) && C.P == P && C.theta == theta && C.mid == Fin(mid)
    ensures if end.Some? then Outcomes(C, B, end.value, capped, maxPaths, paths) else paths == []
    ensures AllVisible(P, paths, theta, mid) && (!capped ==> BestVisible(P, paths, theta, mid))
    ensures !capped && Splittable(P, mid, inv) ==> OptimalButFor(P, paths, theta, mid)
    ensures FewPartial(P, Forward, SCC_CAP) && FewPartial(P, Backward, SCC_CAP) ==> !capped
  {
    hide FewPartial, Plain, SetupOk, Full, Disposable, Joinable, GridUpTo, Realises, OptimalButFor, Splittable,
         BestVisible, AllVisible, Outcomes;
    var G := BuildBuckets(P, width);
    var out := BuildAdjacency(P, Forward);
    var F := BuildDirection(P, G, Forward, out, Fin(mid), theta);
    var W := BuildDirection(P, G, Backward, out, Fin(mid), theta);
    C, B := F, W;
    paths, capped, end := SolveBidirectional(F, W, maxPaths, inv);
  }
}
