/** Solving, fixing and eliminating with the results, and solving again. */
module Resolving {
  import opened Types
  import opened Resources
  import opened Problems
  import opened Grids
  import opened BucketArcs
  import opened BucketOrder
  import opened LabelStores
  import opened LabelingSpec
  import opened CBests
  import opened Exactness
  import opened Threads
  import opened Paths
  import opened Labeling
  import opened Solving
  import opened Completion
  import opened Elimination
  import opened JumpArcSearch
  import opened EnumerationSpec
  import opened EnumerationCounts
  import opened LabelCounts
  import opened Clearances
  import opened Caps
  import opened Enumeration

  lemma FullOrdered<S(!new)>(C: Setup<S>)
    requires SetupOk(C) && Full(C)
    ensures ArcsOrdered(C)
  {
    hide TopoOrder, Grouped, Disposable, ArcOrder;
    forall b: nat | b < |C.arcs| ensures ArcOrder(C.arcs[b]) { FullArcsOrder(C.P, C.G, C.dir, b); }
  }

  lemma FewerArcs<S(!new)>(C: Setup<S>, cBest: seq<Bound>, comp: seq<Bound>, theta: real, arcs: seq<seq<BucketArc>>,
                           fixed: set<nat>)
    requires SetupOk(C) && Eliminated(C, cBest, comp, theta, arcs)
    ensures SetupOk(C.(arcs := arcs, fixed := fixed))
  {
    hide TopoOrder, Grouped, Disposable, Hopeless, FullArcs;
    var D := C.(arcs := arcs, fixed := fixed);
    forall b: nat, e: BucketArc | b < |D.arcs| && e in D.arcs[b] ensures ArcOk(D, b, e) { assert ArcOk(C, b, e); }
    forall b: nat, j: JumpArc | b < |D.jumps| && j in D.jumps[b] ensures JumpOk(D, b, j) { assert JumpOk(C, b, j); }
  }

  /** Fewer arcs make no new cycle. */
  lemma {:induction false} LeadsStill<S>(C: Setup<S>, D: Setup<S>, b: nat, w: seq<BucketArc>, c: nat)
    requires D.P == C.P && |D.arcs| == |C.arcs| && Leads(D, b, w, c)
    requires forall o: nat, e: BucketArc :: o < |D.arcs| && e in D.arcs[o] ==> e in C.arcs[o]
    ensures Leads(C, b, w, c) && Length(C, w) == Length(D, w)
    decreases |w|
  {
    if w != [] { LeadsStill(C, D, w[0].toBucket, w[1..], c); }
  }

  lemma CyclesStill<S(!new)>(C: Setup<S>, cBest: seq<Bound>, comp: seq<Bound>, theta: real, D: Setup<S>)
    requires NoNegativeCycle(C) && D.P == C.P && Eliminated(C, cBest, comp, theta, D.arcs)
    ensures NoNegativeCycle(D)
  {
    hide Leads, Length, Hopeless;
    forall b: nat, w: seq<BucketArc> | Leads(D, b, w, b) ensures Length(D, w) >= 0.0 { LeadsStill(C, D, b, w, b); }
  }

  /** D is what one round of fixing and elimination for a gap makes of C, with the exact bounds of store s. */
  ghost predicate RoundOf<S(!new)>(C: Setup<S>, s: Store<S>, gap: real, D: Setup<S>)
    requires SetupOk(C)
  {
    exists cBest, comp :: ExactBounds(C, s, cBest, comp) && OneRound(C, cBest, comp, gap, true, true, D)
  }

  lemma RoundBy<S(!new)>(C: Setup<S>, s: Store<S>, cBest: seq<Bound>, comp: seq<Bound>, gap: real, D: Setup<S>,
                         limit: real)
    requires SetupOk(C) && ExactBounds(C, s, cBest, comp) && OneRound(C, cBest, comp, gap, true, true, D)
    ensures RoundOf(C, s, gap, D) && RoundOf(C, s, gap, D.(theta := limit))
  {
    hide SetupOk, ExactBounds, Eliminated, HopelessBucket;
    assert OneRound(C, cBest, comp, gap, true, true, D.(theta := limit));
  }

  lemma RoundTheta<S(!new)>(C: Setup<S>, s: Store<S>, gap: real, D: Setup<S>, limit: real)
    requires SetupOk(C) && RoundOf(C, s, gap, D)
    ensures RoundOf(C, s, gap, D.(theta := limit))
  {
    hide TopoOrder, Grouped, Disposable, GridUpTo, ExactBounds, OneRound;
    var cBest, comp :| ExactBounds(C, s, cBest, comp) && OneRound(C, cBest, comp, gap, true, true, D);
    RoundBy(C, s, cBest, comp, gap, D, limit);
  }

  /**
   * fix_buckets and eliminate_arcs after a run, on any bucket graph. The result has what walks of cost at most gap
   * need exactly if the graph had it and the bounds span every step of these walks; so it does after a finished
   * run on a nested graph. It is nested itself, when no bucket is fixed, exactly if there are no jump arcs.
   */
  method Reduce<S(!new)>(C: Setup<S>, run: LabelingRun<S>, adj: seq<seq<nat>>, gap: real, noJumps: bool)
    returns (D: Setup<S>)
    requires SetupOk(C) && ArcsOrdered(C) && Unlimited(C) && NoNegativeCycle(C) && run.C == C && run.Valid()
    requires BoundsOk(C, run.pool, run.rows, run.cBest, run.vertexMin, 0)
    requires |adj| == C.P.nVertices && forall v: nat :: v < C.P.nVertices ==> adj[v] == ArcsAt(C.P, C.dir, v, C.P.nArcs)
    ensures SetupOk(D) && ArcsOrdered(D) && JumpsLack(D) && Unlimited(D) && NoNegativeCycle(D)
    ensures D.P == C.P && D.theta == C.theta && D.dir == C.dir
    ensures |run.rows| == |C.G.buckets| && (Preserves(D, gap) <==>
              Preserves(C, gap) && AllSpanned(C, run.State(), gap, true, true))
    ensures Finished(C, run.State()) && ArcsNested(C) && Preserves(C, gap) ==> Preserves(D, gap)
    ensures !noJumps && D.fixed == {} ==> (ArcsNested(D) <==> NoJumps(D))
    ensures !noJumps ==> JumpsExact(D)
    ensures RoundOf(C, run.State(), gap, D)
  {
    hide RoundOf, JumpsExact, SetupOk, NoNegativeCycle, Finished, BoundsOk, ArcsOrdered, BoundsOfWalks, Preserves,
         JumpOk,
         ArcsNested, NoJumps, JumpsOf, JumpsLack, AllSpanned, ExactBounds, StoreOk, Hopeless;
    SizesOf(C, run.pool, run.rows, run.cBest, run.vertexMin);
    var comp, exact := ComputeCompletion(C);
    CompletionSize(C, exact, comp);
    RunBounds(C, run.State(), run.cBest, run.vertexMin, exact, comp);
    var fixed, _ := FixBuckets(run.cBest, comp, None, gap, C.fixed);
    var arcs := EliminateArcs(C, run.cBest, comp, gap);
    FewerArcs(C, run.cBest, comp, gap, arcs, fixed);
    var E := C.(arcs := arcs, fixed := fixed);
    OrderedStill(C, E);
    var jumps := ObtainJumpArcs(E, adj, noJumps);
    NewJumps(E, jumps);
    D := E.(jumps := jumps);
    OrderedSame(E, D);
    JumpsLackSo(E, noJumps, jumps, D);
    CyclesStill(C, run.cBest, comp, gap, D);
    RoundSafeIff(C, run.State(), run.cBest, comp, gap, true, true, D);
    RoundBy(C, run.State(), run.cBest, comp, gap, D, gap);
    if Finished(C, run.State()) && ArcsNested(C) && Preserves(C, gap) {
      EliminationSafe(C, run.State(), run.cBest, run.vertexMin, exact, comp, gap, D);
    }
    if !noJumps { ExactJumps(E, jumps, D); }
    if !noJumps && D.fixed == {} { NestedIfNone(D); }
  }

  lemma OrderedSame<S(!new)>(E: Setup<S>, D: Setup<S>)
    requires ArcsOrdered(E) && D.arcs == E.arcs
    ensures ArcsOrdered(D)
  {
    hide ArcOrder;
  }

  lemma JumpsLackSo<S(!new)>(E: Setup<S>, noJumps: bool, jumps: seq<seq<JumpArc>>, D: Setup<S>)
    requires SetupOk(E) && D == E.(jumps := jumps) && |jumps| == |E.arcs|
    requires forall b: nat :: b < |jumps| ==> if noJumps then jumps[b] == [] else JumpsOf(E, b, jumps[b])
    ensures JumpsLack(D)
  {
    hide TopoOrder, Grouped, Disposable, OnFront, GridUpTo, HasArc;
    forall b: nat, j: JumpArc | b < |D.jumps| && j in D.jumps[b] ensures Lacks(D, b, j.arc) {
      assert !noJumps && JumpsTo(E, b, j);
      SameArcs(E, D, b, j.arc);
    }
  }

  lemma SameArcs<S>(E: Setup<S>, D: Setup<S>, b: nat, a: nat)
    requires D.arcs == E.arcs && b < |E.arcs|
    ensures HasArc(D, b, a) == HasArc(E, b, a)
  {
  }

  lemma ExactJumps<S(!new)>(E: Setup<S>, jumps: seq<seq<JumpArc>>, D: Setup<S>)
    requires SetupOk(D) && D == E.(jumps := jumps) && SetupOk(E)
    requires |jumps| == |E.arcs| && forall b: nat :: b < |jumps| ==> JumpsOf(E, b, jumps[b])
    ensures JumpsExact(D)
  {
    hide TopoOrder, Grouped, Disposable, OnFront, GridUpTo;
    forall b: nat | b < |D.jumps| ensures JumpsOf(D, b, D.jumps[b]) {
      assert JumpsOf(E, b, jumps[b]);
      SameJumps(E, D, b);
    }
  }

  lemma NestedIfNone<S(!new)>(D: Setup<S>)
    requires SetupOk(D) && D.fixed == {} && JumpsExact(D)
    ensures ArcsNested(D) <==> NoJumps(D)
  {
    hide TopoOrder, Grouped, Disposable, ArcsNested, NoJumps, JumpsOf, GridUpTo;
    NoJumpsIffNested(D);
  }

  /** Which jump arcs a bucket should have does not depend on those it has. */
  lemma SameJumps<S(!new)>(E: Setup<S>, D: Setup<S>, b: nat)
    requires SetupOk(E) && SetupOk(D) && D == E.(jumps := D.jumps)
    ensures forall j :: JumpsTo(D, b, j) <==> JumpsTo(E, b, j)
  {
    hide TopoOrder, Grouped, Disposable, GridUpTo, BucketOk;
    assert forall a: nat, c: nat :: Successor(D, b, a, c) <==> Successor(E, b, a, c);
    assert forall a: nat, c: nat :: OnFront(D, b, a, c) <==> OnFront(E, b, a, c);
  }

  lemma SizesOf<S(!new)>(C: Setup<S>, pool: seq<Label<S>>, rows: seq<Row>, cBest: seq<Bound>, vertexMin: seq<Bound>)
    requires SetupOk(C) && BoundsOk(C, pool, rows, cBest, vertexMin, 0)
    ensures |cBest| == |rows| == |C.G.buckets|
  {
  }

  lemma CompletionSize<S(!new)>(C: Setup<S>, exact: seq<Bound>, comp: seq<Bound>)
    requires BoundsOfWalks(C, exact, comp)
    ensures |comp| == |C.G.buckets|
  {
  }

  lemma OrderedStill<S(!new)>(C: Setup<S>, E: Setup<S>)
    requires ArcsOrdered(C) && |E.arcs| == |C.arcs|
    requires forall b: nat :: b < |E.arcs| && ArcOrder(C.arcs[b]) ==> ArcOrder(E.arcs[b])
    ensures ArcsOrdered(E)
  {
    hide ArcOrder;
  }

  /**
   * A solve, then fixing and elimination for a gap, then a second solve, from any bucket graph. Without a cap hit the
   * second solve finds an optimum among all walks of cost at most the gap whenever the reduced graph D keeps what
   * they need; it does if the graph was nested and kept it (FullIsNested), and Reduce says when else. Jump arcs may
   * make up for what D lacks: an optimum is found only if D, by arcs and jump arcs, allows a way to the sink as cheap
   * as each of these walks, and found if, with complete jump arcs, D allows one that does not land behind fixed
   * buckets; that is the same when nothing behind a fixed bucket is open.
   */
  method SolveReduceSolve<S(!new)>(C: Setup<S>, adj: seq<seq<nat>>, gap: real, noJumps: bool, maxPaths: nat)
    returns (paths: seq<Path>, capped: bool, D: Setup<S>, ghost first: Store<S>, ghost s: Store<S>)
    requires SetupOk(C) && ArcsOrdered(C) && Unlimited(C) && NoNegativeCycle(C)
    requires |adj| == C.P.nVertices && forall v: nat :: v < C.P.nVertices ==> adj[v] == ArcsAt(C.P, C.dir, v, C.P.nArcs)
    ensures SetupOk(D) && ArcsOrdered(D) && Unlimited(D) && NoNegativeCycle(D)
    ensures D.P == C.P && D.theta == C.theta && D.dir == C.dir
    ensures forall i: nat :: i < |paths| ==> Realises(C.P, paths[i]) && paths[i].reducedCost < C.theta
    ensures !capped && Preserves(D, gap) ==> Optimal(C.P, paths, C.theta, gap)
    ensures !capped && ArcsNested(C) && Preserves(C, gap) ==> Preserves(D, gap)
    ensures Optimal(C.P, paths, C.theta, gap) ==> Reaches(D, gap)
    ensures !capped && Sweeping(D) && ReachesFreely(D, gap) ==> Optimal(C.P, paths, C.theta, gap)
    ensures !capped && Sweeping(D) && FixedClosed(D) ==> (Optimal(C.P, paths, C.theta, gap) <==> Reaches(D, gap))
    ensures !capped && !noJumps && InitialNode(C.P, C.dir).Some? ==> JumpsExact(D)
    ensures forall i: nat :: i < |paths| ==> Follows(D, paths[i])
    ensures StoreOk(D, s) && Answers(D, s, maxPaths, paths)
    ensures !capped && InitialNode(C.P, C.dir).Some? ==> Finished(C, first) && RoundOf(C, first, gap, D)
    ensures !capped && InitialNode(C.P, C.dir).Some? ==> Finished(D, s) && Tight(D, s)
  {
    hide RoundOf, Answers, StoreOk, Tight, Follows, JumpsExact, Sweeping, Reaches, ReachesFreely, FixedClosed, SetupOk,
         NoNegativeCycle, Finished, BoundsOk, Preserves, Optimal, Realises, InitialNode, ArcsNested, ArcsOrdered,
         AllSpanned;
    var run, second;
    D := C;
    paths, run, capped := SolveMono(C, maxPaths, gap);
    first := run.State();
    s := first;
    if capped || InitialNode(C.P, C.dir).None? {
      if !capped { NothingFeasible(C, paths, gap); }
      return;
    }
    D := Reduce(C, run, adj, gap, noJumps);
    paths, second, capped := SolveMono(D, maxPaths, gap);
    s := second.State();
    if !capped && Sweeping(D) && FixedClosed(D) { OptimalIffReaches(D, gap, paths); }
  }

  /** The bucket graph as built can be reduced for every gap. */
  lemma FullIsNested<S(!new)>(C: Setup<S>, gap: real)
    requires SetupOk(C) && Full(C)
    ensures ArcsOrdered(C) && ArcsNested(C) && Preserves(C, gap)
  {
    hide SetupOk, Full, ArcsNested, ArcsOrdered, Preserves;
    FullOrdered(C);
    FullNested(C);
    FullPreserves(C, gap);
  }

  // ----- Solve, reduce, enumerate -----

  lemma NewTheta<S(!new)>(D: Setup<S>, limit: real, gap: real)
    requires SetupOk(D) && Preserves(D, gap) && limit <= gap && NoNegativeCycle(D) && ArcsOrdered(D) && JumpsLack(D)
             && Unlimited(D)
    ensures var E := D.(theta := limit);
            && SetupOk(E) && Preserves(E, limit) && NoNegativeCycle(E) && Countable(E)
            && (ArcsNested(E) <==> ArcsNested(D))
  {
    var E := D.(theta := limit);
    SetupTheta(D, limit);
    PreservesTheta(D, limit, gap);
    CyclesTheta(D, limit);
    NestedTheta(D, limit);
    CountableTheta(D, limit);
  }

  lemma SetupTheta<S(!new)>(D: Setup<S>, limit: real)
    requires SetupOk(D)
    ensures SetupOk(D.(theta := limit))
  {
    hide TopoOrder, Grouped, Disposable, FullArcs, GridUpTo;
    var E := D.(theta := limit);
    forall b: nat, e: BucketArc | b < |E.arcs| && e in E.arcs[b] ensures ArcOk(E, b, e) { assert ArcOk(D, b, e); }
    forall b: nat, j: JumpArc | b < |E.jumps| && j in E.jumps[b] ensures JumpOk(E, b, j) { assert JumpOk(D, b, j); }
  }

  lemma PreservesTheta<S(!new)>(D: Setup<S>, limit: real, gap: real)
    requires SetupOk(D) && SetupOk(D.(theta := limit)) && Preserves(D, gap) && limit <= gap
    ensures Preserves(D.(theta := limit), limit)
  {
    hide Layout, Disposable, HasArc, BucketIndex;
    var E := D.(theta := limit);
    forall p, n0, n, t | TrueLabel(E, p, n0, n) && Finishes(E, limit, n, t) ensures KeepsNext(E, n, t) {
      assert TrueLabel(D, p, n0, n) && Finishes(D, gap, n, t);
      assert KeepsNext(D, n, t);
      LayoutParts(D);
      if t != [] { SameArcs(D, E, BucketOf(D, n), t[0]); }
    }
  }

  lemma LayoutParts<S(!new)>(D: Setup<S>)
    requires SetupOk(D)
    ensures Ready(D.P, D.G) && |D.arcs| == |D.jumps| == |D.G.buckets|
  {
  }

  lemma CyclesTheta<S>(D: Setup<S>, limit: real)
    requires NoNegativeCycle(D)
    ensures NoNegativeCycle(D.(theta := limit))
  {
    hide Leads, Length;
    var E := D.(theta := limit);
    forall b: nat, w: seq<BucketArc> | Leads(E, b, w, b) ensures Length(E, w) >= 0.0 { LeadsStill(D, E, b, w, b); }
  }

  lemma NestedTheta<S(!new)>(D: Setup<S>, limit: real)
    requires SetupOk(D)
    ensures ArcsNested(D.(theta := limit)) <==> ArcsNested(D)
  {
    hide TopoOrder, Grouped, Disposable, GridUpTo, HasArc, BucketOk;
    var E := D.(theta := limit);
    forall b: nat, a: nat | b < |D.arcs| ensures HasArc(E, b, a) == HasArc(D, b, a) { SameArcs(D, E, b, a); }
    forall b: nat | b < |D.G.buckets| ensures NestedAt(E, b) == NestedAt(D, b) {}
  }

  lemma CountableTheta<S(!new)>(D: Setup<S>, limit: real)
    requires SetupOk(D) && SetupOk(D.(theta := limit)) && ArcsOrdered(D) && JumpsLack(D) && Unlimited(D)
    ensures Countable(D.(theta := limit))
  {
    hide Layout, Disposable, HasArc, ArcOrder;
    var E := D.(theta := limit);
    forall b: nat, j: JumpArc | b < |E.jumps| && j in E.jumps[b] ensures Lacks(E, b, j.arc) {
      assert Lacks(D, b, j.arc);
      SameArcs(D, E, b, j.arc);
    }
  }

  /**
   * A solve, fixing and elimination for a gap, then an enumeration of the walks below a limit within the gap. If the
   * reduced graph is nested, a complete enumeration is exact.
   */
  method SolveReduceEnumerate<S(!new)>(C: Setup<S>, adj: seq<seq<nat>>, gap: real, limit: real, noJumps: bool,
                                       maxLabels: nat, maxPaths: nat)
    returns (paths: seq<Path>, done: bool, D: Setup<S>, ghost first: Store<S>, ghost bounds: seq<Bound>,
          ghost T: Trail<S>)
    requires SetupOk(C) && Full(C) && Unlimited(C) && NoNegativeCycle(C) && limit <= gap
    requires |adj| == C.P.nVertices && forall v: nat :: v < C.P.nVertices ==> adj[v] == ArcsAt(C.P, C.dir, v, C.P.nArcs)
    ensures forall i: nat :: i < |paths| ==> Realises(C.P, paths[i]) && paths[i].reducedCost < limit
    ensures SetupOk(D) && D.P == C.P && (done && ArcsNested(D) ==> ListsAll(C.P, limit, paths))
    ensures done && InitialNode(C.P, C.dir).Some? ==>
              Finished(C, first) && RoundOf(C, first, gap, D) && D.theta == limit && Enumerated(D, bounds, T)
              && EnumAnswers(D, T, maxPaths, paths) && exists exact :: BoundsOfWalks(D, exact, bounds)
    ensures FewPartial(C.P, Forward, SCC_CAP) && FewPartial(C.P, Forward, maxLabels) ==>
              (Plain(C) && NoJumps(D) && maxPaths == 0 ==> done)
  {
    hide RoundOf, Answers, Tight, FewPartial, Plain, EnumAnswers, Trailed, Enumerated, Capped, OverLimit, SetupOk,
         Full, NoNegativeCycle,
         Finished, BoundsOk, Preserves, Optimal, Realises, InitialNode, ArcsNested, ArcsOrdered, JumpsLack,
         AllSpanned, Countable, ListsAll, KeepsAll, PrunesNothing, BoundsOfWalks, NoJumps;
    FullIsNested(C, gap);
    D, paths, bounds, T := C, [], [], Trail([], [], []);
    var best, run, capped := SolveMono(C, 0, gap);
    first := run.State();
    done := !capped;
    if capped { return; }
    if InitialNode(C.P, C.dir).None? { NothingBelow(C, limit); return; }
    D := Reduce(C, run, adj, gap, noJumps);
    NewTheta(D, limit, gap);
    RoundTheta(C, first, gap, D, limit);
    D := D.(theta := limit);
    if FewPartial(C.P, Forward, SCC_CAP) { FewerPartial(C.P, Forward, SCC_CAP, ENUM_CAP); }
    var comp, exact := ComputeCompletion(D);
    bounds := comp;
    paths, done, T := EnumerateMono(D, comp, maxLabels, maxPaths);
    PreservedIsKept(D);
    if ArcsNested(D) { NestedPrunesNothing(D, exact, comp); }
  }

  lemma NothingBelow<S(!new)>(C: Setup<S>, limit: real)
    requires InitialNode(C.P, C.dir).None? && C.dir.Forward?
    ensures ListsAll(C.P, limit, [])
  {
  }
}
