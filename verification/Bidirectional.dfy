/** The bidirectional solve, backward labels first (solve_bidirectional). */
module Bidirectional {
  import opened Types
  import opened Resources
  import opened Problems
  import opened Grids
  import opened BucketOrder
  import opened LabelStores
  import opened LabelingSpec
  import opened Exactness
  import opened Paths
  import opened Solving
  import opened Joins
  import opened Concat
  import opened Pruning

  /** The two directions of one solve around a fixed midpoint. */
  ghost predicate Paired<S(!new)>(F: Setup<S>, B: Setup<S>) {
    && SetupOk(F) && SetupOk(B)
    && F.P == B.P && F.G == B.G && F.theta == B.theta && F.mid == B.mid && F.mid.Fin?
    && F.dir.Forward? && B.dir.Backward? && B.opposite.None?
  }

  /** Nothing is fixed or eliminated in either direction. */
  ghost predicate BothFull<S(!new)>(F: Setup<S>, B: Setup<S>)
    requires Paired(F, B)
  {
    Full(F) && Full(B)
  }

  /** What the split at the midpoint relies on. */
  ghost predicate Splittable<S(!new)>(P: Problem<S>, mid: real, inv: Invariant<S>) {
    && Joinable(P.pack, P.top, inv)
    && P.lb(P.top.sink).AtMost(P.ub(P.top.sink))
    && P.lb(P.top.source).x <= mid && P.top.source != P.top.sink
    && (forall a: nat ::
      a < P.nArcs ==> P.consumption(a).x >= 0.0 && P.top.to(a) != P.top.source && P.top.from(a) != P.top.sink)
  }

  // ----- Where a walk crosses the midpoint -----

  /** Resource 0 after k arcs is beyond the midpoint. */
  ghost predicate Crossed<S>(P: Problem<S>, mid: real, p: seq<nat>, k: nat)
    requires k <= |p|
  {
    Prefix(P, p, k).Some? && Prefix(P, p, k).value.q.x > mid
  }

  lemma PrefixExists<S(!new)>(P: Problem<S>, p: seq<nat>, z: Node<S>, k: nat)
    requires FeasibleWalk(P, p, z) && k <= |p|
    ensures Prefix(P, p, k).Some?
    ensures k == |p| ==> Prefix(P, p, k).value == z
  {
    assert p == p[..k] + p[k..];
    RunAppend(P, Forward, InitialNode(P, Forward).value, p[..k], p[k..]);
    assert p[..|p|] == p;
  }

  /** Once crossed, always crossed. */
  lemma {:induction false} CrossedOn<S(!new)>(P: Problem<S>, mid: real, inv: Invariant<S>, p: seq<nat>, z: Node<S>,
                                              h: nat, k: nat)
    requires Splittable(P, mid, inv) && FeasibleWalk(P, p, z) && h <= k <= |p| && Crossed(P, mid, p, h)
    ensures Crossed(P, mid, p, k)
    decreases k - h
  {
    hide Joinable;
    PrefixExists(P, p, z, k);
    if h < k {
      CrossedOn(P, mid, inv, p, z, h, k - 1);
      PrefixNext(P, p, k - 1);
    }
  }

  /** The first position beyond the midpoint, or |p| + 1. */
  lemma {:induction false} FirstCrossed<S(!new)>(P: Problem<S>, mid: real, p: seq<nat>, k: nat) returns (h: nat)
    requires k <= |p| + 1 && forall i: nat :: i < k ==> !Crossed(P, mid, p, i)
    ensures k <= h <= |p| + 1 && (forall i: nat :: i < h ==> !Crossed(P, mid, p, i))
            && (h <= |p| ==> Crossed(P, mid, p, h))
    decreases |p| + 1 - k
  {
    h := k;
    if k <= |p| && !Crossed(P, mid, p, k) { h := FirstCrossed(P, mid, p, k + 1); }
  }

  // ----- The forward half -----

  /** Up to and including the last position not beyond the midpoint, forward labels cover the walk. */
  lemma {:induction false} CoverForward<S(!new)>(F: Setup<S>, s: Store<S>, p: seq<nat>, z: Node<S>, k: nat)
    requires SetupOk(F) && Full(F) && Finished(F, s) && F.dir.Forward? && F.mid.Fin?
    requires FeasibleWalk(F.P, p, z) && k <= |p| && forall i: nat :: i <= k ==> !Crossed(F.P, F.mid.val, p, i)
    ensures Prefix(F.P, p, k).Some? && Covered(F, s, Prefix(F.P, p, k).value)
  {
    hide SetupOk, Full, Covered, Dominates, Step;
    PrefixExists(F.P, p, z, k);
    if k == 0 {
      StartCovered(F, s, p);
    } else {
      CoverForward(F, s, p, z, k - 1);
      var m := CoverNext(F, s, p, z, k - 1);
      var n := Prefix(F.P, p, k).value;
      assert !Crossed(F.P, F.mid.val, p, k);
      NotPast(F, m, n);
    }
  }

  lemma StartCovered<S(!new)>(F: Setup<S>, s: Store<S>, p: seq<nat>)
    requires SetupOk(F) && Finished(F, s) && F.dir.Forward? && Prefix(F.P, p, 0).Some?
    ensures Covered(F, s, Prefix(F.P, p, 0).value)
  {
    hide Covered, AllExpanded, StoreOk, Closed;
    assert p[..0] == [];
  }

  /** A label that dominates one not beyond the midpoint is not filtered. */
  lemma NotPast<S(!new)>(F: Setup<S>, m: Node<S>, n: Node<S>)
    requires SetupOk(F) && F.dir.Forward? && F.mid.Fin? && Dominates(F.P, F.dir, m, n) && n.q.x <= F.mid.val
    ensures Kept(F, m)
  {
  }

  /** The step from a covered prefix; m is what the filter sees. */
  lemma CoverNext<S(!new)>(F: Setup<S>, s: Store<S>, p: seq<nat>, z: Node<S>, k: nat) returns (m: Node<S>)
    requires SetupOk(F) && Full(F) && Finished(F, s) && F.dir.Forward? && F.mid.Fin?
    requires FeasibleWalk(F.P, p, z) && k < |p| && !Crossed(F.P, F.mid.val, p, k)
    requires Prefix(F.P, p, k).Some? && Covered(F, s, Prefix(F.P, p, k).value)
    ensures Prefix(F.P, p, k + 1).Some? && Dominates(F.P, F.dir, m, Prefix(F.P, p, k + 1).value)
    ensures Kept(F, m) ==> Covered(F, s, Prefix(F.P, p, k + 1).value)
  {
    hide SetupOk, Full, Covered, Dominates, Kept, Finished;
    PrefixExists(F.P, p, z, k + 1);
    PrefixNext(F.P, p, k);
    m := CoverStepFull(F, s, Prefix(F.P, p, k).value, p[k]);
  }

  // ----- The backward half -----

  /** The backward label of the last arcs of p, from position j on, is on the sink's side of the midpoint. */
  ghost predicate InReach<S>(P: Problem<S>, mid: real, p: seq<nat>, j: nat)
    requires j <= |p|
  {
    Suffix(P, p[j..]).Some? && Suffix(P, p[j..]).value.q.x >= mid
  }

  /** From the sink back to a position behind which everything is in reach, backward labels cover the walk. */
  lemma {:induction false} CoverBackward<S(!new)>(B: Setup<S>, s: Store<S>, inv: Invariant<S>, p: seq<nat>,
                                                  z: Node<S>, k: nat)
    requires SetupOk(B) && Full(B) && Finished(B, s) && B.dir.Backward? && B.mid.Fin? && B.opposite.None?
    requires Joinable(B.P.pack, B.P.top, inv) && B.P.lb(B.P.top.sink).AtMost(B.P.ub(B.P.top.sink))
    requires FeasibleWalk(B.P, p, z) && 1 <= k <= |p| && forall j: nat :: k < j <= |p| ==> InReach(B.P, B.mid.val, p, j)
    ensures Suffix(B.P, p[k..]).Some? && Covered(B, s, Suffix(B.P, p[k..]).value)
    decreases |p| - k
  {
    hide SetupOk, Full, Covered, Dominates, Step, Joinable;
    SplitHere(B, inv, p, z, k - 1);
    if k == |p| {
      EndCovered(B, s, p);
    } else {
      CoverBackward(B, s, inv, p, z, k + 1);
      assert p[k..] == [p[k]] + p[k + 1..];
      SuffixStep(B.P, p[k], p[k + 1..]);
      assert InReach(B.P, B.mid.val, p, k + 1);
      var w := Suffix(B.P, p[k + 1..]).value;
      assert !PastMid(B, w.q);
      var m := CoverStepFull(B, s, w, p[k]);
      AllKept(B, m);
    }
  }

  lemma SplitHere<S(!new)>(B: Setup<S>, inv: Invariant<S>, p: seq<nat>, z: Node<S>, k: nat)
    requires SetupOk(B) && Joinable(B.P.pack, B.P.top, inv) && B.P.lb(B.P.top.sink).AtMost(B.P.ub(B.P.top.sink))
    requires FeasibleWalk(B.P, p, z) && k < |p|
    ensures Prefix(B.P, p, k).Some? && Suffix(B.P, p[k + 1..]).Some?
    ensures JoinPair(B.P, Prefix(B.P, p, k).value, p[k], Suffix(B.P, p[k + 1..]).value)
    ensures z.cost == Prefix(B.P, p, k).value.cost + B.P.cost(p[k]) + Suffix(B.P, p[k + 1..]).value.cost
  {
    hide TopoOrder, Grouped, Joinable, JoinPair;
    SplitAt(B.P, inv, p, z, k);
  }

  lemma EndCovered<S(!new)>(B: Setup<S>, s: Store<S>, p: seq<nat>)
    requires SetupOk(B) && Finished(B, s) && B.dir.Backward? && Suffix(B.P, p[|p|..]).Some?
    ensures Covered(B, s, Suffix(B.P, p[|p|..]).value)
  {
    hide Covered, AllExpanded, StoreOk, Closed;
    assert Reversed(p[|p|..]) == [];
  }

  lemma AllKept<S(!new)>(B: Setup<S>, m: Node<S>)
    requires SetupOk(B) && B.opposite.None?
    ensures Kept(B, m)
  {
  }

  /** The suffix leaves at least the resources the next prefix needs. */
  lemma AheadOfPrefix<S(!new)>(P: Problem<S>, p: seq<nat>, k: nat)
    requires k < |p| && Prefix(P, p, k).Some? && Prefix(P, p, k + 1).Some? && Suffix(P, p[k + 1..]).Some?
    requires JoinPair(P, Prefix(P, p, k).value, p[k], Suffix(P, p[k + 1..]).value)
    ensures Prefix(P, p, k + 1).value.q.AtMost(Suffix(P, p[k + 1..]).value.q)
  {
    PrefixNext(P, p, k);
  }

  // ----- Both halves meet -----

  /** A stored pair or a stored sink label no dearer than z. */
  ghost predicate Matched<S(!new)>(F: Setup<S>, M: Meeting<S>, z: Node<S>) {
    || (exists k: nat :: SinkCandidate(F, M.fw.store, k) && M.fw.store.pool[k].node.cost <= z.cost)
    || (exists f: nat, a: nat, b: nat :: Emits(M, f, a, b) && ConcatOf(M, f, a, b).reducedCost <= z.cost)
  }

  /** The labels that meet come from two finished runs; of the backward ones only incompatible ones are gone. */
  ghost predicate MetAfter<S(!new)>(F: Setup<S>, B: Setup<S>, M: Meeting<S>, s: Store<S>, arrival: seq<Bound>)
    requires Paired(F, B)
  {
    && Meets(M) && M.P == F.P && M.G == F.G && M.theta == F.theta
    && Finished(F, M.fw.store) && Finished(B, s)
    && |arrival| == F.P.nVertices
    && (forall a: nat ::
      a < F.P.nArcs ==> arrival[F.P.top.to(a)].AtMost(M.fw.vertexMin[F.P.top.from(a)].Add(F.P.cost(a))))
    && M.bw.store.pool == s.pool
    && (forall k: nat :: Alive(s, k) && !Incompatible(B, s, arrival, k) ==> Alive(M.bw.store, k))
  }

  /** Covers of both parts of a walk of cost below theta are emitted together. */
  lemma Meet<S(!new)>(F: Setup<S>, B: Setup<S>, M: Meeting<S>, s: Store<S>, arrival: seq<Bound>, inv: Invariant<S>,
                      u: Node<S>, a: nat, w: Node<S>, z: Node<S>)
    requires Paired(F, B) && MetAfter(F, B, M, s, arrival) && Joinable(F.P.pack, F.P.top, inv)
    requires a < F.P.nArcs && Inner(F.P, a) && JoinPair(F.P, u, a, w)
    requires Covered(F, M.fw.store, u) && Covered(B, s, w)
    requires u.cost + F.P.cost(a) + w.cost == z.cost && z.cost < F.theta
    requires F.P.pack.size == 0 ==> u.cost + F.P.cost(a) < F.theta
    ensures Matched(F, M, z)
  {
    hide TopoOrder, Grouped, Full, Finished, Dominates, SideReady, JoinPair, ValidGrid;
    var f: nat :| Alive(M.fw.store, f) && Dominates(F.P, F.dir, M.fw.store.pool[f].node, u);
    var b: nat :| Alive(s, b) && Dominates(B.P, B.dir, s.pool[b].node, w);
    var u', w' := M.fw.store.pool[f].node, s.pool[b].node;
    DominatesIff(F.P, F.dir, u', u);
    DominatesIff(B.P, B.dir, w', w);
    JoinDominates(F.P, u, u', a, w, w');
    ReachedInTime(F, B, M, s, arrival, f, a, b);
    assert Emits(M, f, a, b);
  }

  /** A backward label that a forward one joins below theta is compatible. */
  lemma ReachedInTime<S(!new)>(F: Setup<S>, B: Setup<S>, M: Meeting<S>, s: Store<S>, arrival: seq<Bound>, f: nat,
                               a: nat, b: nat)
    requires Paired(F, B) && MetAfter(F, B, M, s, arrival)
    requires a < F.P.nArcs && Alive(M.fw.store, f) && Alive(s, b)
    requires JoinPair(F.P, M.fw.store.pool[f].node, a, s.pool[b].node)
    requires M.fw.store.pool[f].node.cost + F.P.cost(a) + s.pool[b].node.cost < F.theta
    ensures Alive(M.bw.store, b)
  {
    hide TopoOrder, Grouped, Full, Finished, RowOk, GridUpTo;
    var fb := M.fw.store.pool[f].bucket;
    assert RowReady(M.P, M.G, M.fw, fb) && Stored(M.G, M.fw, fb, f);
    var j := F.P.top.to(a);
    assert arrival[j].AtMost(M.fw.vertexMin[F.P.top.from(a)].Add(F.P.cost(a)));
    assert !Incompatible(B, s, arrival, b);
  }

  /** The walk ends at or before the midpoint's last step: its sink label is stored. */
  lemma MatchedAtSink<S(!new)>(F: Setup<S>, B: Setup<S>, M: Meeting<S>, s: Store<S>, arrival: seq<Bound>, p: seq<nat>,
                               z: Node<S>)
    requires Paired(F, B) && BothFull(F, B) && MetAfter(F, B, M, s, arrival)
    requires FeasibleWalk(F.P, p, z) && z.cost < F.theta
    requires forall i: nat :: i < |p| ==> !Crossed(F.P, F.mid.val, p, i)
    ensures Matched(F, M, z)
  {
    hide TopoOrder, Grouped, Full, Finished, Meets, Dominates, Covered, Step;
    PrefixExists(F.P, p, z, |p|);
    if |p| == 0 {
      StartCovered(F, M.fw.store, p);
    } else {
      CoverForward(F, M.fw.store, p, z, |p| - 1);
      var m := CoverNext(F, M.fw.store, p, z, |p| - 1);
      KeptAtSink(F, m, z);
    }
    SinkMatch(F, M, z);
  }

  lemma KeptAtSink<S(!new)>(F: Setup<S>, m: Node<S>, z: Node<S>)
    requires SetupOk(F) && Dominates(F.P, F.dir, m, z) && z.vertex == F.P.top.sink
    ensures Kept(F, m)
  {
  }

  lemma SinkMatch<S(!new)>(F: Setup<S>, M: Meeting<S>, z: Node<S>)
    requires SetupOk(F) && Covered(F, M.fw.store, z) && z.vertex == F.P.top.sink && z.cost < F.theta
    ensures Matched(F, M, z)
  {
    hide Dominates, TopoOrder, Grouped;
    var k: nat :| Alive(M.fw.store, k) && Dominates(F.P, F.dir, M.fw.store.pool[k].node, z);
    DominatesIff(F.P, F.dir, M.fw.store.pool[k].node, z);
    assert SinkCandidate(F, M.fw.store, k);
  }

  /** The minima the filter compares with are below the cost of every stored backward label. */
  ghost predicate OppositeBelow<S>(B: Setup<S>, s: Store<S>, least: seq<Bound>) {
    forall k: nat ::
        Alive(s, k) && s.pool[k].node.vertex < |least| ==> least[s.pool[k].node.vertex].AtMost(Fin(s.pool[k].node.cost))
  }

  lemma FilterPasses<S(!new)>(F: Setup<S>, B: Setup<S>, s: Store<S>, m: Node<S>, u: Node<S>, a: nat, w: Node<S>)
    requires Paired(F, B) && F.opposite.Some? && OppositeBelow(B, s, F.opposite.value)
    requires Dominates(F.P, F.dir, m, u) && Covered(B, s, w) && JoinPair(F.P, u, a, w)
             && u.cost + F.P.cost(a) + w.cost < F.theta
    ensures Kept(F, m)
  {
    hide TopoOrder, Grouped, Full, Dominates, ValidGrid;
    var b: nat :| Alive(s, b) && Dominates(B.P, B.dir, s.pool[b].node, w);
    DominatesIff(B.P, B.dir, s.pool[b].node, w);
    DominatesIff(F.P, F.dir, m, u);
    var j := F.P.top.to(a);
    assert F.opposite.value[j].AtMost(Fin(s.pool[b].node.cost));
    assert OppositeThrough(F, m, a);
  }

  /** Both halves of the walk end at arc k: forward labels get to its tail and backward labels to its head. */
  ghost predicate MeetsAt<S>(P: Problem<S>, theta: real, mid: real, p: seq<nat>, k: nat) {
    && k < |p| && p[k] < P.nArcs && Inner(P, p[k])
    && (forall i: nat :: i < k ==> !Crossed(P, mid, p, i))
    && (forall j: nat :: k + 1 < j <= |p| ==> InReach(P, mid, p, j))
    && (P.pack.size == 0 ==> Prefix(P, p, k).Some? && Prefix(P, p, k).value.cost + P.cost(p[k]) < theta)
  }

  /** No label of the walk before its last one is beyond the midpoint. */
  ghost predicate EndsUncrossed<S>(P: Problem<S>, mid: real, p: seq<nat>) {
    forall i: nat :: i < |p| ==> !Crossed(P, mid, p, i)
  }

  /**
   * The walks the bidirectional search sees: those that forward labels follow to the sink, and those with an
   * inner arc where the two halves meet and which, without a pack, passes the test on the forward part alone.
   */
  ghost predicate Visible<S>(P: Problem<S>, theta: real, mid: real, p: seq<nat>) {
    InitialNode(P, Backward).Some? && (EndsUncrossed(P, mid, p) || exists k: nat :: MeetsAt(P, theta, mid, p, k))
  }

  /** A feasible walk never meets on its first arc, which leaves the source. */
  lemma MeetsLater<S(!new)>(P: Problem<S>, theta: real, mid: real, p: seq<nat>, z: Node<S>, k: nat)
    requires FeasibleWalk(P, p, z) && MeetsAt(P, theta, mid, p, k)
    ensures k >= 1
  {
    PrefixExists(P, p, z, 1);
    PrefixExists(P, p, z, 0);
    PrefixNext(P, p, 0);
    assert p[..0] == [];
  }

  /** The halves of a walk that meet on arc k are covered and emitted. */
  lemma MatchedWhereMet<S(!new)>(F: Setup<S>, B: Setup<S>, M: Meeting<S>, s: Store<S>, arrival: seq<Bound>,
                                 inv: Invariant<S>,
                                 p: seq<nat>, z: Node<S>, k: nat)
    requires Paired(F, B) && BothFull(F, B) && MetAfter(F, B, M, s, arrival)
    requires Joinable(F.P.pack, F.P.top, inv) && F.P.lb(F.P.top.sink).AtMost(F.P.ub(F.P.top.sink))
    requires F.opposite.Some? ==> OppositeBelow(B, s, F.opposite.value)
    requires FeasibleWalk(F.P, p, z) && z.cost < F.theta && MeetsAt(F.P, F.theta, F.mid.val, p, k)
    ensures Matched(F, M, z)
  {
    hide TopoOrder, Grouped, Full, Finished, Meets, Dominates, Covered, Step, Joinable, JoinPair, Inner, GridUpTo,
         OppositeBelow;
    MeetsLater(F.P, F.theta, F.mid.val, p, z, k);
    CoverForward(F, M.fw.store, p, z, k - 1);
    var m := CoverNext(F, M.fw.store, p, z, k - 1);
    CoverBackward(B, s, inv, p, z, k + 1);
    SplitHere(F, inv, p, z, k);
    var u, w := Prefix(F.P, p, k).value, Suffix(F.P, p[k + 1..]).value;
    if F.opposite.Some? { FilterPasses(F, B, s, m, u, p[k], w); } else { AllKept(F, m); }
    Meet(F, B, M, s, arrival, inv, u, p[k], w, z);
  }

  /**
   * Bidirectional exactness, one half: a stored pair or sink label matches every visible walk of cost below
   * theta, whichever labels the filter and the pruning have removed.
   */
  lemma BidirectionalMatches<S(!new)>(F: Setup<S>, B: Setup<S>, M: Meeting<S>, s: Store<S>, arrival: seq<Bound>,
                                      inv: Invariant<S>,
                                      p: seq<nat>, z: Node<S>)
    requires Paired(F, B) && BothFull(F, B) && MetAfter(F, B, M, s, arrival)
    requires Joinable(F.P.pack, F.P.top, inv) && F.P.lb(F.P.top.sink).AtMost(F.P.ub(F.P.top.sink))
    requires F.opposite.Some? ==> OppositeBelow(B, s, F.opposite.value)
    requires FeasibleWalk(F.P, p, z) && z.cost < F.theta && F.mid.Fin? && Visible(F.P, F.theta, F.mid.val, p)
    ensures Matched(F, M, z)
  {
    hide Paired, MetAfter, Joinable, OppositeBelow, Matched, FeasibleWalk, MeetsAt;
    if EndsUncrossed(F.P, F.mid.val, p) {
      MatchedAtSink(F, B, M, s, arrival, p, z);
    } else {
      var k: nat :| MeetsAt(F.P, F.theta, F.mid.val, p, k);
      MatchedWhereMet(F, B, M, s, arrival, inv, p, z, k);
    }
  }

  // ----- Which walks are visible -----

  /** A walk of two arcs whose middle label is beyond the midpoint. */
  ghost predicate Overlooked<S>(P: Problem<S>, mid: real, p: seq<nat>) {
    |p| == 2 && Crossed(P, mid, p, 1)
  }

  lemma WalkArcs<S(!new)>(P: Problem<S>, mid: real, inv: Invariant<S>, p: seq<nat>, z: Node<S>, k: nat)
    requires Splittable(P, mid, inv) && FeasibleWalk(P, p, z) && 1 <= k && k + 1 < |p|
    ensures p[k] < P.nArcs && Inner(P, p[k])
  {
    hide Joinable;
    PrefixExists(P, p, z, k);
    PrefixExists(P, p, z, k + 1);
    PrefixExists(P, p, z, k + 2);
    PrefixNext(P, p, k - 1);
    PrefixNext(P, p, k);
    PrefixNext(P, p, k + 1);
  }

  /** Behind a crossing everything is in reach of the backward search. */
  lemma CrossedInReach<S(!new)>(P: Problem<S>, mid: real, inv: Invariant<S>, p: seq<nat>, z: Node<S>, h: nat, j: nat)
    requires Disposable(P.pack, P.top) && Splittable(P, mid, inv) && FeasibleWalk(P, p, z) && 1 <= h <= j <= |p|
             && Crossed(P, mid, p, h)
    ensures InReach(P, mid, p, j)
  {
    hide Joinable, JoinPair, Disposable;
    CrossedOn(P, mid, inv, p, z, h, j);
    SplitAt(P, inv, p, z, j - 1);
    AheadOfPrefix(P, p, j - 1);
  }

  lemma EndReached<S(!new)>(P: Problem<S>, mid: real, inv: Invariant<S>, p: seq<nat>, z: Node<S>)
    requires Disposable(P.pack, P.top) && Splittable(P, mid, inv) && FeasibleWalk(P, p, z)
    ensures |p| > 0 && InitialNode(P, Backward).Some? && !Crossed(P, mid, p, 0)
  {
    hide Joinable, JoinPair, Disposable;
    assert p[..0] == [];
    assert |p| > 0;
    SplitAt(P, inv, p, z, 0);
  }

  /** The halves of a walk that crosses at h meet on the arc before, or on the second one if that is the first. */
  lemma MeetsBeforeCrossing<S(!new)>(P: Problem<S>, theta: real, mid: real, inv: Invariant<S>, p: seq<nat>,
                                     z: Node<S>, h: nat)
    requires Disposable(P.pack, P.top) && Splittable(P, mid, inv) && FeasibleWalk(P, p, z)
    requires 1 <= h < |p| && |p| >= 3 && Crossed(P, mid, p, h) && forall i: nat :: i < h ==> !Crossed(P, mid, p, i)
    requires var k := if h >= 2 then h - 1 else 1;
             P.pack.size == 0 ==> Prefix(P, p, k).Some? && Prefix(P, p, k).value.cost + P.cost(p[k]) < theta
    ensures MeetsAt(P, theta, mid, p, if h >= 2 then h - 1 else 1)
  {
    hide Splittable, Disposable, Inner, FeasibleWalk;
    var k := if h >= 2 then h - 1 else 1;
    WalkArcs(P, mid, inv, p, z, k);
    forall j: nat | k + 1 < j <= |p| ensures InReach(P, mid, p, j) { CrossedInReach(P, mid, inv, p, z, h, j); }
  }

  /**
   * A walk that is not overlooked is visible; without a pack, if its forward part with the joining arc is below
   * theta.
   */
  lemma VisibleIfPaid<S(!new)>(P: Problem<S>, theta: real, mid: real, inv: Invariant<S>, p: seq<nat>, z: Node<S>)
    requires Disposable(P.pack, P.top) && Splittable(P, mid, inv) && FeasibleWalk(P, p, z) && !Overlooked(P, mid, p)
    requires Paid(P, theta, mid, p)
    ensures Visible(P, theta, mid, p)
  {
    hide Splittable, Disposable, FeasibleWalk, Crossed;
    EndReached(P, mid, inv, p, z);
    var h := FirstCrossed(P, mid, p, 1);
    if h < |p| {
      assert FirstBeyond(P, mid, p, h);
      assert |p| >= 3;
      MeetsBeforeCrossing(P, theta, mid, inv, p, z, h);
    }
  }

  ghost predicate FirstBeyond<S>(P: Problem<S>, mid: real, p: seq<nat>, h: nat) {
    h < |p| && Crossed(P, mid, p, h) && forall i: nat :: i < h ==> !Crossed(P, mid, p, i)
  }

  ghost predicate PaidAt<S>(P: Problem<S>, theta: real, p: seq<nat>, k: nat) {
    k < |p| && Prefix(P, p, k).Some? && Prefix(P, p, k).value.cost + P.cost(p[k]) < theta
  }

  /** What the search asks of a walk when there is no pack, at the arc where it crosses the midpoint. */
  ghost predicate Paid<S>(P: Problem<S>, theta: real, mid: real, p: seq<nat>) {
    P.pack.size == 0 ==> forall h: nat :: FirstBeyond(P, mid, p, h) ==> PaidAt(P, theta, p, if h >= 2 then h - 1 else 1)
  }

  /** An overlooked walk has no inner arc. */
  lemma OverlookedInvisible<S(!new)>(P: Problem<S>, theta: real, mid: real, p: seq<nat>, z: Node<S>)
    requires FeasibleWalk(P, p, z) && Overlooked(P, mid, p)
    ensures !Visible(P, theta, mid, p)
  {
    forall k: nat ensures !MeetsAt(P, theta, mid, p, k) {
      if k < 2 {
        PrefixExists(P, p, z, 0);
        PrefixExists(P, p, z, 1);
        PrefixExists(P, p, z, 2);
        PrefixNext(P, p, 0);
        PrefixNext(P, p, 1);
        assert p[..0] == [];
      }
    }
  }

  /** With a pack, the overlooked walks are the only feasible ones that are not visible. */
  lemma VisibleIff<S(!new)>(P: Problem<S>, theta: real, mid: real, inv: Invariant<S>, p: seq<nat>, z: Node<S>)
    requires Disposable(P.pack, P.top) && Splittable(P, mid, inv) && FeasibleWalk(P, p, z) && P.pack.size > 0
    ensures Visible(P, theta, mid, p) <==> !Overlooked(P, mid, p)
  {
    hide Disposable, Splittable, FeasibleWalk, Visible, Overlooked, FirstBeyond;
    if Overlooked(P, mid, p) { OverlookedInvisible(P, theta, mid, p, z); } else { VisibleIfPaid(P, theta, mid, inv, p,
             z); }
  }

  lemma PairedFacts<S(!new)>(F: Setup<S>, B: Setup<S>)
    requires Paired(F, B)
    ensures F.mid.Fin? && SetupOk(F) && SetupOk(B) && F.P == B.P && F.G == B.G && F.dir.Forward? && B.dir.Backward?
  {
  }
}
