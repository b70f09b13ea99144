/** Why a finished labeling run holds an optimal path: labels are sound, and every useful path is covered. */
module Exactness {
  import opened Types
  import opened Resources
  import opened Problems
  import opened Grids
  import opened BucketArcs
  import opened BucketOrder
  import opened LabelStores
  import opened LabelingSpec

  // ----- Labels stand for feasible partial paths -----

  /** n is n0 with some resources possibly spent without need, as a jump arc does. */
  predicate Delayed<S(==)>(dir: Direction, n0: Node<S>, n: Node<S>) {
    && n0.vertex == n.vertex && n0.cost == n.cost && n0.realCost == n.realCost && n0.states == n.states
    && Ahead(dir, n0.q, n.q)
  }

  lemma DelayStep<S>(P: Problem<S>, dir: Direction, n0: Node<S>, n: Node<S>, a: nat, base: Vec)
    requires Delayed(dir, n0, n) && Ahead(dir, n.q, base) && Extend(P, dir, n, a, base).Some?
    ensures Extend(P, dir, n0, a, n0.q).Some?
    ensures Delayed(dir, Extend(P, dir, n0, a, n0.q).value, Extend(P, dir, n, a, base).value)
  {
    ArrivalMonotone(P, dir, n0.q, base, a);
  }

  /** Undelayed, the same arcs are feasible at the same cost. */
  lemma {:induction false} DelayRun<S>(P: Problem<S>, dir: Direction, n0: Node<S>, n: Node<S>, arcs: seq<nat>)
    requires Delayed(dir, n0, n) && Run(P, dir, n, arcs).Some?
    ensures Run(P, dir, n0, arcs).Some?
    ensures Delayed(dir, Run(P, dir, n0, arcs).value, Run(P, dir, n, arcs).value)
    decreases |arcs|
  {
    if arcs != [] {
      DelayStep(P, dir, n0, n, arcs[0], n.q);
      DelayRun(P, dir, Step(P, dir, n0, arcs[0]).value, Step(P, dir, n, arcs[0]).value, arcs[1..]);
    }
  }

  /** The arcs along the parent chain of a label, oldest first. */
  function Trace<S>(pool: seq<Label<S>>, i: nat): seq<nat>
    decreases i
  {
    if i >= |pool| || pool[i].parent < 0 || pool[i].parent >= i then [] else Trace(pool, pool[i].parent) + [pool[i].arc]
  }

  /** Following arcs from the initial label gives n0, of which n is a delayed copy. */
  ghost predicate TrueLabel<S>(C: Setup<S>, arcs: seq<nat>, n0: Node<S>, n: Node<S>) {
    && InitialNode(C.P, C.dir).Some?
    && Run(C.P, C.dir, InitialNode(C.P, C.dir).value, arcs) == Some(n0)
    && Delayed(C.dir, n0, n)
  }

  lemma TrueStep<S>(C: Setup<S>, arcs: seq<nat>, n0: Node<S>, n: Node<S>, a: nat, base: Vec)
    requires TrueLabel(C, arcs, n0, n) && a < C.P.nArcs && C.P.top.Tail(C.dir, a) == n.vertex
    requires Ahead(C.dir, n.q, base) && Extend(C.P, C.dir, n, a, base).Some?
    ensures Extend(C.P, C.dir, n0, a, n0.q).Some?
    ensures TrueLabel(C, arcs + [a], Extend(C.P, C.dir, n0, a, n0.q).value, Extend(C.P, C.dir, n, a, base).value)
  {
    DelayStep(C.P, C.dir, n0, n, a, base);
    RunAppend(C.P, C.dir, InitialNode(C.P, C.dir).value, arcs, [a]);
    assert Run(C.P, C.dir, n0, [a]) == Some(Step(C.P, C.dir, n0, a).value) by { assert [a][1..] == []; }
  }

  ghost predicate PoolOk<S>(C: Setup<S>, pool: seq<Label<S>>)
    requires Layout(C)
  {
    forall i: nat :: i < |pool| ==> LabelOk(C, pool, i)
  }

  /** Every label in the pool is the outcome of its parent chain, exactly so when there are no jump arcs. */
  lemma {:induction false} SoundIn<S>(C: Setup<S>, pool: seq<Label<S>>, i: nat) returns (n0: Node<S>)
    requires Layout(C) && PoolOk(C, pool) && i < |pool|
    ensures TrueLabel(C, Trace(pool, i), n0, pool[i].node)
    ensures NoJumps(C) ==> n0 == pool[i].node
    decreases i
  {
    hide TopoOrder, Grouped, Extend;
    assert LabelOk(C, pool, i);
    var L := pool[i];
    if L.parent < 0 {
      n0 := L.node;
    } else {
      var m := SoundIn(C, pool, L.parent);
      var base :| ExtendsFrom(C, pool[L.parent].bucket, pool[L.parent].node, L.arc, base, L.node);
      TrueStep(C, Trace(pool, L.parent), m, pool[L.parent].node, L.arc, base);
      n0 := Extend(C.P, C.dir, m, L.arc, m.q).value;
    }
  }

  lemma Sound<S(!new)>(C: Setup<S>, s: Store<S>, i: nat) returns (n0: Node<S>)
    requires SetupOk(C) && StoreOk(C, s) && i < |s.pool|
    ensures TrueLabel(C, Trace(s.pool, i), n0, s.pool[i].node)
    ensures NoJumps(C) ==> n0 == s.pool[i].node
  {
    hide LabelOk, Layout, TrueLabel;
    n0 := SoundIn(C, s.pool, i);
  }

  lemma TrueAnchored<S>(C: Setup<S>, arcs: seq<nat>, n0: Node<S>, n: Node<S>)
    requires Ready(C.P, C.G) && TrueLabel(C, arcs, n0, n)
    ensures n.vertex < C.P.nVertices && Anchored(C.P, C.dir, n.vertex, n.q)
  {
    var r := InitialNode(C.P, C.dir).value;
    RunAnchored(C.P, C.dir, r, arcs);
  }

  lemma {:induction false} RunAnchored<S>(P: Problem<S>, dir: Direction, n: Node<S>, arcs: seq<nat>)
    requires WellFormed(P) && n.vertex < P.nVertices && Anchored(P, dir, n.vertex, n.q) && Run(P, dir, n, arcs).Some?
    ensures Run(P, dir, n, arcs).value.vertex < P.nVertices
    ensures Anchored(P, dir, Run(P, dir, n, arcs).value.vertex, Run(P, dir, n, arcs).value.q)
    decreases |arcs|
  {
    if arcs != [] {
      var m := Step(P, dir, n, arcs[0]).value;
      assert m.vertex == P.top.Head(dir, arcs[0]);
      RunAnchored(P, dir, m, arcs[1..]);
    }
  }

  // ----- Paths that matter -----

  /** From n the arcs t lead to the end vertex at a cost of at most theta. */
  ghost predicate Finishes<S>(C: Setup<S>, theta: real, n: Node<S>, t: seq<nat>) {
    var z := Run(C.P, C.dir, n, t);
    z.Some? && z.value.vertex == C.P.top.End(C.dir) && z.value.cost <= theta
  }

  /** Jump arcs stand in for arcs the bucket lacks. */
  ghost predicate JumpsLack<S>(C: Setup<S>) {
    forall b: nat, j: JumpArc :: b < |C.jumps| && j in C.jumps[b] ==> Lacks(C, b, j.arc)
  }

  ghost predicate Lacks<S>(C: Setup<S>, b: nat, a: nat) {
    b < |C.arcs| && !HasArc(C, b, a)
  }

  /** What buckets behind b can still do, so can b. */
  ghost predicate NestedAt<S>(C: Setup<S>, b: nat)
    requires Ready(C.P, C.G)
  {
    forall c: nat, a: nat ::
        c < |C.arcs| && Beyond(C.P, C.G, C.dir, b, c) && HasArc(C, c, a) ==> b < |C.arcs| && HasArc(C, b, a)
  }

  /** No bucket lacks an arc that a bucket behind it has. */
  ghost predicate ArcsNested<S>(C: Setup<S>)
    requires Ready(C.P, C.G)
  {
    forall b: nat :: b < |C.G.buckets| ==> NestedAt(C, b)
  }

  ghost predicate KeepsNext<S(!new)>(C: Setup<S>, n: Node<S>, t: seq<nat>)
    requires SetupOk(C)
  {
    && n.vertex < C.P.nVertices && BucketOf(C, n) < |C.arcs| && BucketOf(C, n) !in C.fixed
    && (t != [] ==> HasArc(C, BucketOf(C, n), t[0]))
  }

  /** No bucket and no bucket arc that a path of cost at most theta may need is missing. */
  ghost predicate Preserves<S(!new)>(C: Setup<S>, theta: real)
    requires SetupOk(C)
  {
    forall p, n0, n, t :: TrueLabel(C, p, n0, n) && Finishes(C, theta, n, t) ==> KeepsNext(C, n, t)
  }

  /** Nothing is fixed and no arc is eliminated. */
  ghost predicate Full<S(!new)>(C: Setup<S>)
    requires SetupOk(C)
  {
    C.fixed == {} && forall b: nat :: b < |C.G.buckets| ==> C.arcs[b] == FullArcs(C.P, C.G, C.dir, b)
  }

  lemma FullHasArc<S(!new)>(C: Setup<S>, n: Node<S>, a: nat)
    requires SetupOk(C) && Full(C) && n.vertex < C.P.nVertices && Anchored(C.P, C.dir, n.vertex, n.q)
    requires a < C.P.nArcs && C.P.top.Tail(C.dir, a) == n.vertex && Extend(C.P, C.dir, n, a, n.q).Some?
    ensures BucketOf(C, n) < |C.arcs| && HasArc(C, BucketOf(C, n), a)
  {
    hide TopoOrder, Grouped, Disposable, Extend;
    BucketHolds(C.P, C.G, C.dir, n.vertex, n.q);
    BucketIndexFacts(C.P, C.G, n.vertex, n.q);
    LandsBeyond(C.P, C.G, C.dir, BucketOf(C, n), n, a, n.q);
    FullArcsMembers(C.P, C.G, C.dir, BucketOf(C, n));
  }

  lemma FullPreserves<S(!new)>(C: Setup<S>, theta: real)
    requires SetupOk(C) && Full(C)
    ensures Preserves(C, theta)
  {
    hide TopoOrder, Grouped, Disposable, Extend;
    forall p, n0, n, t | TrueLabel(C, p, n0, n) && Finishes(C, theta, n, t) ensures KeepsNext(C, n, t) {
      TrueAnchored(C, p, n0, n);
      BucketIndexFacts(C.P, C.G, n.vertex, n.q);
      if t != [] { FullHasArc(C, n, t[0]); }
    }
  }

  /** The bucket graph as built is nested. */
  lemma FullNested<S(!new)>(C: Setup<S>)
    requires SetupOk(C) && Full(C)
    ensures ArcsNested(C)
  {
    hide TopoOrder, Grouped, Disposable, Open, GridUpTo, BucketOk;
    forall b: nat | b < |C.G.buckets| ensures NestedAt(C, b) {
      forall c: nat, a: nat | c < |C.arcs| && Beyond(C.P, C.G, C.dir, b, c) && HasArc(C, c, a) ensures HasArc(C, b, a) {
        FullArcsMembers(C.P, C.G, C.dir, c);
        FullArcsMembers(C.P, C.G, C.dir, b);
        TargetMonotone(C.P, C.G, C.dir, b, c, a);
      }
    }
  }

  // ----- A finished run covers them -----

  /** What an uncapped run ends with: each open bucket is closed, each extended label fully extended. */
  ghost predicate Finished<S(!new)>(C: Setup<S>, s: Store<S>)
    requires SetupOk(C)
  {
    && StoreOk(C, s) && AllExpanded(C, s)
    && (forall b: nat :: b < |s.rows| && b !in C.fixed ==> Closed(C, s, b))
    && (InitialNode(C.P, C.dir).Some? ==> Covered(C, s, InitialNode(C.P, C.dir).value))
  }

  /** A label past the midpoint dominates only labels past it. */
  lemma PastMidMonotone<S(!new)>(C: Setup<S>, m: Node<S>, n: Node<S>)
    requires Dominates(C.P, C.dir, m, n) && PastMid(C, m.q)
    ensures PastMid(C, n.q)
  {
  }

  /** Label k, which dominates n, has been extended along a, and the child is covered unless it was filtered out. */
  lemma CoverChild<S(!new)>(C: Setup<S>, s: Store<S>, k: nat, n: Node<S>, a: nat)
    requires SetupOk(C) && Finished(C, s) && Alive(s, k) && Dominates(C.P, C.dir, s.pool[k].node, n)
    requires !PastMid(C, n.q) && Step(C.P, C.dir, n, a).Some?
    requires s.pool[k].bucket < |C.arcs| && s.pool[k].bucket !in C.fixed && HasArc(C, s.pool[k].bucket, a)
    ensures a < C.P.nArcs && C.P.top.Tail(C.dir, a) == s.pool[k].node.vertex
    ensures Extend(C.P, C.dir, s.pool[k].node, a, s.pool[k].node.q).Some?
    ensures Dominates(C.P, C.dir, Extend(C.P, C.dir, s.pool[k].node, a, s.pool[k].node.q).value,
              Step(C.P, C.dir, n, a).value)
    ensures ChildDone(C, s, s.pool[k].node, a, s.pool[k].node.q)
  {
    hide TopoOrder, Grouped, Extend, Covered, ChildDone;
    var L := s.pool[k];
    assert Closed(C, s, L.bucket) && Handled(C, s, k);
    if PastMid(C, L.node.q) { PastMidMonotone(C, L.node, n); }
    assert s.extended[k];
    assert Expanded(C, s, k);
    var e :| e in C.arcs[L.bucket] && e.arc == a;
    DominatesExtend(C.P, C.dir, L.node, L.node.q, n, n.q, a);
  }

  lemma FinishesDominated<S(!new)>(C: Setup<S>, theta: real, m: Node<S>, n: Node<S>, t: seq<nat>)
    requires Disposable(C.P.pack, C.P.top) && Dominates(C.P, C.dir, m, n) && Finishes(C, theta, n, t)
    ensures Finishes(C, theta, m, t)
  {
    DominatesRun(C.P, C.dir, m, n, t);
    DominatesIff(C.P, C.dir, Run(C.P, C.dir, m, t).value, Run(C.P, C.dir, n, t).value);
  }

  lemma CoverFrom<S(!new)>(C: Setup<S>, s: Store<S>, m: Node<S>, n: Node<S>)
    requires SetupOk(C) && Covered(C, s, m) && Dominates(C.P, C.dir, m, n)
    ensures Covered(C, s, n)
  {
    hide Dominates;
    var k: nat :| Alive(s, k) && Dominates(C.P, C.dir, s.pool[k].node, m);
    DominatesOrder(C.P, C.dir, s.pool[k].node, m, n);
  }

  /**
   * One step of a useful path: what follows a covered label that is not past the midpoint is covered,
   * or dominated by a label the filter on labels past the midpoint has rejected.
   */
  lemma CoverStep<S(!new)>(C: Setup<S>, theta: real, s: Store<S>, n: Node<S>, t: seq<nat>) returns (m: Node<S>)
    requires SetupOk(C) && Finished(C, s) && Preserves(C, theta)
    requires Covered(C, s, n) && !PastMid(C, n.q) && t != [] && Finishes(C, theta, n, t)
    ensures Step(C.P, C.dir, n, t[0]).Some? && Dominates(C.P, C.dir, m, Step(C.P, C.dir, n, t[0]).value)
    ensures Kept(C, m) ==> Covered(C, s, Step(C.P, C.dir, n, t[0]).value)
  {
    hide TopoOrder, Grouped, Extend, Dominates, Kept, Disposable;
    var k: nat :| Alive(s, k) && Dominates(C.P, C.dir, s.pool[k].node, n);
    var L, a := s.pool[k].node, t[0];
    assert LabelOk(C, s.pool, k);
    var n0 := Sound(C, s, k);
    FinishesDominated(C, theta, L, n, t);
    assert KeepsNext(C, L, t);
    CoverChild(C, s, k, n, a);
    m := Extend(C.P, C.dir, L, a, L.q).value;
    TrueStep(C, Trace(s.pool, k), n0, L, a, L.q);
    assert TrueLabel(C, Trace(s.pool, k) + [a], Extend(C.P, C.dir, n0, a, n0.q).value, m);
    assert Step(C.P, C.dir, L, a) == Some(m);
    assert Finishes(C, theta, m, t[1..]);
    assert KeepsNext(C, m, t[1..]);
    if Kept(C, m) { CoverFrom(C, s, m, Step(C.P, C.dir, n, a).value); }
  }

  /** The same step when nothing has been eliminated, whether or not the path can be finished. */
  lemma CoverStepFull<S(!new)>(C: Setup<S>, s: Store<S>, n: Node<S>, a: nat) returns (m: Node<S>)
    requires SetupOk(C) && Finished(C, s) && Full(C)
    requires Covered(C, s, n) && !PastMid(C, n.q) && Step(C.P, C.dir, n, a).Some?
    ensures Dominates(C.P, C.dir, m, Step(C.P, C.dir, n, a).value)
    ensures Kept(C, m) ==> Covered(C, s, Step(C.P, C.dir, n, a).value)
  {
    hide TopoOrder, Grouped, Extend, Kept, Disposable, RowIn, Closed, AllExpanded;
    var k: nat :| Alive(s, k) && Dominates(C.P, C.dir, s.pool[k].node, n);
    var L := s.pool[k].node;
    assert LabelOk(C, s.pool, k);
    DominatesExtend(C.P, C.dir, L, L.q, n, n.q, a);
    FullHasArc(C, L, a);
    CoverChild(C, s, k, n, a);
    m := Extend(C.P, C.dir, L, a, L.q).value;
    if Kept(C, m) { CoverFrom(C, s, m, Step(C.P, C.dir, n, a).value); }
  }

  /** Labels are extended whatever their resources, and none is filtered out. */
  ghost predicate Unlimited<S>(C: Setup<S>) {
    C.opposite.None? && C.dir.Forward? && C.mid.Inf?
  }

  /** A useful path that starts at a covered label ends at a covered label. */
  lemma {:induction false} CoverRest<S(!new)>(C: Setup<S>, theta: real, s: Store<S>, n: Node<S>, t: seq<nat>)
    requires SetupOk(C) && Finished(C, s) && Preserves(C, theta) && Unlimited(C)
    requires Covered(C, s, n) && Finishes(C, theta, n, t)
    ensures Covered(C, s, Run(C.P, C.dir, n, t).value)
    decreases |t|
  {
    hide TopoOrder, Grouped, Extend, Dominates, Disposable, Finished, Preserves, Covered;
    if t != [] {
      var m := CoverStep(C, theta, s, n, t);
      CoverRest(C, theta, s, Step(C.P, C.dir, n, t[0]).value, t[1..]);
    }
  }

  /** A feasible walk from the source to the sink. */
  ghost predicate FeasibleWalk<S>(P: Problem<S>, arcs: seq<nat>, z: Node<S>) {
    && InitialNode(P, Forward).Some? && Run(P, Forward, InitialNode(P, Forward).value, arcs) == Some(z)
    && z.vertex == P.top.sink
  }

  /** Mono exactness: each feasible walk of cost at most theta is dominated by a stored undominated sink label. */
  lemma MonoCovers<S(!new)>(C: Setup<S>, theta: real, s: Store<S>, arcs: seq<nat>, z: Node<S>)
    requires SetupOk(C) && Finished(C, s) && Preserves(C, theta) && Unlimited(C)
    requires FeasibleWalk(C.P, arcs, z) && z.cost <= theta
    ensures Covered(C, s, z)
  {
    CoverRest(C, theta, s, InitialNode(C.P, Forward).value, arcs);
  }
}
