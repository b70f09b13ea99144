/** Fixing buckets after a bidirectional solve (the bidirectional branch of fix_buckets). */
module BidirectionalFixing {
  import opened Types
  import opened Resources
  import opened Problems
  import opened Grids
  import opened BucketArcs
  import opened BucketOrder
  import opened LabelStores
  import opened LabelingSpec
  import opened CBests
  import opened Exactness
  import opened Joins
  import opened Concat
  import opened Pruning
  import opened Bidirectional
  import opened BidirectionalSolve
  import opened LabelWalks
  import opened Completion
  import opened Elimination

  // ----- Which buckets are kept -----

  /** A forward and a backward label whose searches have both come as far as bucket b cost at most theta together. */
  ghost predicate BothReach<S>(F: Setup<S>, B: Setup<S>, M: Meeting<S>, theta: real, b: nat)
    requires Ready(F.P, F.G) && Ready(B.P, B.G) && |M.fw.store.rows| == |F.G.buckets|
             && |M.bw.store.rows| == |B.G.buckets|
  {
    exists x: real, y: real :: BothAt(F, B, M, b, x, y) && x + y <= theta
  }

  ghost predicate BothAt<S>(F: Setup<S>, B: Setup<S>, M: Meeting<S>, b: nat, x: real, y: real)
    requires Ready(F.P, F.G) && Ready(B.P, B.G) && |M.fw.store.rows| == |F.G.buckets|
             && |M.bw.store.rows| == |B.G.buckets|
  {
    AttainedUpTo(F, M.fw.store.pool, M.fw.store.rows, b, x) && AttainedUpTo(B, M.bw.store.pool, M.bw.store.rows, b, y)
  }

  lemma SumLowIff<S(!new)>(F: Setup<S>, B: Setup<S>, M: Meeting<S>, theta: real, b: nat, x: Bound, y: Bound)
    requires Ready(F.P, F.G) && Ready(B.P, B.G) && |M.fw.store.rows| == |F.G.buckets|
             && |M.bw.store.rows| == |B.G.buckets|
    requires PrefixMin(F, M.fw.store.pool, M.fw.store.rows, b, x)
             && PrefixMin(B, M.bw.store.pool, M.bw.store.rows, b, y)
    ensures !x.Plus(y).Above(theta) <==> BothReach(F, B, M, theta, b)
  {
    hide GridUpTo, BucketOk, AttainedUpTo, LowerAt;
    if BothReach(F, B, M, theta, b) {
      var u: real, v: real :| BothAt(F, B, M, b, u, v) && u + v <= theta;
      MinBelow(F, M.fw.store, b, x, u);
      MinBelow(B, M.bw.store, b, y, v);
    }
    if !x.Plus(y).Above(theta) { assert BothAt(F, B, M, b, x.val, y.val); }
  }

  lemma BothExact<S(!new)>(F: Setup<S>, B: Setup<S>, M: Meeting<S>, s: Store<S>, arrival: seq<Bound>, ef: seq<Bound>,
                           comp: seq<Bound>, eb: seq<Bound>, bwComp: seq<Bound>)
    requires Paired(F, B) && StoresAfter(F, B, M, s, arrival) && BoundsOfWalks(F, ef, comp)
             && BoundsOfWalks(B, eb, bwComp)
    ensures Ready(F.P, F.G) && Ready(B.P, B.G) && B.P == F.P && B.G == F.G
    ensures ExactBounds(F, M.fw.store, M.fw.cBest, comp) && ExactBounds(B, M.bw.store, M.bw.cBest, bwComp)
  {
    hide TopoOrder, Grouped, Disposable, GridUpTo, StoreOk, VertexMin, PrefixMin, ShortestBehind, BoundsOfWalks, Full,
         Compatible, ArrivalsOf;
    CompletionCount(F, ef, comp);
    CompletionCount(B, eb, bwComp);
    forall b: nat | b < |comp| ensures ShortestBehind(F, b, comp[b]) { IsShortest(F, ef, comp, b); }
    forall b: nat | b < |bwComp| ensures ShortestBehind(B, b, bwComp[b]) { IsShortest(B, eb, bwComp, b); }
  }

  /**
   * Exactly which buckets fixing keeps after a bidirectional solve, finished or not: those through which a stored
   * forward label and a bucket walk to the sink, a backward label that pruning has left and a bucket walk to the
   * source, or two such labels cost at most theta together.
   */
  lemma KeptIff<S(!new)>(F: Setup<S>, B: Setup<S>, M: Meeting<S>, s: Store<S>, arrival: seq<Bound>,
                         ef: seq<Bound>, comp: seq<Bound>, eb: seq<Bound>, bwComp: seq<Bound>, theta: real, b: nat)
    requires Paired(F, B) && StoresAfter(F, B, M, s, arrival) && BoundsOfWalks(F, ef, comp)
             && BoundsOfWalks(B, eb, bwComp)
    requires b < |F.G.buckets|
    ensures Ready(F.P, F.G) && Ready(B.P, B.G) && |M.fw.store.rows| == |F.G.buckets|
            && |M.bw.store.rows| == |B.G.buckets|
    ensures !ToFix(M.fw.cBest, comp, Some(Backwards(M.bw.cBest, bwComp)), theta, b) <==>
              || Spanned(F, M.fw.store, theta, b, 0.0, b)
              || Spanned(B, M.bw.store, theta, b, 0.0, b)
              || BothReach(F, B, M, theta, b)
  {
    hide Paired, StoresAfter, PrefixMin, ShortestBehind, BoundsOfWalks, Spanned, BothReach, HopelessBucket, Ready;
    BothExact(F, B, M, s, arrival, ef, comp, eb, bwComp);
    FixedIff(F, M.fw.store, M.fw.cBest, comp, theta, b);
    FixedIff(B, M.bw.store, M.bw.cBest, bwComp, theta, b);
    SumLowIff(F, B, M, theta, b, M.fw.cBest[b], M.bw.cBest[b]);
    SumTest(M.fw.cBest, M.bw.cBest, theta, b);
  }

  lemma SumTest(x: seq<Bound>, y: seq<Bound>, theta: real, b: nat)
    requires b < |x| && b < |y|
    ensures HopelessBucket(x, y, theta, b) <==> x[b].Plus(y[b]).Above(theta)
  {
  }

  // ----- Before the midpoint -----

  lemma RestOfWalk<S>(P: Problem<S>, p: seq<nat>, z: Node<S>, k: nat)
    requires FeasibleWalk(P, p, z) && k <= |p| && Prefix(P, p, k).Some?
    ensures Run(P, Forward, Prefix(P, p, k).value, p[k..]) == Some(z)
  {
    RunAppend(P, Forward, InitialNode(P, Forward).value, p[..k], p[k..]);
    assert p == p[..k] + p[k..];
  }

  /** A label that dominates n is in the bucket of n or in one before it. */
  lemma CoverAttains<S(!new)>(C: Setup<S>, s: Store<S>, k: nat, n: Node<S>)
    requires SetupOk(C) && StoreOk(C, s) && Alive(s, k) && Dominates(C.P, C.dir, s.pool[k].node, n)
             && n.vertex < C.P.nVertices
    ensures s.pool[k].node.cost <= n.cost && AttainedUpTo(C, s.pool, s.rows, BucketOf(C, n), s.pool[k].node.cost)
    ensures s.pool[k].bucket < |s.rows| && AttainedAt(s.pool, s.rows[s.pool[k].bucket], s.pool[k].node.cost)
    ensures Beyond(C.P, C.G, C.dir, s.pool[k].bucket, BucketOf(C, n))
  {
    hide TopoOrder, Grouped, Disposable, GridUpTo, RowIn, BucketOk, BucketIndex;
    DominatesIff(C.P, C.dir, s.pool[k].node, n);
    assert LabelOk(C, s.pool, k);
    BucketMonotone(C.P, C.G, C.dir, n.vertex, s.pool[k].node.q, n.q);
  }

  lemma StoreSize<S(!new)>(C: Setup<S>, s: Store<S>)
    requires SetupOk(C) && StoreOk(C, s)
    ensures |s.rows| == |C.G.buckets|
  {
  }

  /** A point of a walk within theta that a stored forward label covers is in a bucket that label and the rest span. */
  lemma CoveredSpanned<S(!new)>(F: Setup<S>, s: Store<S>, theta: real, p: seq<nat>, z: Node<S>, k: nat)
    requires SetupOk(F) && Full(F) && StoreOk(F, s) && F.dir.Forward? && FeasibleWalk(F.P, p, z) && z.cost <= theta
             && k <= |p|
    requires Prefix(F.P, p, k).Some? && Covered(F, s, Prefix(F.P, p, k).value)
    ensures Prefix(F.P, p, k).value.vertex < F.P.nVertices && Ready(F.P, F.G) && |s.rows| == |F.G.buckets|
    ensures var b := BucketOf(F, Prefix(F.P, p, k).value); b < |F.G.buckets| && Spanned(F, s, theta, b, 0.0, b)
  {
    hide TopoOrder, Grouped, Disposable, Full, GridUpTo, StoreOk, BucketIndex, Run, Walk, Length, Dominates,
         AttainedUpTo, BucketOk;
    var n := Prefix(F.P, p, k).value;
    RestOfWalk(F.P, p, z, k);
    StoreSize(F, s);
    assert TrueLabel(F, p[..k], n, n);
    TrueAnchored(F, p[..k], n, n);
    BucketIndexFactsOf(F, n);
    BucketHolds(F.P, F.G, F.dir, n.vertex, n.q);
    var b := BucketOf(F, n);
    var w := CornerWalk(F, b, n, p[k..]);
    RunCost(F.P, Forward, n, p[k..]);
    var i: nat :| Alive(s, i) && Dominates(F.P, F.dir, s.pool[i].node, n);
    CoverAttains(F, s, i, n);
    BeyondOrder(F.P, F.G, F.dir, b, b, b);
    assert Span(F, s, theta, b, 0.0, b, s.pool[i].node.cost, b, w);
  }

  /** The bucket of every point of a walk that is not past the midpoint is kept. */
  lemma ForwardKept<S(!new)>(F: Setup<S>, B: Setup<S>, M: Meeting<S>, s: Store<S>, arrival: seq<Bound>,
                             ef: seq<Bound>, comp: seq<Bound>, eb: seq<Bound>, bwComp: seq<Bound>, theta: real,
                             p: seq<nat>, z: Node<S>, k: nat)
    requires Paired(F, B) && BothFull(F, B) && StoresAfter(F, B, M, s, arrival) && BoundsOfWalks(F, ef, comp)
             && BoundsOfWalks(B, eb, bwComp)
    requires Finished(F, M.fw.store) && FeasibleWalk(F.P, p, z) && z.cost <= theta && k <= |p| && F.mid.Fin?
    requires forall i: nat :: i <= k ==> !Crossed(F.P, F.mid.val, p, i)
    ensures Prefix(F.P, p, k).Some? && Prefix(F.P, p, k).value.vertex < F.P.nVertices && Ready(F.P, F.G)
    ensures !ToFix(M.fw.cBest, comp, Some(Backwards(M.bw.cBest, bwComp)), theta, BucketOf(F, Prefix(F.P, p, k).value))
  {
    hide SetupOk, Finished, Full, StoreOk, BoundsOfWalks, Covered, GridUpTo, Crossed, Spanned, BothReach, ToFix,
         BucketIndex, AllBounds, Compatible, ArrivalsOf,
         FeasibleWalk, Prefix;
    CoverForward(F, M.fw.store, p, z, k);
    CoveredSpanned(F, M.fw.store, theta, p, z, k);
    KeptIff(F, B, M, s, arrival, ef, comp, eb, bwComp, theta, BucketOf(F, Prefix(F.P, p, k).value));
  }

  // ----- At the joining arc -----

  /** The forward label behind a crossing arc whose tail is not past the midpoint is stored. */
  lemma CoverHead<S(!new)>(F: Setup<S>, B: Setup<S>, M: Meeting<S>, s: Store<S>, inv: Invariant<S>, p: seq<nat>,
                           z: Node<S>, k: nat)
    requires Paired(F, B) && BothFull(F, B) && Finished(F, M.fw.store) && Finished(B, s)
    requires Joinable(F.P.pack, F.P.top, inv) && F.P.lb(F.P.top.sink).AtMost(F.P.ub(F.P.top.sink))
    requires F.opposite.Some? ==> OppositeBelow(B, s, F.opposite.value)
    requires F.mid.Fin? && CrossesAt(F.P, F.theta, F.mid.val, p, z, k) && !Crossed(F.P, F.mid.val, p, k)
    ensures Prefix(F.P, p, k + 1).Some? && Covered(F, M.fw.store, Prefix(F.P, p, k + 1).value)
  {
    hide TopoOrder, Grouped, Full, Finished, Dominates, Covered, Step, Joinable, GridUpTo, OppositeBelow, Disposable,
         InReach, Crossed, Kept;
    if k + 1 < |p| {
      CoverUpTo(F, B, M, s, inv, p, z, k + 1);
    } else {
      PrefixExists(F.P, p, z, |p|);
      CoverForward(F, M.fw.store, p, z, k);
      var m := CoverNext(F, M.fw.store, p, z, k);
      KeptAtSink(F, m, z);
    }
  }

  /**
   * The head of the arc on which the halves of a walk meet is kept, for both searches: the bucket of its forward label
   * and that of its backward label.
   */
  lemma HeadKept<S(!new)>(F: Setup<S>, B: Setup<S>, M: Meeting<S>, s: Store<S>, arrival: seq<Bound>, inv: Invariant<S>,
                          ef: seq<Bound>, comp: seq<Bound>, eb: seq<Bound>, bwComp: seq<Bound>, theta: real,
                          p: seq<nat>, z: Node<S>, k: nat)
    requires Paired(F, B) && BothFull(F, B) && StoresAfter(F, B, M, s, arrival) && BoundsOfWalks(F, ef, comp)
             && BoundsOfWalks(B, eb, bwComp)
    requires MetAfter(F, B, M, s, arrival)
    requires Joinable(F.P.pack, F.P.top, inv) && F.P.lb(F.P.top.sink).AtMost(F.P.ub(F.P.top.sink))
    requires F.opposite.Some? ==> OppositeBelow(B, s, F.opposite.value)
    requires F.mid.Fin? && CrossesAt(F.P, F.theta, F.mid.val, p, z, k) && !Crossed(F.P, F.mid.val, p, k)
             && z.cost <= theta
    ensures Prefix(F.P, p, k + 1).Some? && Suffix(F.P, p[k + 1..]).Some? && Ready(F.P, F.G)
    ensures Prefix(F.P, p, k + 1).value.vertex < F.P.nVertices && Suffix(F.P, p[k + 1..]).value.vertex < F.P.nVertices
    ensures !ToFix(M.fw.cBest, comp, Some(Backwards(M.bw.cBest, bwComp)), theta,
              BucketOf(F, Prefix(F.P, p, k + 1).value))
    ensures !ToFix(M.fw.cBest, comp, Some(Backwards(M.bw.cBest, bwComp)), theta,
              BucketOf(F, Suffix(F.P, p[k + 1..]).value))
  {
    hide SetupOk, Finished, Full, StoreOk, BoundsOfWalks, Covered, GridUpTo, Crossed, Spanned, BothReach, ToFix,
         BucketIndex, AllBounds, Compatible, ArrivalsOf,
         FeasibleWalk, Prefix, Suffix, InReach, Joinable, OppositeBelow, Meets, Dominates, JoinPair, Alive,
             AttainedUpTo;
    CoverHead(F, B, M, s, inv, p, z, k);
    CoveredSpanned(F, M.fw.store, theta, p, z, k + 1);
    KeptIff(F, B, M, s, arrival, ef, comp, eb, bwComp, theta, BucketOf(F, Prefix(F.P, p, k + 1).value));
    var f, h := CrossingLabels(F, B, M, s, arrival, inv, F.theta, p, z, k);
    SplitHere(F, inv, p, z, k);
    AheadOfPrefix(F.P, p, k);
    PrefixPays(F, p, k);
    var u, w := Prefix(F.P, p, k + 1).value, Suffix(F.P, p[k + 1..]).value;
    JoinEnds(F.P, p, k, w);
    MeetInBucket(F, B, M, theta, u, w, h);
    KeptIff(F, B, M, s, arrival, ef, comp, eb, bwComp, theta, BucketOf(F, w));
  }

  lemma PrefixPays<S(!new)>(F: Setup<S>, p: seq<nat>, k: nat)
    requires SetupOk(F) && k < |p| && Prefix(F.P, p, k).Some? && Prefix(F.P, p, k + 1).Some?
    ensures Prefix(F.P, p, k + 1).value.cost == Prefix(F.P, p, k).value.cost + F.P.cost(p[k])
  {
    hide Layout, Disposable;
    PrefixNext(F.P, p, k);
    ExtendCost(F.P, Forward, Prefix(F.P, p, k).value, p[k], Prefix(F.P, p, k).value.q);
  }

  lemma JoinEnds<S>(P: Problem<S>, p: seq<nat>, k: nat, w: Node<S>)
    requires k < |p| && Prefix(P, p, k).Some? && Prefix(P, p, k + 1).Some?
             && JoinPair(P, Prefix(P, p, k).value, p[k], w)
    ensures Prefix(P, p, k + 1).value.vertex == w.vertex
  {
    PrefixNext(P, p, k);
  }

  /**
   * A covered forward label u and a backward label h that dominates w, which u still leaves enough for, reach the
   * bucket of w.
   */
  lemma MeetInBucket<S(!new)>(F: Setup<S>, B: Setup<S>, M: Meeting<S>, theta: real, u: Node<S>, w: Node<S>, h: nat)
    requires Paired(F, B) && StoreOk(F, M.fw.store) && StoreOk(B, M.bw.store) && Covered(F, M.fw.store, u)
    requires Alive(M.bw.store, h) && Dominates(F.P, Backward, M.bw.store.pool[h].node, w)
    requires u.vertex == w.vertex < F.P.nVertices && u.q.AtMost(w.q) && u.cost + w.cost <= theta
    ensures Ready(F.P, F.G) && |M.fw.store.rows| == |M.bw.store.rows| == |F.G.buckets|
    ensures BucketOf(F, w) < |F.G.buckets| && BothReach(F, B, M, theta, BucketOf(F, w))
  {
    hide TopoOrder, Grouped, Full, Disposable, GridUpTo, StoreOk, BucketIndex, Dominates, AttainedAt, BucketOk;
    StoreSize(F, M.fw.store);
    StoreSize(B, M.bw.store);
    BucketIndexFactsOf(F, w);
    var f: nat :| Alive(M.fw.store, f) && Dominates(F.P, F.dir, M.fw.store.pool[f].node, u);
    CoverAttains(F, M.fw.store, f, u);
    CoverAttains(B, M.bw.store, h, w);
    BucketMonotone(F.P, F.G, Forward, w.vertex, u.q, w.q);
    BeyondOrder(F.P, F.G, Forward, M.fw.store.pool[f].bucket, BucketOf(F, u), BucketOf(F, w));
    assert AttainedUpTo(F, M.fw.store.pool, M.fw.store.rows, BucketOf(F, w), M.fw.store.pool[f].node.cost);
    assert BothAt(F, B, M, BucketOf(F, w), M.fw.store.pool[f].node.cost, M.bw.store.pool[h].node.cost);
  }

  // ----- Behind it -----

  /** No label is stored at vertex u. */
  ghost predicate Unreached<S>(s: Store<S>, u: nat) {
    forall k: nat :: InRow(s, k) ==> s.pool[k].node.vertex != u
  }

  /** Behind a bucket that has an attained cost there is a stored label. */
  lemma AttainedLabel<S(!new)>(C: Setup<S>, s: Store<S>, b: nat, x: real) returns (k: nat)
    requires SetupOk(C) && StoreOk(C, s) && b < |C.G.buckets| && |s.rows| == |C.G.buckets|
             && AttainedUpTo(C, s.pool, s.rows, b, x)
    ensures InRow(s, k) && s.pool[k].node.cost == x && s.pool[k].node.vertex == C.G.buckets[b].vertex
            && Beyond(C.P, C.G, C.dir, s.pool[k].bucket, b)
  {
    hide TopoOrder, Grouped, Disposable, GridUpTo, Origin, RowOk, BucketOk;
    var o: nat :| Beyond(C.P, C.G, C.dir, o, b) && AttainedAt(s.pool, s.rows[o], x);
    k :| k in s.rows[o].ids && k < |s.pool| && s.pool[k].node.cost == x;
    assert RowIn(C, s, o);
    assert LabelOk(C, s.pool, k);
  }

  lemma LabelAttains<S(!new)>(C: Setup<S>, s: Store<S>, b: nat, k: nat)
    requires SetupOk(C) && StoreOk(C, s) && InRow(s, k) && Beyond(C.P, C.G, C.dir, s.pool[k].bucket, b)
    ensures |s.rows| == |C.G.buckets| && AttainedUpTo(C, s.pool, s.rows, b, s.pool[k].node.cost)
  {
    hide TopoOrder, Grouped, Disposable, GridUpTo, LabelOk, RowIn, BucketOk;
    assert AttainedAt(s.pool, s.rows[s.pool[k].bucket], s.pool[k].node.cost);
  }

  /** Forward label f can go over arc a to where backward label k is, below the solve's theta. */
  ghost predicate Rescues<S>(F: Setup<S>, M: Meeting<S>, f: nat, a: nat, k: nat) {
    && InRow(M.fw.store, f) && k < |M.bw.store.pool| && a < F.P.nArcs
    && F.P.top.from(a) == M.fw.store.pool[f].node.vertex && F.P.top.to(a) == M.bw.store.pool[k].node.vertex
    && M.fw.store.pool[f].node.cost + F.P.cost(a) + M.bw.store.pool[k].node.cost < F.theta
  }

  lemma LeastAttained<S(!new)>(C: Setup<S>, s: Store<S>, best: seq<Bound>, least: seq<Bound>, u: nat) returns (f: nat)
    requires SetupOk(C) && StoreOk(C, s) && AllBounds(C, s, best, least) && u < |least| && least[u].Fin?
    ensures InRow(s, f) && s.pool[f].node.vertex == u && s.pool[f].node.cost == least[u].val
  {
    hide TopoOrder, Grouped, Disposable, GridUpTo, StoreOk, Beyond;
    assert VertexMin(C.G, best, u, least[u]);
    var b: nat :| b < |best| && b < |C.G.buckets| && C.G.buckets[b].vertex == u && best[b] == least[u];
    assert PrefixMin(C, s.pool, s.rows, b, best[b]);
    f := AttainedLabel(C, s, b, best[b].val);
  }

  lemma LeastBelow<S(!new)>(C: Setup<S>, s: Store<S>, best: seq<Bound>, least: seq<Bound>, f: nat)
    requires SetupOk(C) && StoreOk(C, s) && AllBounds(C, s, best, least) && InRow(s, f)
    ensures s.pool[f].node.vertex < |least| && least[s.pool[f].node.vertex].AtMost(Fin(s.pool[f].node.cost))
  {
    hide TopoOrder, Grouped, Disposable, GridUpTo, StoreOk, PrefixMin, VertexMin;
    StoredBelow(C, Side(s, best, least), s.pool[f].bucket, f);
  }

  /** Exactly which backward labels pruning leaves: at an inner vertex, those some forward label rescues. */
  lemma SurvivesIff<S(!new)>(F: Setup<S>, B: Setup<S>, M: Meeting<S>, s: Store<S>, arrival: seq<Bound>, k: nat)
    requires Paired(F, B) && StoresAfter(F, B, M, s, arrival) && Alive(s, k)
    ensures InRow(M.bw.store, k) <==>
              || s.pool[k].node.vertex == F.P.top.source || s.pool[k].node.vertex == F.P.top.sink
              || exists f: nat, a: nat :: Rescues(F, M, f, a, k)
  {
    hide TopoOrder, Grouped, GridUpTo, StoreOk, Full, AllBounds, LabelOk, RowIn, Disposable;
    FreeDomination(F);
    LabelVertex(B, s, k);
    var v, x := s.pool[k].node.vertex, s.pool[k].node.cost;
    if f: nat, a: nat :| Rescues(F, M, f, a, k) {
      LeastBelow(F, M.fw.store, M.fw.cBest, M.fw.vertexMin, f);
      assert arrival[v].AtMost(M.fw.vertexMin[F.P.top.from(a)].Add(F.P.cost(a)));
    }
    if InRow(M.bw.store, k) && v != F.P.top.source && v != F.P.top.sink {
      assert ArrivesOver(F.P, M.fw.vertexMin, v, arrival[v]);
      var a: nat :| a < F.P.nArcs && F.P.top.to(a) == v && F.P.top.from(a) < |M.fw.vertexMin|
                    && arrival[v] == M.fw.vertexMin[F.P.top.from(a)].Add(F.P.cost(a));
      var f := LeastAttained(F, M.fw.store, M.fw.cBest, M.fw.vertexMin, F.P.top.from(a));
      assert Rescues(F, M, f, a, k);
    }
  }

  lemma FreeDomination<S(!new)>(F: Setup<S>)
    requires SetupOk(F)
    ensures F.P.pack.minDominationCost == 0.0
  {
    hide Layout;
  }

  lemma LabelVertex<S(!new)>(B: Setup<S>, s: Store<S>, k: nat)
    requires SetupOk(B) && StoreOk(B, s) && k < |s.pool|
    ensures s.pool[k].node.vertex < B.P.nVertices
  {
    hide TopoOrder, Grouped, Disposable, GridUpTo, Origin;
    assert LabelOk(B, s.pool, k);
  }

  /**
   * Some backward label of the run, in bucket b or on the sink's side of it, is rescued by a forward label, and a
   * bucket walk leads on from b or behind it to the source within theta.
   */
  ghost predicate Rescued<S>(F: Setup<S>, B: Setup<S>, M: Meeting<S>, s: Store<S>, theta: real, b: nat)
    requires Ready(B.P, B.G)
  {
    exists k: nat, f: nat, a: nat, c: nat, w :: RescuedBy(F, B, M, s, theta, b, k, f, a, c, w)
  }

  ghost predicate RescuedBy<S>(F: Setup<S>, B: Setup<S>, M: Meeting<S>, s: Store<S>, theta: real, b: nat, k: nat,
                               f: nat, a: nat, c: nat, w: seq<BucketArc>)
    requires Ready(B.P, B.G)
  {
    && Alive(s, k) && Beyond(B.P, B.G, B.dir, s.pool[k].bucket, b) && Rescues(F, M, f, a, k)
    && Beyond(B.P, B.G, B.dir, b, c) && Walk(B, c, w) && s.pool[k].node.cost + Length(B, w) <= theta
  }

  lemma NoneAttained<S(!new)>(C: Setup<S>, s: Store<S>, b: nat, x: real)
    requires SetupOk(C) && StoreOk(C, s) && b < |C.G.buckets| && Unreached(s, C.G.buckets[b].vertex)
    ensures |s.rows| == |C.G.buckets| && !AttainedUpTo(C, s.pool, s.rows, b, x)
  {
    hide SetupOk, StoreOk, AttainedUpTo, Beyond;
    StoreSize(C, s);
    SetupIsReady(C);
    if AttainedUpTo(C, s.pool, s.rows, b, x) { var k := AttainedLabel(C, s, b, x); }
  }

  lemma SetupIsReady<S(!new)>(C: Setup<S>)
    requires SetupOk(C)
    ensures Ready(C.P, C.G)
  {
  }

  lemma AfterFacts<S(!new)>(F: Setup<S>, B: Setup<S>, M: Meeting<S>, s: Store<S>, arrival: seq<Bound>)
    requires Paired(F, B) && StoresAfter(F, B, M, s, arrival)
    ensures SetupOk(F) && SetupOk(B) && StoreOk(F, M.fw.store) && StoreOk(B, M.bw.store) && StoreOk(B, s)
            && M.bw.store.pool == s.pool
    ensures F.P == B.P && F.G == B.G && Ready(F.P, F.G)
    ensures AllBounds(F, M.fw.store, M.fw.cBest, M.fw.vertexMin) && AllBounds(B, M.bw.store, M.bw.cBest, M.bw.vertexMin)
    ensures forall k: nat :: InRow(M.bw.store, k) <==> Compatible(B, s, arrival, k)
  {
    hide TopoOrder, Grouped, Disposable, GridUpTo, StoreOk, AllBounds, Compatible, ArrivalsOf, Full;
  }

  lemma SpannedIsRescued<S(!new)>(F: Setup<S>, B: Setup<S>, M: Meeting<S>, s: Store<S>, arrival: seq<Bound>,
                                  theta: real, b: nat)
    requires Paired(F, B) && StoresAfter(F, B, M, s, arrival) && b < |F.G.buckets|
    requires F.G.buckets[b].vertex != F.P.top.source && F.G.buckets[b].vertex != F.P.top.sink
    ensures |M.bw.store.rows| == |B.G.buckets| && Ready(B.P, B.G)
    ensures Spanned(B, M.bw.store, theta, b, 0.0, b) <==> Rescued(F, B, M, s, theta, b)
  {
    hide Paired, SetupOk, StoreOk, StoresAfter, AttainedUpTo, AllBounds, Walk, Length, Beyond, Incompatible, Rescues,
         InRow, Ready;
    AfterFacts(F, B, M, s, arrival);
    StoreSize(B, M.bw.store);
    if Spanned(B, M.bw.store, theta, b, 0.0, b) {
      var x: real, c: nat, w :| Span(B, M.bw.store, theta, b, 0.0, b, x, c, w);
      var k := AttainedLabel(B, M.bw.store, b, x);
      assert Alive(s, k);
      SurvivesIff(F, B, M, s, arrival, k);
      var f: nat, a: nat :| Rescues(F, M, f, a, k);
      assert RescuedBy(F, B, M, s, theta, b, k, f, a, c, w);
    }
    if Rescued(F, B, M, s, theta, b) {
      var k: nat, f: nat, a: nat, c: nat, w :| RescuedBy(F, B, M, s, theta, b, k, f, a, c, w);
      SurvivesIff(F, B, M, s, arrival, k);
      LabelAttains(B, M.bw.store, b, k);
      assert Span(B, M.bw.store, theta, b, 0.0, b, s.pool[k].node.cost, c, w);
    }
  }

  /**
   * Which buckets a walk may still pass behind its joining arc: at an inner vertex without forward labels a bucket
   * is kept exactly if a backward label of the run is rescued and can go on to the source within theta.
   */
  lemma BehindIff<S(!new)>(F: Setup<S>, B: Setup<S>, M: Meeting<S>, s: Store<S>, arrival: seq<Bound>,
                           ef: seq<Bound>, comp: seq<Bound>, eb: seq<Bound>, bwComp: seq<Bound>, theta: real, v: nat,
                           b: nat)
    requires Paired(F, B) && StoresAfter(F, B, M, s, arrival) && BoundsOfWalks(F, ef, comp)
             && BoundsOfWalks(B, eb, bwComp)
    requires b < |F.G.buckets| && F.G.buckets[b].vertex == v && v != F.P.top.source && v != F.P.top.sink
             && Unreached(M.fw.store, v)
    ensures Ready(B.P, B.G)
    ensures !ToFix(M.fw.cBest, comp, Some(Backwards(M.bw.cBest, bwComp)), theta, b) <==> Rescued(F, B, M, s, theta, b)
  {
    hide Paired, SetupOk, StoreOk, StoresAfter, AttainedUpTo, AllBounds, Walk, Length, Beyond, BoundsOfWalks, ToFix,
         Rescued, Unreached, Ready;
    AfterFacts(F, B, M, s, arrival);
    KeptIff(F, B, M, s, arrival, ef, comp, eb, bwComp, theta, b);
    SpannedIsRescued(F, B, M, s, arrival, theta, b);
    forall x: real
      ensures !AttainedUpTo(F, M.fw.store.pool, M.fw.store.rows, b, x)
    {
      NoneAttained(F, M.fw.store, b, x);
    }
  }

  /** A backward label left at an inner vertex comes behind an arc whose tail a forward label has reached. */
  lemma RescuedFrom<S(!new)>(F: Setup<S>, B: Setup<S>, M: Meeting<S>, s: Store<S>, arrival: seq<Bound>, k: nat)
    returns (a: nat)
    requires Paired(F, B) && StoresAfter(F, B, M, s, arrival) && InRow(M.bw.store, k)
    requires M.bw.store.pool[k].node.vertex != F.P.top.source && M.bw.store.pool[k].node.vertex != F.P.top.sink
    ensures a < F.P.nArcs && F.P.top.to(a) == M.bw.store.pool[k].node.vertex && !Unreached(M.fw.store, F.P.top.from(a))
  {
    hide Paired, SetupOk, StoreOk, StoresAfter, Incompatible, InRow, AllBounds, Ready;
    AfterFacts(F, B, M, s, arrival);
    assert Compatible(B, s, arrival, k);
    SurvivesIff(F, B, M, s, arrival, k);
    var f: nat;
    f, a :| Rescues(F, M, f, a, k);
  }

  /**
   * A vertex that forward labels have not reached, nor any tail of an arc into it, loses all its buckets, for every
   * theta and whatever the completion bounds: pruning leaves no backward label there, so all three sums are infinite.
   */
  lemma FarIsFixed<S(!new)>(F: Setup<S>, B: Setup<S>, M: Meeting<S>, s: Store<S>, arrival: seq<Bound>,
                            comp: seq<Bound>, bwComp: seq<Bound>,
                            theta: real, v: nat, b: nat)
    requires Paired(F, B) && StoresAfter(F, B, M, s, arrival) && |comp| == |bwComp| == |F.G.buckets|
    requires b < |F.G.buckets| && F.G.buckets[b].vertex == v && v != F.P.top.source && v != F.P.top.sink
             && Unreached(M.fw.store, v)
    requires forall a: nat :: a < F.P.nArcs && F.P.top.to(a) == v ==> Unreached(M.fw.store, F.P.top.from(a))
    ensures ToFix(M.fw.cBest, comp, Some(Backwards(M.bw.cBest, bwComp)), theta, b)
  {
    hide Paired, SetupOk, StoreOk, StoresAfter, AttainedUpTo, Beyond, Incompatible, VertexMin, Alive, InRow, Ready;
    AfterFacts(F, B, M, s, arrival);
    assert PrefixMin(F, M.fw.store.pool, M.fw.store.rows, b, M.fw.cBest[b]);
    assert PrefixMin(B, M.bw.store.pool, M.bw.store.rows, b, M.bw.cBest[b]);
    if M.fw.cBest[b].Fin? { NoneAttained(F, M.fw.store, b, M.fw.cBest[b].val); }
    if M.bw.cBest[b].Fin? {
      var k := AttainedLabel(B, M.bw.store, b, M.bw.cBest[b].val);
      var a := RescuedFrom(F, B, M, s, arrival, k);
    }
  }
}
