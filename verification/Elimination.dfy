/** Bound-based arc elimination and bucket fixing (eliminate_arcs, fix_buckets) and why they are safe. */
module Elimination {
  import opened Types
  import opened Resources
  import opened Problems
  import opened Grids
  import opened BucketArcs
  import opened BucketOrder
  import opened LabelingSpec
  import opened CBests
  import opened Exactness
  import opened Completion

  // ----- Completion bounds are admissible -----

  /** Whatever a label can do, the corner of its bucket, or of a bucket before it, can do on the bucket graph. */
  lemma {:induction false} CornerWalk<S(!new)>(C: Setup<S>, b: nat, n: Node<S>, t: seq<nat>) returns (w: seq<BucketArc>)
    requires SetupOk(C) && Full(C) && b < |C.G.buckets| && C.G.buckets[b].vertex == n.vertex
    requires Ahead(C.dir, Corner(C.dir, C.G.buckets[b]), n.q)
    requires Run(C.P, C.dir, n, t).Some? && Run(C.P, C.dir, n, t).value.vertex == C.P.top.End(C.dir)
    ensures Walk(C, b, w) && |w| == |t| && Length(C, w) == WalkCost(C.P, t)
    ensures t != [] ==> w[0].arc == t[0] && Walk(C, w[0].toBucket, w[1..]) && Length(C, w[1..]) == WalkCost(C.P, t[1..])
    decreases |t|
  {
    hide TopoOrder, Grouped, Disposable, Extend, GridUpTo, Walk, Length;
    if t == [] {
      w := [];
      EmptyWalk(C, b);
    } else {
      var a := t[0];
      var m := Step(C.P, C.dir, n, a).value;
      LandsBeyond(C.P, C.G, C.dir, b, n, a, n.q);
      FullArcsMembers(C.P, C.G, C.dir, b);
      var e :| e in FullArcs(C.P, C.G, C.dir, b) && e.arc == a;
      CornerOf(C, e.toBucket, m);
      var rest := CornerWalk(C, e.toBucket, m, t[1..]);
      w := [e] + rest;
      LongerWalk(C, b, e, rest);
    }
  }

  /**
   * On a bucket graph that has been reduced already, the bound still sees every walk that matters, as long as no
   * bucket lacks an arc that a bucket behind it has. The relaxation does not look at jump arcs.
   */
  lemma {:induction false} KeptWalk<S(!new)>(C: Setup<S>, theta: real, b: nat, p: seq<nat>, n0: Node<S>, n: Node<S>,
                                             t: seq<nat>) returns (w: seq<BucketArc>)
    requires SetupOk(C) && ArcsNested(C) && Preserves(C, theta)
    requires TrueLabel(C, p, n0, n) && Finishes(C, theta, n, t)
    requires n.vertex < C.P.nVertices && Anchored(C.P, C.dir, n.vertex, n.q)
             && Beyond(C.P, C.G, C.dir, b, BucketOf(C, n))
    ensures Walk(C, b, w) && |w| == |t| && Length(C, w) == WalkCost(C.P, t)
    ensures t != [] ==> w[0].arc == t[0] && Walk(C, w[0].toBucket, w[1..]) && Length(C, w[1..]) == WalkCost(C.P, t[1..])
    decreases |t|
  {
    hide TopoOrder, Grouped, Disposable, Extend, GridUpTo, Walk, Length, Preserves, ArcsNested, BucketOk;
    BucketIndexFactsOf(C, n);
    if t == [] {
      w := [];
      EmptyWalk(C, b);
    } else {
      var e := KeptArc(C, theta, b, p, n0, n, t);
      var a, m := t[0], Step(C.P, C.dir, n, t[0]).value;
      CornerOf(C, b, n);
      LandsBeyond(C.P, C.G, C.dir, b, n, a, n.q);
      TrueStep(C, p, n0, n, a, n.q);
      var rest := KeptWalk(C, theta, e.toBucket, p + [a], Extend(C.P, C.dir, n0, a, n0.q).value, m, t[1..]);
      w := [e] + rest;
      LongerWalk(C, b, e, rest);
    }
  }

  /** The next arc of a walk that matters is there in its bucket and in every bucket before it. */
  lemma KeptArc<S(!new)>(C: Setup<S>, theta: real, b: nat, p: seq<nat>, n0: Node<S>, n: Node<S>, t: seq<nat>)
    returns (e: BucketArc)
    requires SetupOk(C) && ArcsNested(C) && Preserves(C, theta)
    requires TrueLabel(C, p, n0, n) && Finishes(C, theta, n, t) && t != []
    requires n.vertex < C.P.nVertices && Beyond(C.P, C.G, C.dir, b, BucketOf(C, n))
    ensures b < |C.arcs| && e in C.arcs[b] && e.arc == t[0] < C.P.nArcs && C.P.top.Head(C.dir, t[0]) < C.P.nVertices
    ensures C.P.top.Tail(C.dir, t[0]) == n.vertex && e.toBucket == Target(C.P, C.G, C.dir, b, t[0])
  {
    hide TopoOrder, Grouped, Disposable, Extend, GridUpTo, BucketOk, FullArcs;
    assert KeepsNext(C, n, t);
    assert NestedAt(C, b);
    assert HasArc(C, b, t[0]);
    e :| e in C.arcs[b] && e.arc == t[0];
    assert ArcOk(C, b, e);
    FullArcsMembers(C.P, C.G, C.dir, b);
  }

  lemma EmptyWalk<S>(C: Setup<S>, b: nat)
    requires b < |C.G.buckets| && b < |C.arcs| && C.G.buckets[b].vertex == C.P.top.End(C.dir)
    ensures Walk(C, b, []) && Length(C, []) == 0.0
  {
  }

  lemma LongerWalk<S>(C: Setup<S>, b: nat, e: BucketArc, rest: seq<BucketArc>)
    requires b < |C.arcs| && e in C.arcs[b] && Walk(C, e.toBucket, rest)
    ensures var w := [e] + rest;
            w[0] == e && w[1..] == rest && Walk(C, b, w) && Length(C, w) == C.P.cost(e.arc) + Length(C, rest)
  {
    var w := [e] + rest;
    assert w[0] == e && w[1..] == rest;
  }

  /** The corner of a bucket is ahead of no label in a bucket beyond it. */
  lemma CornerOf<S>(C: Setup<S>, b: nat, m: Node<S>)
    requires Ready(C.P, C.G) && m.vertex < C.P.nVertices && Anchored(C.P, C.dir, m.vertex, m.q)
    requires C.G.width(m.vertex).x > 0.0 && C.G.width(m.vertex).y > 0.0
    requires Beyond(C.P, C.G, C.dir, b, BucketIndex(C.P, C.G, m.vertex, m.q))
    ensures C.G.buckets[b].vertex == m.vertex && Ahead(C.dir, Corner(C.dir, C.G.buckets[b]), m.q)
  {
    hide BucketOk, RangeOk;
    BucketHolds(C.P, C.G, C.dir, m.vertex, m.q);
    BucketIndexFactsOf(C, m);
    CornerMonotone(C.P, C.G, C.dir, b, BucketIndex(C.P, C.G, m.vertex, m.q));
  }

  lemma BucketIndexFactsOf<S>(C: Setup<S>, m: Node<S>)
    requires Ready(C.P, C.G) && m.vertex < C.P.nVertices
    ensures C.G.width(m.vertex).x > 0.0 && C.G.width(m.vertex).y > 0.0
    ensures BucketIndex(C.P, C.G, m.vertex, m.q) < |C.G.buckets|
            && C.G.buckets[BucketIndex(C.P, C.G, m.vertex, m.q)].vertex == m.vertex
  {
    BucketIndexFacts(C.P, C.G, m.vertex, m.q);
  }

  lemma BelowExact<S>(C: Setup<S>, exact: seq<Bound>, comp: seq<Bound>, b: nat)
    requires BoundsOfWalks(C, exact, comp) && b < |comp|
    ensures comp[b].AtMost(exact[b]) && Below(C, b, exact[b])
  {
    hide Below, Attained;
    BeyondOrder(C.P, C.G, C.dir, b, b, b);
  }

  /** Admissible: the bound of a bucket is at most the cost of every feasible continuation of every label in it. */
  lemma CompletionAdmissible<S(!new)>(C: Setup<S>, exact: seq<Bound>, comp: seq<Bound>, b: nat, n: Node<S>, t: seq<nat>)
    requires SetupOk(C) && Full(C) && BoundsOfWalks(C, exact, comp)
    requires b < |C.G.buckets| && C.G.buckets[b].vertex == n.vertex && Ahead(C.dir, Corner(C.dir, C.G.buckets[b]), n.q)
    requires Run(C.P, C.dir, n, t).Some? && Run(C.P, C.dir, n, t).value.vertex == C.P.top.End(C.dir)
    ensures b < |comp| && comp[b].AtMost(Fin(WalkCost(C.P, t)))
  {
    hide TopoOrder, Grouped, Disposable, Extend, GridUpTo, Walk, Length, Run;
    var w := CornerWalk(C, b, n, t);
    BelowExact(C, exact, comp, b);
  }

  /** Taking the same arcs from an earlier bucket is possible and costs the same. */
  lemma {:induction false} EarlierWalk<S(!new)>(C: Setup<S>, b: nat, c: nat, w: seq<BucketArc>)
    returns (v: seq<BucketArc>)
    requires SetupOk(C) && Full(C) && Beyond(C.P, C.G, C.dir, b, c) && Walk(C, c, w)
    ensures Walk(C, b, v) && Length(C, v) == Length(C, w)
    decreases |w|
  {
    hide TopoOrder, Grouped, Disposable, GridUpTo, BucketOk;
    if w == [] {
      v := [];
    } else {
      var a := w[0].arc;
      FullArcsMembers(C.P, C.G, C.dir, c);
      FullArcsMembers(C.P, C.G, C.dir, b);
      TargetMonotone(C.P, C.G, C.dir, b, c, a);
      var e :| e in FullArcs(C.P, C.G, C.dir, b) && e.arc == a;
      var rest := EarlierWalk(C, e.toBucket, w[0].toBucket, w[1..]);
      v := [e] + rest;
      LongerWalk(C, b, e, rest);
    }
  }

  /** While nothing is eliminated the sweep has nothing to do: the bounds are the exact walk lengths. */
  lemma CompletionExact<S(!new)>(C: Setup<S>, exact: seq<Bound>, comp: seq<Bound>, b: nat)
    requires SetupOk(C) && Full(C) && BoundsOfWalks(C, exact, comp) && b < |comp|
    ensures comp[b] == exact[b]
  {
    hide TopoOrder, Grouped, Disposable, GridUpTo, Walk, Length, BucketOk;
    BelowExact(C, exact, comp, b);
    if comp[b].Fin? {
      assert SuffixMin(C, exact, b, comp[b]);
      var c: nat :| Beyond(C.P, C.G, C.dir, b, c) && exact[c] == comp[b];
      assert Attained(C, c, exact[c]);
      var w :| Walk(C, c, w) && Length(C, w) == exact[c].val;
      var v := EarlierWalk(C, b, c, w);
    }
  }

  // ----- Elimination -----

  /** No walk through bucket b and arc e can stay within theta. */
  predicate Hopeless<S>(C: Setup<S>, cBest: seq<Bound>, comp: seq<Bound>, theta: real, b: nat, e: BucketArc) {
    b < |cBest| && e.toBucket < |comp| && cBest[b].Plus(comp[e.toBucket]).Add(C.P.cost(e.arc)).Above(theta)
  }

  predicate HopelessBucket(cBest: seq<Bound>, comp: seq<Bound>, theta: real, b: nat) {
    b < |cBest| && b < |comp| && cBest[b].Plus(comp[b]).Above(theta)
  }

  ghost predicate Eliminated<S>(C: Setup<S>, cBest: seq<Bound>, comp: seq<Bound>, theta: real,
                                arcs: seq<seq<BucketArc>>) {
    && |arcs| == |C.arcs|
    && (forall b: nat, e: BucketArc ::
      b < |arcs| ==> (e in arcs[b] <==> e in C.arcs[b] && !Hopeless(C, cBest, comp, theta, b, e)))
  }

  /** The erase_if of eliminate_arcs, one bucket. */
  method EraseHopeless<S>(C: Setup<S>, cBest: seq<Bound>, comp: seq<Bound>, theta: real, b: nat)
    returns (list: seq<BucketArc>)
    requires b < |C.arcs|
    ensures forall e :: e in list <==> e in C.arcs[b] && !Hopeless(C, cBest, comp, theta, b, e)
    ensures ArcOrder(C.arcs[b]) ==> ArcOrder(list)
  {
    hide Hopeless;
    list := [];
    for i := 0 to |C.arcs[b]|
      invariant forall e :: e in list <==> e in C.arcs[b][..i] && !Hopeless(C, cBest, comp, theta, b, e)
      invariant ArcOrder(C.arcs[b]) ==>
                  ArcOrder(list) && forall j: nat :: j < |list| ==> exists h: nat :: h < i && C.arcs[b][h] == list[j]
    {
      var e := C.arcs[b][i];
      assert C.arcs[b][..i + 1] == C.arcs[b][..i] + [e];
      if !Hopeless(C, cBest, comp, theta, b, e) { list := list + [e]; }
    }
    assert C.arcs[b][..|C.arcs[b]|] == C.arcs[b];
  }

  /** eliminate_arcs, before the jump arcs are made. */
  method EliminateArcs<S>(C: Setup<S>, cBest: seq<Bound>, comp: seq<Bound>, theta: real)
    returns (arcs: seq<seq<BucketArc>>)
    ensures Eliminated(C, cBest, comp, theta, arcs)
    ensures forall b: nat :: b < |arcs| && ArcOrder(C.arcs[b]) ==> ArcOrder(arcs[b])
  {
    hide Hopeless, ArcOrder;
    arcs := [];
    for b := 0 to |C.arcs|
      invariant |arcs| == b
      invariant forall c: nat :: c < b && ArcOrder(C.arcs[c]) ==> ArcOrder(arcs[c])
      invariant forall c: nat, e: BucketArc ::
                c < b ==> (e in arcs[c] <==> e in C.arcs[c] && !Hopeless(C, cBest, comp, theta, c, e))
    {
      var list := EraseHopeless(C, cBest, comp, theta, b);
      arcs := arcs + [list];
    }
  }

  /** The bounds of the backward direction. */
  datatype Backwards = Backwards(cBest: seq<Bound>, comp: seq<Bound>)

  /**
   * The test of fix_buckets; in a bidirectional solve the backward sum and the sum of both labels have to exceed
   * theta too.
   */
  predicate ToFix(cBest: seq<Bound>, comp: seq<Bound>, other: Option<Backwards>, theta: real, b: nat) {
    && HopelessBucket(cBest, comp, theta, b)
    && (other.Some? ==>
      HopelessBucket(other.value.cBest, other.value.comp, theta, b)
      && HopelessBucket(cBest, other.value.cBest, theta, b))
  }

  /** fix_buckets. */
  method FixBuckets(cBest: seq<Bound>, comp: seq<Bound>, other: Option<Backwards>, theta: real, before: set<nat>)
    returns (fixed: set<nat>, count: nat)
    requires |comp| == |cBest| && (other.Some? ==> |other.value.cBest| == |other.value.comp| == |cBest|)
    ensures forall b: nat :: b in fixed <==> b in before || ToFix(cBest, comp, other, theta, b)
    ensures |fixed| == |before| + count
  {
    fixed, count := before, 0;
    for b := 0 to |cBest|
      invariant forall c: nat :: c in fixed <==> c in before || (c < b && ToFix(cBest, comp, other, theta, c))
      invariant |fixed| == |before| + count
    {
      if b in fixed { continue; }
      var shouldFix := cBest[b].Plus(comp[b]).Above(theta);
      if other.Some? {
        var bwBad := other.value.cBest[b].Plus(other.value.comp[b]).Above(theta);
        var concatBad := cBest[b].Plus(other.value.cBest[b]).Above(theta);
        shouldFix := shouldFix && bwBad && concatBad;
      }
      if shouldFix { fixed, count := fixed + {b}, count + 1; }
    }
  }

  // ----- Safety -----

  /** D is C after elimination and fixing; its jump arcs may be any. */
  ghost predicate Reduced<S(!new)>(C: Setup<S>, cBest: seq<Bound>, comp: seq<Bound>, theta: real, D: Setup<S>) {
    && D.P == C.P && D.G == C.G && D.dir == C.dir
    && (D.arcs == C.arcs || Eliminated(C, cBest, comp, theta, D.arcs))
    && (forall b: nat :: b in D.fixed ==> b in C.fixed || HopelessBucket(cBest, comp, theta, b))
  }

  /** The beginning of a useful path that starts at a covered label is covered. */
  lemma {:induction false} CoverPrefix<S(!new)>(C: Setup<S>, theta: real, s: Store<S>, n: Node<S>, p: seq<nat>,
                                                t: seq<nat>)
    requires SetupOk(C) && Finished(C, s) && Preserves(C, theta) && Unlimited(C)
    requires Covered(C, s, n) && Run(C.P, C.dir, n, p).Some? && Finishes(C, theta, Run(C.P, C.dir, n, p).value, t)
    ensures Covered(C, s, Run(C.P, C.dir, n, p).value)
    decreases |p|
  {
    hide TopoOrder, Grouped, Extend, Dominates, Disposable, Finished, Preserves, Covered;
    if p != [] {
      RunAppend(C.P, C.dir, n, p, t);
      assert (p + t)[0] == p[0];
      var m := CoverStep(C, theta, s, n, p + t);
      CoverPrefix(C, theta, s, Step(C.P, C.dir, n, p[0]).value, p[1..], t);
    }
  }

  /** A stored label that dominates n keeps the prefix minimum of n's bucket at or below the cost of n. */
  lemma CoveredBound<S(!new)>(C: Setup<S>, s: Store<S>, n0: Node<S>, n: Node<S>, x: Bound)
    requires SetupOk(C) && StoreOk(C, s) && Covered(C, s, n0) && Delayed(C.dir, n0, n) && n.vertex < C.P.nVertices
    requires PrefixMin(C, s.pool, s.rows, BucketOf(C, n), x)
    ensures x.AtMost(Fin(n.cost))
  {
    hide TopoOrder, Grouped, Disposable, GridUpTo, RowIn, BucketOk;
    var k: nat :| Alive(s, k) && Dominates(C.P, C.dir, s.pool[k].node, n0);
    var m := s.pool[k].node;
    DominatesIff(C.P, C.dir, m, n0);
    assert LabelOk(C, s.pool, k);
    BucketMonotone(C.P, C.G, C.dir, n.vertex, m.q, n.q);
    assert LowerAt(s.pool, s.rows[s.pool[k].bucket], x);
  }

  /** c_best is at most the cost of any useful way to reach a resource vector in the bucket. */
  lemma ReachedBound<S(!new)>(C: Setup<S>, theta: real, s: Store<S>, cBest: seq<Bound>, vertexMin: seq<Bound>,
                              p: seq<nat>, n0: Node<S>, n: Node<S>, t: seq<nat>)
    requires SetupOk(C) && Preserves(C, theta) && Unlimited(C) && Finished(C, s)
             && BoundsOk(C, s.pool, s.rows, cBest, vertexMin, 0)
    requires TrueLabel(C, p, n0, n) && Finishes(C, theta, n, t) && n.vertex < C.P.nVertices
    ensures BucketOf(C, n) < |cBest| && cBest[BucketOf(C, n)].AtMost(Fin(n.cost))
  {
    hide Grouped, Disposable, Extend, GridUpTo, Run, RowIn, AllExpanded, Closed, VertexMin, Preserves;
    DelayRun(C.P, C.dir, n0, n, t);
    CoverPrefix(C, theta, s, InitialNode(C.P, C.dir).value, p, t);
    BucketIndexFactsOf(C, n);
    var b := BucketOf(C, n);
    assert C.id[b] >= 0;
    assert PrefixMin(C, s.pool, s.rows, b, cBest[b]);
    CoveredBound(C, s, n0, n, cBest[b]);
  }

  /**
   * The bound of the bucket of a useful label, and that of the target of its next arc, are at most what it still has
   * to pay.
   */
  lemma KeptBounds<S(!new)>(C: Setup<S>, theta: real, exact: seq<Bound>, comp: seq<Bound>, p: seq<nat>, n0: Node<S>,
                            n: Node<S>, t: seq<nat>)
    returns (e: BucketArc)
    requires SetupOk(C) && ArcsNested(C) && Preserves(C, theta) && BoundsOfWalks(C, exact, comp)
    requires TrueLabel(C, p, n0, n) && Finishes(C, theta, n, t) && n.vertex < C.P.nVertices
    ensures BucketOf(C, n) < |comp| == |C.arcs| && comp[BucketOf(C, n)].AtMost(Fin(WalkCost(C.P, t)))
    ensures t != [] ==> e in C.arcs[BucketOf(C, n)] && e.arc == t[0]
                        && e.toBucket < |comp| && comp[e.toBucket].AtMost(Fin(WalkCost(C.P, t[1..])))
  {
    hide TopoOrder, Grouped, Disposable, Extend, GridUpTo, Length, Run, Preserves, ArcsNested, BucketOk, TrueLabel,
         Finishes;
    TrueAnchored(C, p, n0, n);
    BucketIndexFactsOf(C, n);
    var b := BucketOf(C, n);
    BeyondOrder(C.P, C.G, C.dir, b, b, b);
    var w := KeptWalk(C, theta, b, p, n0, n, t);
    BelowExact(C, exact, comp, b);
    e := BucketArc(0, 0);
    if t != [] {
      e := w[0];
      BelowExact(C, exact, comp, e.toBucket);
    }
  }

  /**
   * Elimination and fixing are safe: after a finished run on a nested bucket graph that keeps what walks of cost at
   * most theta need, with the exact prefix minima and the completion bounds of that graph, nothing such a walk
   * needs is removed. The bucket graph as built is one; so is one reduced before that shows no jump arc.
   */
  lemma EliminationSafe<S(!new)>(C: Setup<S>, s: Store<S>, cBest: seq<Bound>, vertexMin: seq<Bound>,
                                 exact: seq<Bound>, comp: seq<Bound>,
                                 theta: real, D: Setup<S>)
    requires SetupOk(C) && ArcsNested(C) && Preserves(C, theta) && Unlimited(C) && Finished(C, s)
    requires BoundsOk(C, s.pool, s.rows, cBest, vertexMin, 0) && BoundsOfWalks(C, exact, comp)
    requires SetupOk(D) && Reduced(C, cBest, comp, theta, D)
    ensures Preserves(D, theta)
  {
    hide TopoOrder, Grouped, Disposable, Extend, GridUpTo, Run, Finished, BoundsOk, BoundsOfWalks;
    forall p, n0, n, t | TrueLabel(D, p, n0, n) && Finishes(D, theta, n, t) ensures KeepsNext(D, n, t) {
      UsefulKept(C, s, cBest, vertexMin, exact, comp, theta, D, p, n0, n, t);
    }
  }

  lemma UsefulKept<S(!new)>(C: Setup<S>, s: Store<S>, cBest: seq<Bound>, vertexMin: seq<Bound>, exact: seq<Bound>,
                            comp: seq<Bound>,
                            theta: real, D: Setup<S>, p: seq<nat>, n0: Node<S>, n: Node<S>, t: seq<nat>)
    requires SetupOk(C) && ArcsNested(C) && Preserves(C, theta) && Unlimited(C) && Finished(C, s)
    requires BoundsOk(C, s.pool, s.rows, cBest, vertexMin, 0) && BoundsOfWalks(C, exact, comp)
    requires SetupOk(D) && Reduced(C, cBest, comp, theta, D)
    requires TrueLabel(D, p, n0, n) && Finishes(D, theta, n, t)
    ensures KeepsNext(D, n, t)
  {
    hide TopoOrder, Grouped, Disposable, Extend, GridUpTo, Run, Finished, BoundsOk, BoundsOfWalks, ArcsNested;
    assert TrueLabel(C, p, n0, n) && Finishes(C, theta, n, t);
    assert KeepsNext(C, n, t);
    var b := BucketOf(C, n);
    ReachedBound(C, theta, s, cBest, vertexMin, p, n0, n, t);
    var e := KeptBounds(C, theta, exact, comp, p, n0, n, t);
    RunCost(C.P, C.dir, n, t);
    assert !HopelessBucket(cBest, comp, theta, b);
    if t != [] {
      assert WalkCost(C.P, t) == C.P.cost(t[0]) + WalkCost(C.P, t[1..]);
      assert !Hopeless(C, cBest, comp, theta, b, e);
      assert e in D.arcs[b];
    }
  }

  // ----- Exactly what is removed -----

  /**
   * A label stored in a bucket no later than b, an arc of cost `extra`, and a walk over bucket arcs from a bucket no
   * earlier than `target` to the end vertex cost at most theta together.
   */
  ghost predicate Spanned<S>(C: Setup<S>, s: Store<S>, theta: real, b: nat, extra: real, target: nat)
    requires Ready(C.P, C.G) && |s.rows| == |C.G.buckets|
  {
    exists x: real, c: nat, w :: Span(C, s, theta, b, extra, target, x, c, w)
  }

  ghost predicate Span<S>(C: Setup<S>, s: Store<S>, theta: real, b: nat, extra: real, target: nat, x: real, c: nat,
                          w: seq<BucketArc>)
    requires Ready(C.P, C.G) && |s.rows| == |C.G.buckets|
  {
    AttainedUpTo(C, s.pool, s.rows, b, x) && Beyond(C.P, C.G, C.dir, target, c) && Walk(C, c, w)
        && x + extra + Length(C, w) <= theta
  }

  lemma MinBelow<S>(C: Setup<S>, s: Store<S>, b: nat, x: Bound, y: real)
    requires Ready(C.P, C.G) && |s.rows| == |C.G.buckets| && PrefixMin(C, s.pool, s.rows, b, x)
             && AttainedUpTo(C, s.pool, s.rows, b, y)
    ensures x.AtMost(Fin(y))
  {
    hide GridUpTo, BucketOk;
    var o: nat :| Beyond(C.P, C.G, C.dir, o, b) && AttainedAt(s.pool, s.rows[o], y);
    assert LowerAt(s.pool, s.rows[o], x);
  }

  lemma SpannedIfLow<S(!new)>(C: Setup<S>, s: Store<S>, theta: real, b: nat, extra: real, target: nat, x: Bound,
                              y: Bound)
    requires Ready(C.P, C.G) && |s.rows| == |C.G.buckets| && PrefixMin(C, s.pool, s.rows, b, x)
             && ShortestBehind(C, target, y)
    requires !x.Plus(y).Add(extra).Above(theta)
    ensures Spanned(C, s, theta, b, extra, target)
  {
    hide GridUpTo, BucketOk, AttainedUpTo, LowerAt, Walk, Length;
    var c: nat, w :| Beyond(C.P, C.G, C.dir, target, c) && Walk(C, c, w) && Length(C, w) == y.val;
    assert Span(C, s, theta, b, extra, target, x.val, c, w);
  }

  lemma LowIfSpanned<S(!new)>(C: Setup<S>, s: Store<S>, theta: real, b: nat, extra: real, target: nat, x: Bound,
                              y: Bound)
    requires Ready(C.P, C.G) && |s.rows| == |C.G.buckets| && PrefixMin(C, s.pool, s.rows, b, x)
             && ShortestBehind(C, target, y)
    requires Spanned(C, s, theta, b, extra, target)
    ensures !x.Plus(y).Add(extra).Above(theta)
  {
    hide GridUpTo, BucketOk, Walk, Length, PrefixMin, AttainedUpTo;
    var z: real, c: nat, w :| Span(C, s, theta, b, extra, target, z, c, w);
    MinBelow(C, s, b, x, z);
  }

  /** The bounds of a run and of the bucket graph as it is now, jump arcs or not. */
  ghost predicate ExactBounds<S(!new)>(C: Setup<S>, s: Store<S>, cBest: seq<Bound>, comp: seq<Bound>)
    requires Ready(C.P, C.G)
  {
    && |s.rows| == |cBest| == |comp| == |C.G.buckets|
    && (forall b: nat :: b < |cBest| ==> PrefixMin(C, s.pool, s.rows, b, cBest[b]))
    && (forall b: nat :: b < |comp| ==> ShortestBehind(C, b, comp[b]))
  }

  /** A run with its bounds, finished or cut short, and the completion bounds of its bucket graph are exact. */
  lemma RunBounds<S(!new)>(C: Setup<S>, s: Store<S>, cBest: seq<Bound>, vertexMin: seq<Bound>, exact: seq<Bound>,
                           comp: seq<Bound>)
    requires SetupOk(C) && StoreOk(C, s) && BoundsOk(C, s.pool, s.rows, cBest, vertexMin, 0)
             && BoundsOfWalks(C, exact, comp)
    ensures ExactBounds(C, s, cBest, comp)
  {
    hide Grouped, Disposable, VertexMin, PrefixMin, GridUpTo, BoundsOfWalks, ShortestBehind, RowIn, LabelOk;
    forall b: nat | b < |cBest| ensures PrefixMin(C, s.pool, s.rows, b, cBest[b]) { assert C.id[b] >= 0; }
    CompletionCount(C, exact, comp);
    forall b: nat | b < |comp| ensures ShortestBehind(C, b, comp[b]) { IsShortest(C, exact, comp, b); }
  }

  lemma CompletionCount<S>(C: Setup<S>, exact: seq<Bound>, comp: seq<Bound>)
    requires Ready(C.P, C.G) && BoundsOfWalks(C, exact, comp)
    ensures |comp| == |C.G.buckets|
  {
    hide GridUpTo;
  }

  /** A bucket arc escapes erasure exactly if some stored label and some bucket walk span it within theta. */
  lemma ErasedIff<S(!new)>(C: Setup<S>, s: Store<S>, cBest: seq<Bound>, comp: seq<Bound>, theta: real, b: nat,
                           e: BucketArc)
    requires Ready(C.P, C.G) && ExactBounds(C, s, cBest, comp) && b < |cBest| && e.toBucket < |comp|
    ensures !Hopeless(C, cBest, comp, theta, b, e) <==> Spanned(C, s, theta, b, C.P.cost(e.arc), e.toBucket)
  {
    hide GridUpTo, PrefixMin, ShortestBehind, Spanned;
    if Spanned(C, s, theta, b, C.P.cost(e.arc), e.toBucket) {
      LowIfSpanned(C, s, theta, b, C.P.cost(e.arc), e.toBucket, cBest[b], comp[e.toBucket]);
    }
    if !Hopeless(C, cBest, comp, theta, b, e) {
      SpannedIfLow(C, s, theta, b, C.P.cost(e.arc), e.toBucket, cBest[b], comp[e.toBucket]);
    }
  }

  /** A bucket is not fixed exactly if some stored label and some bucket walk span it within theta. */
  lemma FixedIff<S(!new)>(C: Setup<S>, s: Store<S>, cBest: seq<Bound>, comp: seq<Bound>, theta: real, b: nat)
    requires Ready(C.P, C.G) && ExactBounds(C, s, cBest, comp) && b < |cBest|
    ensures !HopelessBucket(cBest, comp, theta, b) <==> Spanned(C, s, theta, b, 0.0, b)
  {
    hide GridUpTo, PrefixMin, ShortestBehind, Spanned;
    if Spanned(C, s, theta, b, 0.0, b) { LowIfSpanned(C, s, theta, b, 0.0, b, cBest[b], comp[b]); }
    if !HopelessBucket(cBest, comp, theta, b) { SpannedIfLow(C, s, theta, b, 0.0, b, cBest[b], comp[b]); }
  }

  /** D is C after exactly one call of fix_buckets, eliminate_arcs or both; its jump arcs may be any. */
  ghost predicate OneRound<S>(C: Setup<S>, cBest: seq<Bound>, comp: seq<Bound>, theta: real, fix: bool, erase: bool,
                              D: Setup<S>) {
    && D.P == C.P && D.G == C.G && D.dir == C.dir
    && (if erase then Eliminated(C, cBest, comp, theta, D.arcs) else D.arcs == C.arcs)
    && (forall b: nat :: b in D.fixed <==> b in C.fixed || (fix && HopelessBucket(cBest, comp, theta, b)))
  }

  /**
   * What the calls made have to leave for the next arc of t at n: the bucket of n and the arc are spanned within
   * theta.
   */
  ghost predicate StepSpanned<S>(C: Setup<S>, s: Store<S>, theta: real, fix: bool, erase: bool, n: Node<S>, t: seq<nat>)
    requires Ready(C.P, C.G) && |s.rows| == |C.arcs| == |C.G.buckets| && n.vertex < C.P.nVertices
             && BucketOf(C, n) < |C.arcs|
  {
    var b := BucketOf(C, n);
    && (fix ==> Spanned(C, s, theta, b, 0.0, b))
    && (erase && t != [] ==> ArcSpanned(C, s, theta, b, t[0]))
  }

  ghost predicate ArcSpanned<S>(C: Setup<S>, s: Store<S>, theta: real, b: nat, a: nat)
    requires Ready(C.P, C.G) && |s.rows| == |C.arcs| == |C.G.buckets| && b < |C.arcs|
  {
    exists e :: e in C.arcs[b] && e.arc == a && Spanned(C, s, theta, b, C.P.cost(a), e.toBucket)
  }

  /** Every step of every walk within theta is spanned. */
  ghost predicate AllSpanned<S(!new)>(C: Setup<S>, s: Store<S>, theta: real, fix: bool, erase: bool)
    requires SetupOk(C) && |s.rows| == |C.G.buckets|
  {
    forall p, n0, n, t ::
        TrueLabel(C, p, n0, n) && Finishes(C, theta, n, t) && KeepsNext(C, n, t) ==>
          StepSpanned(C, s, theta, fix, erase, n, t)
  }

  lemma ArcLeftIff<S(!new)>(C: Setup<S>, s: Store<S>, cBest: seq<Bound>, comp: seq<Bound>, theta: real, D: Setup<S>,
                            b: nat, a: nat)
    requires SetupOk(C) && ExactBounds(C, s, cBest, comp) && Eliminated(C, cBest, comp, theta, D.arcs) && b < |C.arcs|
    ensures HasArc(D, b, a) <==> ArcSpanned(C, s, theta, b, a)
  {
    hide TopoOrder, Grouped, Disposable, GridUpTo, PrefixMin, ShortestBehind, Spanned, FullArcs, Hopeless;
    forall e | e in C.arcs[b] && e.arc == a
      ensures e in D.arcs[b] <==> Spanned(C, s, theta, b, C.P.cost(a), e.toBucket)
    {
      TargetInside(C, b, e);
      ErasedIff(C, s, cBest, comp, theta, b, e);
    }
  }

  lemma TargetInside<S(!new)>(C: Setup<S>, b: nat, e: BucketArc)
    requires SetupOk(C) && b < |C.arcs| && e in C.arcs[b]
    ensures e.toBucket < |C.G.buckets|
  {
    hide Grouped, Disposable, GridUpTo;
    assert ArcOk(C, b, e);
  }

  lemma ArcWasThere<S>(C: Setup<S>, cBest: seq<Bound>, comp: seq<Bound>, theta: real, D: Setup<S>, b: nat, a: nat)
    requires Eliminated(C, cBest, comp, theta, D.arcs) && b < |C.arcs| && HasArc(D, b, a)
    ensures HasArc(C, b, a)
  {
    hide Hopeless;
  }

  /** One step of one walk. */
  lemma StepKeptIff<S(!new)>(C: Setup<S>, s: Store<S>, cBest: seq<Bound>, comp: seq<Bound>, theta: real, fix: bool,
                             erase: bool, D: Setup<S>,
                             n: Node<S>, t: seq<nat>)
    requires SetupOk(C) && ExactBounds(C, s, cBest, comp) && SetupOk(D)
             && OneRound(C, cBest, comp, theta, fix, erase, D)
    ensures KeepsNext(D, n, t) <==> KeepsNext(C, n, t) && StepSpanned(C, s, theta, fix, erase, n, t)
  {
    hide TopoOrder, Grouped, Disposable, GridUpTo, PrefixMin, ShortestBehind, Spanned, FullArcs, HopelessBucket,
         ArcSpanned, BucketIndex, Hopeless;
    if n.vertex < C.P.nVertices && BucketOf(C, n) < |C.arcs| {
      var b := BucketOf(C, n);
      FixedIff(C, s, cBest, comp, theta, b);
      if erase && t != [] {
        ArcLeftIff(C, s, cBest, comp, theta, D, b, t[0]);
        if HasArc(D, b, t[0]) { ArcWasThere(C, cBest, comp, theta, D, b, t[0]); }
      }
    }
  }

  /**
   * Exactly when a round on any bucket graph, full, reduced, nested or not, keeps what walks within theta need: when
   * the graph had it, and stored labels and bucket walks span every step of these walks within theta.
   */
  lemma RoundSafeIff<S(!new)>(C: Setup<S>, s: Store<S>, cBest: seq<Bound>, comp: seq<Bound>, theta: real, fix: bool,
                              erase: bool, D: Setup<S>)
    requires SetupOk(C) && ExactBounds(C, s, cBest, comp) && SetupOk(D)
             && OneRound(C, cBest, comp, theta, fix, erase, D)
    ensures Preserves(D, theta) <==> Preserves(C, theta) && AllSpanned(C, s, theta, fix, erase)
  {
    hide TopoOrder, Grouped, Disposable, GridUpTo, PrefixMin, ShortestBehind, Spanned, FullArcs, Run, HopelessBucket,
         Eliminated, ArcSpanned, HasArc;
    forall p, n0, n, t | TrueLabel(C, p, n0, n) && Finishes(C, theta, n, t)
      ensures KeepsNext(D, n, t) <==> KeepsNext(C, n, t) && StepSpanned(C, s, theta, fix, erase, n, t)
    {
      StepKeptIff(C, s, cBest, comp, theta, fix, erase, D, n, t);
    }
    if Preserves(D, theta) {
      forall p, n0, n, t | TrueLabel(C, p, n0, n) && Finishes(C, theta, n, t)
        ensures KeepsNext(C, n, t) && StepSpanned(C, s, theta, fix, erase, n, t)
      {
        assert TrueLabel(D, p, n0, n) && Finishes(D, theta, n, t);
      }
    }
    if Preserves(C, theta) && AllSpanned(C, s, theta, fix, erase) {
      forall p, n0, n, t | TrueLabel(D, p, n0, n) && Finishes(D, theta, n, t) ensures KeepsNext(D, n, t) {
        assert TrueLabel(C, p, n0, n) && Finishes(C, theta, n, t);
      }
    }
  }
}
