/** A second round of fixing and elimination can lose the only path: bounds are not relaxed over jump arcs. */
module SecondRound {
  import opened Types
  import opened Resources
  import opened Problems
  import opened Grids
  import opened BucketArcs
  import opened BucketOrder
  import opened LabelingSpec
  import opened CBests
  import opened Exactness
  import opened Threads
  import opened Paths
  import opened Solving
  import opened Completion
  import opened Elimination
  import opened JumpArcSearch
  import opened LabelCounts
  import opened Caps
  import opened Building
  import opened Resolving
  import opened EnumerationSpec
  import opened Enumeration

  // ----- The instances -----

  /**
   * A path over vertices 0 to 3 at no cost. It reaches vertex 1 at 5, vertex 2 at 8 and the sink at 9.
   * A fourth arc, if there is one, leads from vertex 1 to the sink at a cost of 1.
   */
  function Ladder(shortcut: bool): Problem<()> {
    Problem(4, if shortcut then 4 else 3, Topology(a => if a == 3 then 1
             else a, a => if a == 3 then 3 else a + 1, 0, 3),
            a => if a == 3 then 1.0 else 0.0, a => 0.0,
            a => Vec(if a == 0 then 5.0 else if a == 1 then 3.0 else if a == 2 then 1.0 else 4.0, 0.0),
            v => Vec(0.0, 0.0), v => Vec(if v == 0 then 0.0 else if v == 3 then 20.0 else 10.0, 0.0),
            false, false, NoResource.AsResource())
  }

  /** Two buckets at vertex 2, one at every other. */
  function Width(v: nat): Vec { Vec(if v == 2 then 5.0 else 20.0, 1.0) }

  function Time(v: nat): real { if v == 0 then 0.0 else if v == 1 then 5.0 else if v == 2 then 8.0 else 9.0 }

  predicate OnTime(n: Node<()>) { n.vertex <= 3 && n.q == Vec(Time(n.vertex), 0.0) }

  lemma LadderStart(shortcut: bool)
    ensures var P := Ladder(shortcut); WellFormed(P) && Disposable(P.pack, P.top) && Widths(P, Width)
    ensures var r := InitialNode(Ladder(shortcut), Forward);
            r.Some? && OnTime(r.value) && r.value.vertex == 0 && r.value.cost == 0.0
  {
    EmptyDisposable(Ladder(shortcut).top);
    EmptyCosts(Forward, (), 0, 0, ());
  }

  lemma LadderStep(shortcut: bool, u: Node<()>, a: nat)
    requires OnTime(u)
    ensures var P := Ladder(shortcut);
            var r := Step(P, Forward, u, a);
            && (r.Some? <==> a < P.nArcs && P.top.from(a) == u.vertex)
            && (r.Some? ==> OnTime(r.value) && r.value.vertex == P.top.to(a) && r.value.cost == u.cost + P.cost(a))
  {
    EmptyCosts(Forward, u.states, a, Ladder(shortcut).top.to(a), ());
  }

  lemma {:induction false} LadderRun(shortcut: bool, u: Node<()>, p: seq<nat>)
    requires OnTime(u) && Run(Ladder(shortcut), Forward, u, p).Some?
    ensures OnTime(Run(Ladder(shortcut), Forward, u, p).value)
    decreases |p|
  {
    if p != [] {
      LadderStep(shortcut, u, p[0]);
      LadderRun(shortcut, Step(Ladder(shortcut), Forward, u, p[0]).value, p[1..]);
    }
  }

  /** The walk 0, 1, 2 from any of its points. */
  lemma {:induction false} LadderWalk(shortcut: bool, u: Node<()>, p: seq<nat>)
    requires OnTime(u) && |p| == 3 - u.vertex && forall i: nat :: i < |p| ==> p[i] == u.vertex + i
    ensures var z := Run(Ladder(shortcut), Forward, u, p); z.Some? && z.value.vertex == 3 && z.value.cost == u.cost
    decreases |p|
  {
    if p != [] {
      LadderStep(shortcut, u, p[0]);
      LadderWalk(shortcut, Step(Ladder(shortcut), Forward, u, p[0]).value, p[1..]);
    }
  }

  // ----- Its buckets -----

  ghost predicate OnLadder(C: Setup<()>) {
    (C.P == Ladder(true) || C.P == Ladder(false)) && C.G.width == Width && C.dir.Forward? && Ready(C.P, C.G)
  }

  function First(C: Setup<()>, v: nat): nat
    requires OnLadder(C) && v < 4
  {
    BucketIndexFacts(C.P, C.G, v, Vec(0.0, 0.0));
    BucketIndex(C.P, C.G, v, Vec(0.0, 0.0))
  }

  /** Every bucket of a vertex other than 2 is its first one. */
  lemma OneBucket(C: Setup<()>, b: nat)
    requires OnLadder(C) && b < |C.G.buckets| && C.G.buckets[b].vertex != 2
    ensures C.G.buckets[b].vertex < 4 && b == First(C, C.G.buckets[b].vertex)
  {
    BucketFacts(C.P, C.G, b);
    var v := C.G.buckets[b].vertex;
    assert RangeOk(C.P, C.G, 4, v);
    assert C.G.nx[v] == 1 && C.G.ny[v] == 1;
    BucketIndexFacts(C.P, C.G, v, Vec(0.0, 0.0));
    BucketFacts(C.P, C.G, First(C, v));
  }

  lemma LadderData(C: Setup<()>, v: nat)
    requires OnLadder(C) && v < 4
    ensures Ready(C.P, C.G) && C.P.nVertices == 4 && C.P.lb(v) == Vec(0.0, 0.0) && C.G.width(v) == Width(v)
    ensures C.P.ub(v) == Vec(if v == 0 then 0.0 else if v == 3 then 20.0 else 10.0, 0.0)
  {
    hide GridUpTo;
  }

  /** Vertex 2 is reached from the corner of vertex 1 in its first bucket, by the path in a bucket behind it. */
  lemma TwoBuckets(C: Setup<()>, q: Vec)
    requires OnLadder(C) && q.y == 0.0
    ensures BucketIndex(C.P, C.G, 2, Vec(3.0, 0.0)) == First(C, 2)
    ensures q.x == 8.0 ==> !Beyond(C.P, C.G, Forward, BucketIndex(C.P, C.G, 2, q), First(C, 2))
  {
    LadderData(C, 2);
    hide OnLadder, GridUpTo;
    BucketIndexFacts(C.P, C.G, 2, Vec(0.0, 0.0));
    BucketIndexFacts(C.P, C.G, 2, q);
    assert 3.0 / 5.0 == 0.6 && 8.0 / 5.0 == 1.6;
  }

  // ----- The first round -----

  lemma PrefixMinAt<S(!new)>(C: Setup<S>, s: Store<S>, cBest: seq<Bound>, vertexMin: seq<Bound>, b: nat)
    requires SetupOk(C) && BoundsOk(C, s.pool, s.rows, cBest, vertexMin, 0) && b < |C.G.buckets|
    ensures |s.rows| == |C.G.buckets| && b < |cBest| && PrefixMin(C, s.pool, s.rows, b, cBest[b])
  {
    hide Grouped, Disposable, VertexMin, PrefixMin, GridUpTo;
    assert C.id[b] >= 0;
  }

  lemma StoredAt<S(!new)>(C: Setup<S>, s: Store<S>, o: nat, k: nat)
    requires SetupOk(C) && StoreOk(C, s) && o < |s.rows| && k in s.rows[o].ids
    ensures k < |s.pool| && s.pool[k].bucket == o && s.pool[k].node.vertex < C.P.nVertices
            && o == BucketOf(C, s.pool[k].node)
    ensures o < |C.G.buckets| && C.G.buckets[o].vertex == s.pool[k].node.vertex
  {
    hide TopoOrder, Grouped, Origin, Disposable, GridUpTo;
    assert RowIn(C, s, o);
    assert LabelOk(C, s.pool, k);
  }

  /** No label is in the first bucket of vertex 2, so nothing is known to reach it. */
  lemma NeverReached(C: Setup<()>, s: Store<()>, cBest: seq<Bound>, vertexMin: seq<Bound>)
    requires OnLadder(C) && SetupOk(C) && NoJumps(C) && StoreOk(C, s)
             && BoundsOk(C, s.pool, s.rows, cBest, vertexMin, 0)
    ensures First(C, 2) < |cBest| && cBest[First(C, 2)] == Inf
  {
    hide TopoOrder, Grouped, Disposable, GridUpTo, Origin, VertexMin, LabelOk, StoreOk, BoundsOk, NoJumps, BucketOk;
    var b := First(C, 2);
    BucketIndexFacts(C.P, C.G, 2, Vec(0.0, 0.0));
    PrefixMinAt(C, s, cBest, vertexMin, b);
    if cBest[b].Fin? {
      var o: nat :| Beyond(C.P, C.G, C.dir, o, b) && AttainedAt(s.pool, s.rows[o], cBest[b].val);
      var k: nat :| k in s.rows[o].ids && k < |s.pool| && s.pool[k].node.cost == cBest[b].val;
      StoredAt(C, s, o, k);
      var n := Sound(C, s, k);
      LadderStart(C.P == Ladder(true));
      LadderRun(C.P == Ladder(true), InitialNode(C.P, C.dir).value, Trace(s.pool, k));
      TwoBuckets(C, n.q);
    }
  }

  /** So its arc is erased, and no walk of the bucket graph leads through it. */
  lemma DeadEnd(C: Setup<()>, cBest: seq<Bound>, comp: seq<Bound>, theta: real, D: Setup<()>)
    requires OnLadder(C) && SetupOk(C) && First(C, 2) < |cBest| && cBest[First(C, 2)] == Inf
    requires |comp| == |C.G.buckets| && Eliminated(C, cBest, comp, theta, D.arcs)
    ensures First(C, 2) < |D.arcs| && D.arcs[First(C, 2)] == []
  {
    hide TopoOrder, Grouped, Disposable, GridUpTo, FullArcs;
    var b := First(C, 2);
    BucketIndexFacts(C.P, C.G, 2, Vec(0.0, 0.0));
    if D.arcs[b] != [] {
      var e := D.arcs[b][0];
      assert e in D.arcs[b];
      assert ArcOk(C, b, e);
      FullArcsMembers(C.P, C.G, C.dir, b);
      TargetIn(C, b, e.arc);
    }
  }

  lemma TargetIn<S>(C: Setup<S>, b: nat, a: nat)
    requires Ready(C.P, C.G) && b < |C.G.buckets| && C.P.top.Head(C.dir, a) < C.P.nVertices
    ensures C.G.width(C.P.top.Head(C.dir, a)).x > 0.0 && C.G.width(C.P.top.Head(C.dir, a)).y > 0.0
    ensures Target(C.P, C.G, C.dir, b, a) < |C.G.buckets|
            && C.G.buckets[Target(C.P, C.G, C.dir, b, a)].vertex == C.P.top.Head(C.dir, a)
  {
    BucketIndexFacts(C.P, C.G, C.P.top.Head(C.dir, a), Arrival(C.P, C.dir, Corner(C.dir, C.G.buckets[b]), a));
  }

  // ----- The second round -----

  /** Arcs of a bucket of vertex v other than 2 lead to the first bucket of vertex v + 1, but for the shortcut. */
  lemma OnlyArc(D: Setup<()>, v: nat, e: BucketArc)
    requires OnLadder(D) && SetupOk(D) && v < 2 && First(D, v) < |D.arcs| && e in D.arcs[First(D, v)]
    ensures (e.arc == v && e.toBucket == First(D, v + 1))
            || (v == 1 && e.arc == 3 && D.P == Ladder(true) && e.toBucket == First(D, 3))
  {
    hide TopoOrder, Grouped, Disposable, GridUpTo, FullArcs;
    var b := First(D, v);
    BucketIndexFacts(D.P, D.G, v, Vec(0.0, 0.0));
    assert ArcOk(D, b, e);
    FullArcsMembers(D.P, D.G, D.dir, b);
    TargetIn(D, b, e.arc);
    if e.arc == 1 {
      BucketFacts(D.P, D.G, b);
      FirstCorner(D, v);
      TwoBuckets(D, Vec(8.0, 0.0));
    } else {
      OneBucket(D, e.toBucket);
    }
  }

  lemma CellZero(hi: real, w: real)
    requires w > 0.0
    ensures Cell(0.0, hi, w, 0.0) == 0 && CellLb(0.0, w, 0) == 0.0
  {
    assert (0.0 - 0.0) / w == 0.0;
  }

  lemma FirstCorner(D: Setup<()>, v: nat)
    requires OnLadder(D) && v < 4
    ensures First(D, v) < |D.G.buckets| && D.G.buckets[First(D, v)].lb == Vec(0.0, 0.0)
  {
    LadderData(D, v);
    hide GridUpTo, OnLadder, BucketOk;
    BucketIndexFacts(D.P, D.G, v, Vec(0.0, 0.0));
    BucketFacts(D.P, D.G, First(D, v));
    CellZero(D.P.ub(v).x, Width(v).x);
    CellZero(D.P.ub(v).y, Width(v).y);
  }

  /** The relaxation finds no walk from vertex 1: the arc it would need is only left in a later bucket. */
  lemma NoWalk(D: Setup<()>, c: nat, w: seq<BucketArc>)
    requires OnLadder(D) && SetupOk(D) && D.P == Ladder(false) && First(D, 2) < |D.arcs| && D.arcs[First(D, 2)] == []
    requires c < |D.G.buckets| && D.G.buckets[c].vertex == 1
    ensures !Walk(D, c, w)
  {
    hide TopoOrder, Grouped, Disposable, GridUpTo;
    OneBucket(D, c);
    if w != [] && w[0] in D.arcs[c] {
      OnlyArc(D, 1, w[0]);
      BucketIndexFacts(D.P, D.G, 2, Vec(0.0, 0.0));
    }
  }

  lemma NoBound(D: Setup<()>, exact: seq<Bound>, comp: seq<Bound>)
    requires OnLadder(D) && SetupOk(D) && D.P == Ladder(false) && First(D, 2) < |D.arcs| && D.arcs[First(D, 2)] == []
    requires BoundsOfWalks(D, exact, comp)
    ensures First(D, 1) < |comp| && comp[First(D, 1)] == Inf
  {
    hide TopoOrder, Grouped, Disposable, GridUpTo, Walk, Length, BoundsOfWalks, BucketOk;
    var b := First(D, 1);
    BucketIndexFacts(D.P, D.G, 1, Vec(0.0, 0.0));
    CompletionLength(D, exact, comp);
    IsShortest(D, exact, comp, b);
    if comp[b].Fin? {
      var c: nat, w :| Beyond(D.P, D.G, D.dir, b, c) && Walk(D, c, w) && Length(D, w) == comp[b].val;
      NoWalk(D, c, w);
    }
  }

  lemma CompletionLength<S(!new)>(D: Setup<S>, exact: seq<Bound>, comp: seq<Bound>)
    requires SetupOk(D) && BoundsOfWalks(D, exact, comp)
    ensures |comp| == |D.G.buckets|
  {
  }

  /**
   * After a run on the full bucket graph, elimination with its exact bounds, and elimination once more with the
   * exact bounds of what is left, the source has no arc and no jump arc, although a walk of cost 0 starts there.
   */
  lemma SecondRoundLoses(C: Setup<()>, s: Store<()>, cBest: seq<Bound>, vertexMin: seq<Bound>, comp: seq<Bound>,
                         theta: real,
                         D: Setup<()>, cBest2: seq<Bound>, exact2: seq<Bound>, comp2: seq<Bound>, E: Setup<()>)
    requires OnLadder(C) && SetupOk(C) && NoJumps(C) && StoreOk(C, s)
             && BoundsOk(C, s.pool, s.rows, cBest, vertexMin, 0) && |comp| == |C.G.buckets|
    requires OnLadder(D) && SetupOk(D) && D.P == C.P == Ladder(false) && D.G == C.G
             && Eliminated(C, cBest, comp, theta, D.arcs)
    requires OnLadder(E) && SetupOk(E) && E.P == C.P && E.G == C.G && Eliminated(D, cBest2, comp2, theta, E.arcs)
    requires |cBest2| == |C.G.buckets| && BoundsOfWalks(D, exact2, comp2)
    ensures First(C, 0) < |E.arcs| && E.arcs[First(C, 0)] == [] && HopelessBucket(cBest2, comp2, theta, First(C, 1))
    ensures JumpsOf(E, First(C, 0), E.jumps[First(C, 0)]) ==> E.jumps[First(C, 0)] == []
    ensures theta >= 0.0 ==> !Preserves(E, theta)
  {
    hide TopoOrder, Grouped, Disposable, GridUpTo, Walk, Length, BoundsOfWalks, BucketOk, StoreOk, BoundsOk, HasArc,
         Preserves, Run, OnLadder, JumpsOf, Eliminated, NoJumps;
    NeverReached(C, s, cBest, vertexMin);
    DeadEnd(C, cBest, comp, theta, D);
    NoBound(D, exact2, comp2);
    SourceCut(D, cBest2, comp2, theta, E);
    LadderData(E, 0);
    var b := First(E, 0);
    SetupSizes(E);
    BucketIndexFacts(E.P, E.G, 0, Vec(0.0, 0.0));
    BucketIndexFacts(E.P, E.G, 1, Vec(0.0, 0.0));
    SameFirst(C, D);
    SameFirst(C, E);
    assert HopelessBucket(cBest2, comp2, theta, First(C, 1));
    if JumpsOf(E, b, E.jumps[b]) { NoJumpsFrom(E, b); }
    if theta >= 0.0 { NotPreserved(E, theta); }
  }

  lemma SameFirst(C: Setup<()>, D: Setup<()>)
    requires OnLadder(C) && OnLadder(D) && D.P == C.P && D.G == C.G
    ensures forall v: nat :: v < 4 ==> First(D, v) == First(C, v)
  {
  }

  /** Without a bound at vertex 1 the arc into it is erased. */
  lemma SourceCut(D: Setup<()>, cBest: seq<Bound>, comp: seq<Bound>, theta: real, E: Setup<()>)
    requires OnLadder(D) && SetupOk(D) && Eliminated(D, cBest, comp, theta, E.arcs)
    requires |cBest| == |D.G.buckets| && First(D, 1) < |comp| && comp[First(D, 1)] == Inf
    ensures First(D, 0) < |E.arcs| && E.arcs[First(D, 0)] == []
  {
    hide TopoOrder, Grouped, Disposable, GridUpTo, FullArcs, OnLadder;
    LadderData(D, 0);
    var b := First(D, 0);
    BucketIndexFacts(D.P, D.G, 0, Vec(0.0, 0.0));
    assert E.arcs[b] == [] || E.arcs[b][0] in E.arcs[b];
    forall e | e in D.arcs[b] ensures Hopeless(D, cBest, comp, theta, b, e) { OnlyArc(D, 0, e); }
  }

  lemma NoJumpsFrom(E: Setup<()>, b: nat)
    requires OnLadder(E) && SetupOk(E) && b < |E.jumps| && E.G.buckets[b].vertex != 2 && JumpsOf(E, b, E.jumps[b])
    ensures E.jumps[b] == []
  {
    hide TopoOrder, Grouped, Disposable, GridUpTo, HasArc, BucketOk;
    if E.jumps[b] != [] {
      var j := E.jumps[b][0];
      assert j in E.jumps[b];
      assert Successor(E, b, j.arc, j.jumpBucket);
      OneBucket(E, b);
      OneBucket(E, j.jumpBucket);
    }
  }

  lemma LadderFeasible(shortcut: bool) returns (z: Node<()>)
    ensures FeasibleWalk(Ladder(shortcut), [0, 1, 2], z) && z.cost == 0.0
  {
    LadderStart(shortcut);
    var u := InitialNode(Ladder(shortcut), Forward).value;
    LadderWalk(shortcut, u, [0, 1, 2]);
    z := Run(Ladder(shortcut), Forward, u, [0, 1, 2]).value;
  }

  lemma NotPreserved(E: Setup<()>, theta: real)
    requires OnLadder(E) && SetupOk(E) && First(E, 0) < |E.arcs| && E.arcs[First(E, 0)] == [] && theta >= 0.0
    ensures !Preserves(E, theta)
  {
    hide Layout, Disposable, Run;
    var shortcut := E.P == Ladder(true);
    LadderStart(shortcut);
    var u := InitialNode(E.P, Forward).value;
    var z := LadderFeasible(shortcut);
    assert Run(E.P, E.dir, u, []) == Some(u) by { RunNothing(E, u); }
    assert TrueLabel(E, [], u, u);
    assert Finishes(E, theta, u, [0, 1, 2]);
    assert !HasArc(E, BucketOf(E, u), 0);
    assert !KeepsNext(E, u, [0, 1, 2]);
  }

  lemma RunNothing<S>(E: Setup<S>, u: Node<S>)
    ensures Run(E.P, E.dir, u, []) == Some(u)
  {
  }

  // ----- It happens -----

  lemma {:induction false} FreeWalk(C: Setup<()>, w: seq<BucketArc>)
    requires OnLadder(C)
    ensures Length(C, w) >= 0.0
    decreases |w|
  {
    if w != [] { FreeWalk(C, w[1..]); }
  }

  lemma NoCycleCosts(C: Setup<()>)
    requires OnLadder(C)
    ensures NoNegativeCycle(C)
  {
    hide Leads;
    forall b: nat, w: seq<BucketArc> | Leads(C, b, w, b) ensures Length(C, w) >= 0.0 { FreeWalk(C, w); }
  }

  /** compute_completion_bounds, eliminate_arcs and obtain_jump_arcs. */
  method Eliminate(C: Setup<()>, cBest: seq<Bound>, adj: seq<seq<nat>>, theta: real)
    returns (D: Setup<()>, comp: seq<Bound>, ghost exact: seq<Bound>)
    requires OnLadder(C) && SetupOk(C) && ArcsOrdered(C) && Unlimited(C)
    requires |adj| == C.P.nVertices && forall v: nat :: v < C.P.nVertices ==> adj[v] == ArcsAt(C.P, C.dir, v, C.P.nArcs)
    ensures BoundsOfWalks(C, exact, comp) && Eliminated(C, cBest, comp, theta, D.arcs)
    ensures D == C.(arcs := D.arcs, jumps := D.jumps) && SetupOk(D) && ArcsOrdered(D) && JumpsLack(D)
    ensures |D.jumps| == |C.G.buckets| && forall b: nat :: b < |D.jumps| ==> JumpsOf(D, b, D.jumps[b])
  {
    hide SetupOk, NoNegativeCycle, ArcsOrdered, BoundsOfWalks, JumpOk, JumpsOf, OnLadder, JumpsLack;
    LadderReady(C);
    NoCycleCosts(C);
    comp, exact := ComputeCompletion(C);
    var arcs := EliminateArcs(C, cBest, comp, theta);
    FewerArcs(C, cBest, comp, theta, arcs, C.fixed);
    var E := C.(arcs := arcs);
    OrderedStill(C, E);
    var jumps := ObtainJumpArcs(E, adj, false);
    NewJumps(E, jumps);
    D := E.(jumps := jumps);
    OrderedSame(E, D);
    JumpsLackSo(E, false, jumps, D);
    SetupRange(D);
    forall b: nat | b < |D.jumps| ensures JumpsOf(D, b, D.jumps[b]) { SameJumpsOf(E, jumps, D, b); }
  }

  lemma LadderReady(C: Setup<()>)
    requires OnLadder(C)
    ensures Ready(C.P, C.G) && C.P.nVertices == 4
  {
  }

  /** A solve and an elimination with its bounds. */
  method Round(C: Setup<()>, adj: seq<seq<nat>>, theta: real)
    returns (found: seq<Path>, D: Setup<()>, ghost s: Store<()>, cBest: seq<Bound>, ghost vertexMin: seq<Bound>,
             comp: seq<Bound>, ghost exact: seq<Bound>)
    requires OnLadder(C) && SetupOk(C) && ArcsOrdered(C) && Unlimited(C)
    requires |adj| == C.P.nVertices && forall v: nat :: v < C.P.nVertices ==> adj[v] == ArcsAt(C.P, C.dir, v, C.P.nArcs)
    ensures Plain(C) && Preserves(C, theta) ==> Optimal(C.P, found, C.theta, theta)
    ensures StoreOk(C, s) && BoundsOk(C, s.pool, s.rows, cBest, vertexMin, 0) && (Plain(C) ==> Finished(C, s))
    ensures BoundsOfWalks(C, exact, comp) && Eliminated(C, cBest, comp, theta, D.arcs) && JumpsLack(D)
    ensures D == C.(arcs := D.arcs, jumps := D.jumps) && SetupOk(D) && ArcsOrdered(D)
    ensures |D.jumps| == |C.G.buckets| && forall b: nat :: b < |D.jumps| ==> JumpsOf(D, b, D.jumps[b])
  {
    hide OnLadder, SetupOk, Optimal, Preserves, StoreOk, Finished, BoundsOk, BoundsOfWalks, ArcsOrdered, JumpsOf,
         ArcsAt, Eliminated, Realises, GridUpTo, JumpsLack, Plain, FewPartial;
    var run, capped;
    LadderReady(C);
    Starts(C);
    LadderFew(C);
    found, run, capped := SolveMono(C, 1, theta);
    s, vertexMin, cBest := run.State(), run.vertexMin, run.cBest;
    D, comp, exact := Eliminate(C, cBest, adj, theta);
  }

  /** The arc sequences that lead on from vertex v. */
  function Ways(v: nat): set<seq<nat>> {
    if v == 0 then {[], [0], [0, 1], [0, 1, 2], [0, 3]}
        else if v == 1 then {[], [1], [1, 2], [3]} else if v == 2 then {[], [2]} else {[]}
  }

  lemma LadderFew(C: Setup<()>)
    requires OnLadder(C)
    ensures FewPartial(C.P, Forward, SCC_CAP)
  {
    hide Ready, Ladder;
    LadderFewOf(C.P == Ladder(true));
  }

  /** Five arc sequences can be followed at most. */
  lemma LadderFewOf(shortcut: bool)
    ensures FewPartial(Ladder(shortcut), Forward, SCC_CAP)
  {
    hide Partial, Ladder;
    FiveAtMost();
    forall p | Partial(Ladder(shortcut), Forward, p) ensures p in Ways(0) { LadderPartial(shortcut, p); }
    assert AllPartial(Ladder(shortcut), Forward, Ways(0));
  }

  lemma FiveAtMost()
    ensures |Ways(0)| <= 5
  {
    assert Ways(0) == {[]} + {[0]} + {[0, 1]} + {[0, 1, 2]} + {[0, 3]};
  }

  lemma LadderPartial(shortcut: bool, p: seq<nat>)
    requires Partial(Ladder(shortcut), Forward, p)
    ensures p in Ways(0)
  {
    hide Ways;
    LadderStart(shortcut);
    LadderWays(shortcut, InitialNode(Ladder(shortcut), Forward).value, p);
  }

  lemma {:induction false} LadderWays(shortcut: bool, u: Node<()>, p: seq<nat>)
    requires OnTime(u) && Run(Ladder(shortcut), Forward, u, p).Some?
    ensures p in Ways(u.vertex)
    decreases |p|
  {
    if p != [] {
      LadderStep(shortcut, u, p[0]);
      LadderWays(shortcut, Step(Ladder(shortcut), Forward, u, p[0]).value, p[1..]);
      assert p == [p[0]] + p[1..];
      assert [0] + [] == [0] && [0] + [1] == [0, 1] && [0] + [1, 2] == [0, 1, 2] && [0] + [3] == [0, 3];
      assert [1] + [] == [1] && [1] + [2] == [1, 2] && [2] + [] == [2] && [3] + [] == [3];
    }
  }

  lemma Starts(C: Setup<()>)
    requires OnLadder(C)
    ensures InitialNode(C.P, C.dir).Some?
  {
    LadderStart(C.P == Ladder(true));
  }

  /**
   * Two rounds on the bucket graph as built: the first solve returns a path of cost 0, in the end its source is
   * cut off, and the next solve returns nothing.
   */
  method LoseOnSecondRound() returns (found: seq<Path>, E: Setup<()>, last: seq<Path>)
    ensures |found| > 0 && found[0].reducedCost <= 0.0
    ensures last == []
    ensures OnLadder(E) && SetupOk(E) && First(E, 0) < |E.arcs| && E.arcs[First(E, 0)] == []
            && E.jumps[First(E, 0)] == []
  {
    hide Ladder, SetupOk, Full, Disposable, GridUpTo, Optimal, Preserves, StoreOk, Finished, BoundsOk, BoundsOfWalks,
         ArcsOrdered, NoJumps, JumpsOf, ArcsAt, Eliminated, Realises, FeasibleWalk, HopelessBucket, JumpsLack, Plain;
    var C, out := Build(false);
    FullPreserves(C, 0.0);
    ghost var s, vertexMin, exact;
    ghost var s2, vertexMin2, exact2;
    var more, D, cBest, comp, cBest2, comp2;
    found, D, s, cBest, vertexMin, comp, exact := Round(C, out, 0.0);
    var z := LadderFeasible(false);
    IsFound(found, z);
    more, E, s2, cBest2, vertexMin2, comp2, exact2 := Round(D, out, 0.0);
    BoundsSizeOf(D, s2, cBest2, vertexMin2);
    CompletionLength(C, exact, comp);
    SecondRoundLoses(C, s, cBest, vertexMin, comp, 0.0, D, cBest2, exact2, comp2, E);
    SetupSizes(E);
    var run, capped;
    last, run, capped := SolveMono(E, 1, 0.0);
    if last != [] { NoWayOut(E, last[0]); }
  }

  lemma NoWayOut(E: Setup<()>, p: Path)
    requires OnLadder(E) && SetupOk(E) && First(E, 0) < |E.arcs| && E.arcs[First(E, 0)] == []
             && E.jumps[First(E, 0)] == []
    ensures !Follows(E, p)
  {
    hide TopoOrder, Grouped, Disposable, GridUpTo, Threaded;
    LadderStart(E.P == Ladder(true));
    var u := InitialNode(E.P, Forward).value;
    BucketIndexFacts(E.P, E.G, 0, u.q);
    OneBucket(E, BucketOf(E, u));
    if Follows(E, p) {
      var z :| SinkThread(E, p.arcs, z);
      CutOff(E, p.arcs, z);
      assert false;
    }
  }

  method Build(shortcut: bool) returns (C: Setup<()>, out: seq<seq<nat>>)
    ensures C.P == Ladder(shortcut) && C.theta == 1.0 && OnLadder(C) && Unlimited(C)
    ensures SetupOk(C) && Full(C) && NoJumps(C) && ArcsOrdered(C) && Plain(C)
    ensures |out| == C.P.nVertices && forall v: nat :: v < C.P.nVertices ==> out[v] == ArcsAt(C.P, C.dir, v, C.P.nArcs)
  {
    hide Ladder, SetupOk, Full, Disposable, GridUpTo, ArcsOrdered, NoJumps, ArcsAt, Plain;
    LadderStart(shortcut);
    var G := BuildBuckets(Ladder(shortcut), Width);
    out := BuildAdjacency(Ladder(shortcut), Forward);
    C := BuildDirection(Ladder(shortcut), G, Forward, out, Inf, 1.0);
  }

  lemma SetupSizes(E: Setup<()>)
    requires OnLadder(E) && SetupOk(E)
    ensures First(E, 0) < |E.jumps| == |E.G.buckets|
  {
    hide TopoOrder, Grouped, Disposable, GridUpTo;
    BucketIndexFacts(E.P, E.G, 0, Vec(0.0, 0.0));
  }

  lemma IsFound(found: seq<Path>, z: Node<()>)
    requires FeasibleWalk(Ladder(false), [0, 1, 2], z) && z.cost == 0.0 && Optimal(Ladder(false), found, 1.0, 0.0)
    ensures |found| > 0 && found[0].reducedCost <= 0.0
  {
    hide FeasibleWalk;
  }

  lemma BoundsSizeOf<S(!new)>(C: Setup<S>, s: Store<S>, cBest: seq<Bound>, vertexMin: seq<Bound>)
    requires SetupOk(C) && BoundsOk(C, s.pool, s.rows, cBest, vertexMin, 0)
    ensures |cBest| == |C.G.buckets|
  {
  }

  lemma SameJumpsOf<S(!new)>(E: Setup<S>, jumps: seq<seq<JumpArc>>, D: Setup<S>, b: nat)
    requires SetupOk(E) && SetupOk(D) && D == E.(jumps := jumps) && b < |jumps| && JumpsOf(E, b, jumps[b])
    ensures JumpsOf(D, b, jumps[b])
  {
    hide TopoOrder, Grouped, Disposable, JumpsTo, GridUpTo;
    SameJumps(E, D, b);
  }

  // ----- Enumeration after one round -----

  /** With the shortcut every walk the relaxation finds from vertex 1 costs 1. */
  lemma ShortcutOnly(D: Setup<()>, c: nat, w: seq<BucketArc>)
    requires OnLadder(D) && SetupOk(D) && First(D, 2) < |D.arcs| && D.arcs[First(D, 2)] == []
    requires c < |D.G.buckets| && D.G.buckets[c].vertex == 1 && Walk(D, c, w)
    ensures Length(D, w) >= 1.0
  {
    hide TopoOrder, Grouped, Disposable, GridUpTo;
    OneBucket(D, c);
    OnlyArc(D, 1, w[0]);
    BucketIndexFacts(D.P, D.G, 2, Vec(0.0, 0.0));
    FreeWalk(D, w[1..]);
  }

  /** The label at vertex 1 on the walk of cost 0. */
  lemma Halfway(D: Setup<()>) returns (n: Node<()>)
    requires OnLadder(D) && D.P == Ladder(true) && D.theta == 1.0
    ensures TrueLabel(D, [0], n, n) && n.vertex == 1 && n.cost == 0.0 && Completes(D, n, [1, 2])
            && Finishes(D, 1.0, n, [3])
    ensures BucketOf(D, n) == First(D, 1)
  {
    LadderStart(true);
    var u := InitialNode(D.P, Forward).value;
    LadderStep(true, u, 0);
    n := Step(D.P, Forward, u, 0).value;
    assert [0][1..] == [] && Run(D.P, Forward, n, []) == Some(n);
    LadderWalk(true, n, [1, 2]);
    LadderStep(true, n, 3);
    var z := Step(D.P, Forward, n, 3).value;
    assert [3][1..] == [] && Run(D.P, Forward, z, []) == Some(z);
    BucketIndexFacts(D.P, D.G, 1, n.q);
    OneBucket(D, BucketOf(D, n));
  }

  /** Every walk from the source costs 1 as well. */
  lemma SourceLong(D: Setup<()>, c: nat, w: seq<BucketArc>)
    requires OnLadder(D) && SetupOk(D) && First(D, 2) < |D.arcs| && D.arcs[First(D, 2)] == []
    requires c < |D.G.buckets| && D.G.buckets[c].vertex == 0 && Walk(D, c, w)
    ensures Length(D, w) >= 1.0
  {
    hide TopoOrder, Grouped, Disposable, GridUpTo;
    OneBucket(D, c);
    OnlyArc(D, 0, w[0]);
    BucketIndexFacts(D.P, D.G, 1, Vec(0.0, 0.0));
    ShortcutOnly(D, First(D, 1), w[1..]);
    NoCost(D, w[0]);
  }

  lemma NoCost(D: Setup<()>, e: BucketArc)
    requires OnLadder(D)
    ensures D.P.cost(e.arc) >= 0.0
  {
  }

  /** So its bound is 1, which prunes the first label. */
  lemma BoundPrunes(D: Setup<()>, exact: seq<Bound>, comp: seq<Bound>)
    requires OnLadder(D) && SetupOk(D) && D.P == Ladder(true) && D.theta == 1.0 && First(D, 2) < |D.arcs|
             && D.arcs[First(D, 2)] == []
    requires BoundsOfWalks(D, exact, comp) && Preserves(D, 1.0)
    ensures InitialNode(D.P, D.dir).Some? && !Passes(D, comp, InitialNode(D.P, D.dir).value) && !PrunesNothing(D, comp)
  {
    hide TopoOrder, Grouped, Disposable, GridUpTo, Walk, Length, BoundsOfWalks, BucketOk, Run, TrueLabel, Finishes,
         HasArc, Completes, Ladder;
    var u := AtStart(D);
    var n := Halfway(D);
    var b := First(D, 0);
    BucketIndexFacts(D.P, D.G, 0, Vec(0.0, 0.0));
    BucketIndexFacts(D.P, D.G, 1, Vec(0.0, 0.0));
    CompletionLength(D, exact, comp);
    IsShortest(D, exact, comp, b);
    assert KeepsNext(D, n, [3]);
    assert KeepsNext(D, u, [0, 1, 2]);
    var w1 := ShortcutWalk(D, First(D, 1));
    var w0 := SourceWalk(D, b, w1);
    BeyondOrder(D.P, D.G, D.dir, b, b, b);
    assert comp[b].Fin?;
    var c: nat, w :| Beyond(D.P, D.G, D.dir, b, c) && Walk(D, c, w) && Length(D, w) == comp[b].val;
    SourceLong(D, c, w);
    assert !Passes(D, comp, u);
    assert [0, 1, 2] != [];
  }

  lemma AtStart(D: Setup<()>) returns (u: Node<()>)
    requires OnLadder(D) && D.P == Ladder(true) && D.theta == 1.0
    ensures InitialNode(D.P, D.dir) == Some(u) && u.cost == 0.0 && u.vertex == 0 && TrueLabel(D, [], u, u)
            && Completes(D, u, [0, 1, 2])
    ensures Finishes(D, 1.0, u, [0, 1, 2]) && BucketOf(D, u) == First(D, 0)
  {
    LadderStart(true);
    u := InitialNode(D.P, Forward).value;
    RunNothing(D, u);
    LadderWalk(true, u, [0, 1, 2]);
    BucketIndexFacts(D.P, D.G, 0, u.q);
    OneBucket(D, BucketOf(D, u));
  }

  lemma SourceWalk(D: Setup<()>, b: nat, w: seq<BucketArc>) returns (v: seq<BucketArc>)
    requires OnLadder(D) && SetupOk(D) && b == First(D, 0) < |D.arcs| && HasArc(D, b, 0) && Walk(D, First(D, 1), w)
    ensures Walk(D, b, v)
  {
    hide TopoOrder, Grouped, Disposable, GridUpTo;
    var e :| e in D.arcs[b] && e.arc == 0;
    OnlyArc(D, 0, e);
    LongerWalk(D, b, e, w);
    v := [e] + w;
  }

  lemma ShortcutWalk(D: Setup<()>, b: nat) returns (w: seq<BucketArc>)
    requires OnLadder(D) && SetupOk(D) && b == First(D, 1) < |D.arcs| && HasArc(D, b, 3)
    ensures Walk(D, b, w)
  {
    hide TopoOrder, Grouped, Disposable, GridUpTo;
    var e :| e in D.arcs[b] && e.arc == 3;
    OnlyArc(D, 1, e);
    BucketIndexFacts(D.P, D.G, 3, Vec(0.0, 0.0));
    EmptyWalk(D, e.toBucket);
    LongerWalk(D, b, e, []);
    w := [e] + [];
  }

  /**
   * Build, solve, eliminate, enumerate: the enumeration says that it is complete, but a walk below theta is not
   * listed.
   */
  method MissInEnumeration(maxLabels: nat, maxPaths: nat) returns (paths: seq<Path>, complete: bool)
    requires maxLabels > 1 && maxPaths != 1
    ensures exists z :: FeasibleWalk(Ladder(true), [0, 1, 2], z) && z.cost == 0.0
    ensures complete && !ListsAll(Ladder(true), 1.0, paths)
  {
    hide Ladder, SetupOk, Full, Disposable, GridUpTo, Optimal, Preserves, StoreOk, Finished, BoundsOk, BoundsOfWalks,
         ArcsOrdered, NoJumps, JumpsOf, ArcsAt, Eliminated, Realises, FeasibleWalk, HopelessBucket, JumpsLack,
         ArcsNested, PrunesNothing, KeepsAll, ListsAll, Countable, Plain, Passes;
    var z := LadderFeasible(true);
    var C, out := Build(true);
    FullIsNested(C, 1.0);
    ghost var s, vertexMin, exact;
    var found, D, cBest, comp;
    found, D, s, cBest, vertexMin, comp, exact := Round(C, out, 1.0);
    CompletionLength(C, exact, comp);
    NeverReached(C, s, cBest, vertexMin);
    DeadEnd(C, cBest, comp, 1.0, D);
    IsReduced(C, cBest, comp, 1.0, D);
    EliminationSafe(C, s, cBest, vertexMin, exact, comp, 1.0, D);
    NoCycleCosts(D);
    IsCountable(D);
    PreservedIsKept(D);
    var again;
    ghost var walks;
    again, walks := ComputeCompletion(D);
    BoundPrunes(D, walks, again);
    ghost var T;
    paths, complete, T := EnumerateMono(D, again, maxLabels, maxPaths);
  }

  lemma IsReduced(C: Setup<()>, cBest: seq<Bound>, comp: seq<Bound>, theta: real, D: Setup<()>)
    requires D == C.(arcs := D.arcs, jumps := D.jumps) && Eliminated(C, cBest, comp, theta, D.arcs)
    ensures Reduced(C, cBest, comp, theta, D)
  {
  }

  lemma IsCountable(D: Setup<()>)
    requires SetupOk(D) && ArcsOrdered(D) && JumpsLack(D) && Unlimited(D)
    ensures Countable(D)
  {
    hide Layout, Disposable, JumpsLack;
  }
}
