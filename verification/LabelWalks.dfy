/** What label-based elimination after a bidirectional solve keeps, in terms of walks. */
module LabelWalks {
  import opened Types
  import opened Resources
  import opened Problems
  import opened Grids
  import opened BucketArcs
  import opened BucketOrder
  import opened LabelStores
  import opened LabelingSpec
  import opened Exactness
  import opened Paths
  import opened Joins
  import opened Concat
  import opened LabelElimination
  import opened Bidirectional
  import opened BidirectionalSolve

  /** A walk below theta whose forward labels get to its arc k and whose backward labels come back to that arc. */
  ghost predicate CrossesAt<S>(P: Problem<S>, theta: real, mid: real, p: seq<nat>, z: Node<S>, k: nat) {
    && FeasibleWalk(P, p, z) && z.cost < theta && k < |p|
    && (forall i: nat :: i < k ==> !Crossed(P, mid, p, i))
    && (forall j: nat :: k + 1 < j <= |p| ==> InReach(P, mid, p, j))
  }

  /** The node on the side labels of direction dir come from, at arc k of p. */
  function Near<S>(P: Problem<S>, dir: Direction, p: seq<nat>, k: nat): Option<Node<S>>
    requires k < |p|
  {
    if dir.Forward? then Prefix(P, p, k) else Suffix(P, p[k + 1..])
  }

  function Far<S>(P: Problem<S>, dir: Direction, p: seq<nat>, k: nat): Option<Node<S>>
    requires k < |p|
  {
    if dir.Forward? then Suffix(P, p[k + 1..]) else Prefix(P, p, k)
  }

  /** In direction dir, arc k of p starts in bucket b or before it and ends no earlier than its bucket arc from b. */
  ghost predicate UsedFrom<S>(C: Setup<S>, b: nat, p: seq<nat>, k: nat)
    requires Ready(C.P, C.G) && k < |p|
  {
    var u, w := Near(C.P, C.dir, p, k), Far(C.P, C.dir, p, k);
    && u.Some? && w.Some? && u.value.vertex < C.P.nVertices && w.value.vertex < C.P.nVertices
    && Beyond(C.P, C.G, C.dir, BucketOf(C, u.value), b) && Arrives(C, b, p[k], BucketOf(C, w.value))
  }

  ghost predicate WalkUses<S(!new)>(C: Setup<S>, theta: real, mid: real, b: nat, a: nat)
    requires Ready(C.P, C.G)
  {
    exists p, z, k: nat :: CrossesAt(C.P, theta, mid, p, z, k) && p[k] == a && UsedFrom(C, b, p, k)
  }

  /** A pass in either direction over the labels that a bidirectional solve has left, finished or not. */
  ghost predicate PassStores<S(!new)>(E: Pass<S>, F: Setup<S>, B: Setup<S>, M: Meeting<S>, s: Store<S>)
    requires Paired(F, B)
  {
    && StoreOk(F, M.fw.store) && StoreOk(B, M.bw.store) && StoreOk(B, s) && M.bw.store.pool == s.pool
    && E.C.P == F.P && E.C.G == F.G && E.C.fixed == {}
    && E.own == (if E.C.dir.Forward? then M.fw else M.bw) && E.opp == (if E.C.dir.Forward? then M.bw else M.fw)
  }

  /** The same after a finished solve, for a theta no higher than that of the solve. */
  ghost predicate PassOver<S(!new)>(E: Pass<S>, F: Setup<S>, B: Setup<S>, M: Meeting<S>, s: Store<S>,
                                    arrival: seq<Bound>)
    requires Paired(F, B)
  {
    && PassStores(E, F, B, M, s) && MetAfter(F, B, M, s, arrival) && E.theta <= F.theta
    && (F.opposite.Some? ==> OppositeBelow(B, s, F.opposite.value))
  }

  // ----- From walks to labels -----

  /** Both halves of the walk are dominated by stored labels that join below theta. */
  lemma CrossingLabels<S(!new)>(F: Setup<S>, B: Setup<S>, M: Meeting<S>, s: Store<S>, arrival: seq<Bound>,
                                inv: Invariant<S>, theta: real,
                                p: seq<nat>, z: Node<S>, k: nat) returns (f: nat, h: nat)
    requires Paired(F, B) && BothFull(F, B) && MetAfter(F, B, M, s, arrival)
    requires Joinable(F.P.pack, F.P.top, inv) && F.P.lb(F.P.top.sink).AtMost(F.P.ub(F.P.top.sink))
    requires F.opposite.Some? ==> OppositeBelow(B, s, F.opposite.value)
    requires F.mid.Fin? && CrossesAt(F.P, theta, F.mid.val, p, z, k) && theta <= F.theta
    ensures Prefix(F.P, p, k).Some? && Suffix(F.P, p[k + 1..]).Some?
    ensures Alive(M.fw.store, f) && Dominates(F.P, Forward, M.fw.store.pool[f].node, Prefix(F.P, p, k).value)
    ensures Alive(M.bw.store, h) && Dominates(F.P, Backward, M.bw.store.pool[h].node, Suffix(F.P, p[k + 1..]).value)
    ensures JoinPair(F.P, M.fw.store.pool[f].node, p[k], M.bw.store.pool[h].node)
    ensures M.fw.store.pool[f].node.cost + M.bw.store.pool[h].node.cost + F.P.cost(p[k]) < theta
  {
    hide TopoOrder, Grouped, Full, Finished, Meets, Dominates, Step, Joinable, JoinPair, GridUpTo, OppositeBelow,
         Disposable;
    CoverBackward(B, s, inv, p, z, k + 1);
    SplitHere(F, inv, p, z, k);
    var u, w := Prefix(F.P, p, k).value, Suffix(F.P, p[k + 1..]).value;
    assert CrossesAt(F.P, F.theta, F.mid.val, p, z, k);
    CoverUpTo(F, B, M, s, inv, p, z, k);
    f :| Alive(M.fw.store, f) && Dominates(F.P, F.dir, M.fw.store.pool[f].node, u);
    h :| Alive(s, h) && Dominates(B.P, B.dir, s.pool[h].node, w);
    var u', w' := M.fw.store.pool[f].node, s.pool[h].node;
    DominatesIff(F.P, F.dir, u', u);
    DominatesIff(B.P, B.dir, w', w);
    JoinableMonotone(F.P, inv);
    JoinDominates(F.P, u, u', p[k], w, w');
    JoinArc(F.P, u, p[k], w);
    ReachedInTime(F, B, M, s, arrival, f, p[k], h);
  }

  lemma JoinableMonotone<S(!new)>(P: Problem<S>, inv: Invariant<S>)
    requires Joinable(P.pack, P.top, inv)
    ensures JoinMonotone(P.pack, P.top)
  {
  }

  lemma JoinArc<S>(P: Problem<S>, u: Node<S>, a: nat, w: Node<S>)
    requires JoinPair(P, u, a, w)
    ensures a < P.nArcs
  {
  }

  /** The forward label at the arc is stored although it may be past the midpoint: the filter sees the backward one. */
  lemma CoverUpTo<S(!new)>(F: Setup<S>, B: Setup<S>, M: Meeting<S>, s: Store<S>, inv: Invariant<S>, p: seq<nat>,
                           z: Node<S>, k: nat)
    requires Paired(F, B) && BothFull(F, B) && Finished(F, M.fw.store) && Finished(B, s)
    requires Joinable(F.P.pack, F.P.top, inv) && F.P.lb(F.P.top.sink).AtMost(F.P.ub(F.P.top.sink))
    requires F.opposite.Some? ==> OppositeBelow(B, s, F.opposite.value)
    requires F.mid.Fin? && CrossesAt(F.P, F.theta, F.mid.val, p, z, k)
    ensures Prefix(F.P, p, k).Some? && Covered(F, M.fw.store, Prefix(F.P, p, k).value)
  {
    hide TopoOrder, Grouped, Full, Finished, Dominates, Covered, Step, Joinable, JoinPair, GridUpTo, OppositeBelow,
         Disposable;
    PrefixExists(F.P, p, z, k);
    if k == 0 {
      StartCovered(F, M.fw.store, p);
    } else {
      CoverForward(F, M.fw.store, p, z, k - 1);
      var m := CoverNext(F, M.fw.store, p, z, k - 1);
      CoverBackward(B, s, inv, p, z, k + 1);
      SplitHere(F, inv, p, z, k);
      var u, w := Prefix(F.P, p, k).value, Suffix(F.P, p[k + 1..]).value;
      if F.opposite.Some? { FilterPasses(F, B, s, m, u, p[k], w); } else { AllKept(F, m); }
    }
  }

  /** A dominating label sits in a bucket no later. */
  lemma DominatesBucket<S>(P: Problem<S>, G: Grid, dir: Direction, m: Node<S>, n: Node<S>)
    requires Ready(P, G) && Dominates(P, dir, m, n) && n.vertex < P.nVertices
    ensures G.width(n.vertex).x > 0.0 && G.width(n.vertex).y > 0.0
    ensures Beyond(P, G, dir, BucketIndex(P, G, n.vertex, m.q), BucketIndex(P, G, n.vertex, n.q))
  {
    hide GridUpTo, BucketOk;
    BucketMonotone(P, G, dir, n.vertex, m.q, n.q);
  }

  lemma LabelBucket<S(!new)>(C: Setup<S>, s: Store<S>, k: nat)
    requires SetupOk(C) && StoreOk(C, s) && k < |s.pool|
    ensures Ready(C.P, C.G) && s.pool[k].node.vertex < C.P.nVertices
            && s.pool[k].bucket == BucketOf(C, s.pool[k].node) < |C.G.buckets|
  {
    hide TopoOrder, Grouped, Disposable, GridUpTo, RowIn, Origin;
    assert LabelOk(C, s.pool, k);
  }

  lemma OverFacts<S(!new)>(E: Pass<S>, F: Setup<S>, B: Setup<S>, M: Meeting<S>, s: Store<S>)
    requires Paired(F, B) && PassStores(E, F, B, M, s)
    ensures Ready(E.C.P, E.C.G) && F.mid.Fin? && SetupOk(F) && SetupOk(B) && StoreOk(F, M.fw.store) && StoreOk(B, s)
    ensures StoreOk(B, M.bw.store) && M.bw.store.pool == s.pool && E.C.fixed == {}
    ensures B.P == F.P == E.C.P && B.G == F.G == E.C.G
    ensures E.own == (if E.C.dir.Forward? then M.fw else M.bw) && E.opp == (if E.C.dir.Forward? then M.bw else M.fw)
  {
    hide TopoOrder, Grouped, Disposable, Full;
  }

  /** Where the two labels of a pair sit, seen in the direction of the pass. */
  lemma PairBuckets<S(!new)>(E: Pass<S>, F: Setup<S>, B: Setup<S>, M: Meeting<S>, s: Store<S>, f: nat, h: nat,
                             u: Node<S>, w: Node<S>)
    requires Paired(F, B) && PassStores(E, F, B, M, s) && f < |M.fw.store.pool| && h < |s.pool|
             && u.vertex < F.P.nVertices && w.vertex < F.P.nVertices
    requires Dominates(F.P, Forward, M.fw.store.pool[f].node, u) && Dominates(F.P, Backward, s.pool[h].node, w)
    ensures Ready(E.C.P, E.C.G)
    ensures E.C.dir.Forward? ==>
              Beyond(E.C.P, E.C.G, E.C.dir, M.fw.store.pool[f].bucket, BucketOf(E.C, u))
              && Beyond(E.C.P, E.C.G, E.C.dir, BucketOf(E.C, w), s.pool[h].bucket)
    ensures E.C.dir.Backward? ==>
              Beyond(E.C.P, E.C.G, E.C.dir, s.pool[h].bucket, BucketOf(E.C, w))
              && Beyond(E.C.P, E.C.G, E.C.dir, BucketOf(E.C, u), M.fw.store.pool[f].bucket)
  {
    hide PassStores, Paired, SetupOk, StoreOk, GridUpTo, BucketOk, Dominates, BucketIndex;
    OverFacts(E, F, B, M, s);
    LabelBucket(F, M.fw.store, f);
    LabelBucket(B, s, h);
    SameVertices(F.P, M.fw.store.pool[f].node, u, s.pool[h].node, w);
    DominatesBucket(F.P, F.G, Forward, M.fw.store.pool[f].node, u);
    DominatesBucket(F.P, F.G, Backward, s.pool[h].node, w);
    if E.C.dir.Forward? {
      OtherSide(F.P, F.G, Backward, Forward, s.pool[h].bucket, BucketOf(E.C, w));
    } else {
      OtherSide(F.P, F.G, Forward, Backward, M.fw.store.pool[f].bucket, BucketOf(E.C, u));
    }
  }

  lemma SameVertices<S>(P: Problem<S>, u': Node<S>, u: Node<S>, w': Node<S>, w: Node<S>)
    requires Dominates(P, Forward, u', u) && Dominates(P, Backward, w', w)
    ensures u'.vertex == u.vertex && w'.vertex == w.vertex
  {
  }

  /** A walk that uses the bucket arc justifies it. */
  lemma WalkJustifies<S(!new)>(E: Pass<S>, F: Setup<S>, B: Setup<S>, M: Meeting<S>, s: Store<S>, arrival: seq<Bound>,
                               inv: Invariant<S>,
                               b: nat, e: BucketArc, p: seq<nat>, z: Node<S>, k: nat)
    requires Paired(F, B) && BothFull(F, B) && PassOver(E, F, B, M, s, arrival) && Ready(E.C.P, E.C.G)
    requires Joinable(F.P.pack, F.P.top, inv) && F.P.lb(F.P.top.sink).AtMost(F.P.ub(F.P.top.sink))
    requires F.mid.Fin? && CrossesAt(E.C.P, E.theta, F.mid.val, p, z, k) && p[k] == e.arc && UsedFrom(E.C, b, p, k)
    ensures Justified(E, b, e)
  {
    hide PassOver, PassStores, SetupOk, StoreOk, GridUpTo, BucketOk, Dominates, BucketIndex, Full, Finished, Joinable,
         Meets, OppositeBelow, FeasibleWalk, Crossed, InReach, HandsOn, JoinPair, Target, Open,
         Prefix, Suffix, Justified, Arrives, Paired, MetAfter, Beyond;
    OverParts(E, F, B, M, s, arrival);
    OverFacts(E, F, B, M, s);
    var f, h := CrossingLabels(F, B, M, s, arrival, inv, E.theta, p, z, k);
    var u, w := Prefix(F.P, p, k).value, Suffix(F.P, p[k + 1..]).value;
    AliveIn(M.fw.store, f);
    AliveIn(M.bw.store, h);
    PairBuckets(E, F, B, M, s, f, h, u, w);
    if E.C.dir.Forward? {
      PairJustifies(E, b, e, f, h, BucketOf(E.C, u), BucketOf(E.C, w));
    } else {
      PairJustifies(E, b, e, h, f, BucketOf(E.C, w), BucketOf(E.C, u));
    }
  }

  lemma OverParts<S(!new)>(E: Pass<S>, F: Setup<S>, B: Setup<S>, M: Meeting<S>, s: Store<S>, arrival: seq<Bound>)
    requires Paired(F, B) && PassOver(E, F, B, M, s, arrival)
    ensures PassStores(E, F, B, M, s) && MetAfter(F, B, M, s, arrival) && E.theta <= F.theta
    ensures F.opposite.Some? ==> OppositeBelow(B, s, F.opposite.value)
  {
  }

  lemma AliveIn<S>(s: Store<S>, k: nat)
    requires Alive(s, k)
    ensures k < |s.pool| && s.pool[k].bucket < |s.rows| && k in s.rows[s.pool[k].bucket].ids && k < |s.dominated|
            && !s.dominated[k]
  {
  }

  /** Two stored labels that form a pair justify the arc in every bucket that lies right for them. */
  lemma PairJustifies<S(!new)>(E: Pass<S>, b: nat, e: BucketArc, x: nat, y: nat, near: nat, far: nat)
    requires Ready(E.C.P, E.C.G) && E.C.fixed == {} && Alive(E.own.store, x) && Alive(E.opp.store, y)
             && Pair(E, x, e.arc, y)
    requires Beyond(E.C.P, E.C.G, E.C.dir, E.own.store.pool[x].bucket, near) && Beyond(E.C.P, E.C.G, E.C.dir, near, b)
    requires Arrives(E.C, b, e.arc, far) && Beyond(E.C.P, E.C.G, E.C.dir, far, E.opp.store.pool[y].bucket)
    ensures Justified(E, b, e)
  {
    hide GridUpTo, BucketOk, HandsOn, Pair, Arrives, Beyond;
    var o, c := E.own.store.pool[x].bucket, E.opp.store.pool[y].bucket;
    InGrid(E.C, o, near);
    BeyondOrder(E.C.P, E.C.G, E.C.dir, o, near, b);
    HandsOnFrom(E.C, o, b);
    ArrivesBefore(E.C, b, e.arc, far, c);
    assert Undominated(E.own, o, x) && Undominated(E.opp, c, y);
    assert HasPair(E, x, e.arc, c);
    assert PairFrom(E, o, e.arc, c);
  }

  lemma InGrid<S>(C: Setup<S>, o: nat, b: nat)
    requires Ready(C.P, C.G) && Beyond(C.P, C.G, C.dir, o, b)
    ensures o < |C.G.buckets| && b < |C.G.buckets|
  {
  }

  lemma ArrivesBefore<S(!new)>(C: Setup<S>, d: nat, a: nat, c: nat, c': nat)
    requires Ready(C.P, C.G) && Arrives(C, d, a, c) && Beyond(C.P, C.G, C.dir, c, c')
    ensures Arrives(C, d, a, c')
  {
    hide GridUpTo, BucketOk, Open, Target;
    TargetIs(C, d, a);
    BeyondOrder(C.P, C.G, C.dir, Target(C.P, C.G, C.dir, d, a), c, c');
  }

  // ----- From labels to walks -----

  /** The chains of a pair that joins below theta are a walk that crosses at the joining arc. */
  lemma PairWalk<S(!new)>(F: Setup<S>, B: Setup<S>, M: Meeting<S>, s: Store<S>, inv: Invariant<S>, theta: real,
                          f: nat, a: nat, h: nat)
    returns (p: seq<nat>, z: Node<S>, k: nat)
    requires Paired(F, B) && NoJumps(F) && NoJumps(B) && StoreOk(F, M.fw.store) && StoreOk(B, s)
             && M.bw.store.pool == s.pool
    requires Joinable(F.P.pack, F.P.top, inv) && F.P.lb(F.P.top.sink).AtMost(F.P.ub(F.P.top.sink))
    requires f < |M.fw.store.pool| && h < |s.pool| && JoinPair(F.P, M.fw.store.pool[f].node, a, s.pool[h].node)
    requires M.fw.store.pool[f].node.cost + s.pool[h].node.cost + F.P.cost(a) < theta
    ensures F.mid.Fin? && CrossesAt(F.P, theta, F.mid.val, p, z, k) && p[k] == a
    ensures Prefix(F.P, p, k) == Some(M.fw.store.pool[f].node) && Suffix(F.P, p[k + 1..]) == Some(s.pool[h].node)
  {
    hide TopoOrder, Grouped, StoreOk, Full, Joinable, Run, InitialNode, JoinPair, Suffix, Reversed, NoJumps, Trace,
         Disposable, GridUpTo, InReach;
    var u0 := Sound(F, M.fw.store, f);
    var w0 := SoundSuffix(B, s, h);
    var t, r := Trace(M.fw.store.pool, f), Reversed(Trace(s.pool, h));
    JoinIsWalk(F.P, inv, t, u0, a, r, w0);
    k, p := |t|, t + [a] + r;
    z := Run(F.P, Forward, InitialNode(F.P, Forward).value, p).value;
    assert p[..k] == t && p[k] == a && p[k + 1..] == r;
    forall i: nat | i < k ensures !Crossed(F.P, F.mid.val, p, i) {
      ParentsNotPast(F, M.fw.store, f, i);
      assert p[..i] == t[..i];
    }
    forall j: nat | k + 1 < j <= |p| ensures InReach(F.P, F.mid.val, p, j) { PairInReach(B, s, h, t + [a], j); }
  }

  /** An undominated label of a bucket, on either side. */
  lemma StoredHere<S(!new)>(C: Setup<S>, v: Side<S>, c: nat, k: nat)
    requires SetupOk(C) && StoreOk(C, v.store) && Undominated(v, c, k)
    ensures Ready(C.P, C.G) && k < |v.store.pool| && v.store.pool[k].node.vertex < C.P.nVertices
    ensures c == BucketIndex(C.P, C.G, v.store.pool[k].node.vertex, v.store.pool[k].node.q)
  {
    hide TopoOrder, Grouped, Disposable, GridUpTo, RowOk, BucketIndex, LabelOk;
    assert RowIn(C, v.store, c);
    LabelBucket(C, v.store, k);
  }

  /** What justifies a bucket arc is a walk that uses it. */
  lemma JustifiedByWalk<S(!new)>(E: Pass<S>, F: Setup<S>, B: Setup<S>, M: Meeting<S>, s: Store<S>, inv: Invariant<S>,
                                 b: nat, e: BucketArc)
    requires Paired(F, B) && PassStores(E, F, B, M, s) && Ready(E.C.P, E.C.G) && NoJumps(F) && NoJumps(B)
    requires Joinable(F.P.pack, F.P.top, inv) && F.P.lb(F.P.top.sink).AtMost(F.P.ub(F.P.top.sink)) && F.mid.Fin?
             && Justified(E, b, e)
    ensures WalkUses(E.C, E.theta, F.mid.val, b, e.arc)
  {
    hide *;
    OverFacts(E, F, B, M, s);
    var o, c, x, y := JustifyingPair(E, b, e);
    if E.C.dir.Forward? {
      PairUsed(E, F, B, M, s, inv, b, e.arc, x, y, o, c);
    } else {
      PairUsed(E, F, B, M, s, inv, b, e.arc, y, x, c, o);
    }
  }

  lemma JustifyingPair<S(!new)>(E: Pass<S>, b: nat, e: BucketArc) returns (o: nat, c: nat, x: nat, y: nat)
    requires Ready(E.C.P, E.C.G) && Justified(E, b, e)
    ensures Beyond(E.C.P, E.C.G, E.C.dir, o, b) && Arrives(E.C, b, e.arc, c)
    ensures Undominated(E.own, o, x) && Undominated(E.opp, c, y) && Pair(E, x, e.arc, y)
  {
    hide GridUpTo, BucketOk, HandsOn, Arrives, Beyond, Pair, Undominated;
    o, c :| HandsOn(E.C, o, b) && Arrives(E.C, b, e.arc, c) && PairFrom(E, o, e.arc, c);
    HandsOnFrom(E.C, o, b);
    x :| Undominated(E.own, o, x) && HasPair(E, x, e.arc, c);
    y :| Undominated(E.opp, c, y) && Pair(E, x, e.arc, y);
  }

  /** The walk of a pair of labels, f in bucket o and h in bucket c. */
  lemma PairUsed<S(!new)>(E: Pass<S>, F: Setup<S>, B: Setup<S>, M: Meeting<S>, s: Store<S>, inv: Invariant<S>, b: nat,
                          a: nat,
                          f: nat, h: nat, o: nat, c: nat)
    requires Paired(F, B) && PassStores(E, F, B, M, s) && Ready(E.C.P, E.C.G) && NoJumps(F) && NoJumps(B) && F.mid.Fin?
    requires Joinable(F.P.pack, F.P.top, inv) && F.P.lb(F.P.top.sink).AtMost(F.P.ub(F.P.top.sink))
    requires Undominated(M.fw, o, f) && Undominated(M.bw, c, h)
             && (if E.C.dir.Forward? then Pair(E, f, a, h) else Pair(E, h, a, f))
    requires if E.C.dir.Forward? then Beyond(E.C.P, E.C.G, E.C.dir, o, b) && Arrives(E.C, b, a, c)
             else Beyond(E.C.P, E.C.G, E.C.dir, c, b) && Arrives(E.C, b, a, o)
    ensures WalkUses(E.C, E.theta, F.mid.val, b, a)
  {
    hide SetupOk, StoreOk, GridUpTo, BucketOk, BucketIndex, Full, Finished, Joinable, Meets, OppositeBelow, CrossesAt,
         JoinPair, Arrives, Beyond, Paired, NoJumps,
         PassStores, Undominated, WalkUses, Prefix, Suffix;
    OverFacts(E, F, B, M, s);
    StoredHere(F, M.fw, o, f);
    StoredHere(B, M.bw, c, h);
    var p, z, k := PairWalk(F, B, M, s, inv, E.theta, f, a, h);
    var u, w := M.fw.store.pool[f].node, s.pool[h].node;
    CrossesInside(F.P, E.theta, F.mid.val, p, z, k);
    if E.C.dir.Forward? {
      UsesBy(E.C, E.theta, F.mid.val, b, a, p, z, k, u, w);
    } else {
      UsesBy(E.C, E.theta, F.mid.val, b, a, p, z, k, w, u);
    }
  }

  lemma CrossesInside<S>(P: Problem<S>, theta: real, mid: real, p: seq<nat>, z: Node<S>, k: nat)
    requires CrossesAt(P, theta, mid, p, z, k)
    ensures k < |p|
  {
  }

  lemma UsesBy<S(!new)>(C: Setup<S>, theta: real, mid: real, b: nat, a: nat, p: seq<nat>, z: Node<S>, k: nat,
                        u: Node<S>, w: Node<S>)
    requires Ready(C.P, C.G) && CrossesAt(C.P, theta, mid, p, z, k) && k < |p| && p[k] == a
    requires (if C.dir.Forward? then Prefix(C.P, p, k) == Some(u) && Suffix(C.P, p[k + 1..]) == Some(w)
               else Prefix(C.P, p, k) == Some(w) && Suffix(C.P, p[k + 1..]) == Some(u))
    requires u.vertex < C.P.nVertices && w.vertex < C.P.nVertices && Beyond(C.P, C.G, C.dir, BucketOf(C, u), b)
             && Arrives(C, b, a, BucketOf(C, w))
    ensures WalkUses(C, theta, mid, b, a)
  {
    hide GridUpTo, BucketOk, BucketIndex, Beyond, Arrives, CrossesAt, Prefix, Suffix;
    assert UsedFrom(C, b, p, k);
  }

  /**
   * What label-based elimination keeps, in both directions: a bucket arc is justified exactly if some walk below
   * theta takes its arc at a position up to which no label but the last has crossed the midpoint, and behind
   * which everything is in reach of the backward search, from a bucket no later and to a bucket no earlier.
   */
  lemma JustifiedIffWalk<S(!new)>(E: Pass<S>, F: Setup<S>, B: Setup<S>, M: Meeting<S>, s: Store<S>,
                                  arrival: seq<Bound>, inv: Invariant<S>, b: nat, e: BucketArc)
    requires Paired(F, B) && BothFull(F, B) && PassOver(E, F, B, M, s, arrival) && Ready(E.C.P, E.C.G) && NoJumps(F)
             && NoJumps(B)
    requires Joinable(F.P.pack, F.P.top, inv) && F.P.lb(F.P.top.sink).AtMost(F.P.ub(F.P.top.sink)) && F.mid.Fin?
    ensures Justified(E, b, e) <==> WalkUses(E.C, E.theta, F.mid.val, b, e.arc)
  {
    hide *;
    OverParts(E, F, B, M, s, arrival);
    if Justified(E, b, e) { JustifiedByWalk(E, F, B, M, s, inv, b, e); }
    if WalkUses(E.C, E.theta, F.mid.val, b, e.arc) {
      var p, z, k := UsingWalk(E.C, E.theta, F.mid.val, b, e.arc);
      OverFacts(E, F, B, M, s);
      WalkJustifies(E, F, B, M, s, arrival, inv, b, e, p, z, k);
    }
  }

  lemma UsingWalk<S(!new)>(C: Setup<S>, theta: real, mid: real, b: nat, a: nat)
    returns (p: seq<nat>, z: Node<S>, k: nat)
    requires Ready(C.P, C.G) && WalkUses(C, theta, mid, b, a)
    ensures CrossesAt(C.P, theta, mid, p, z, k) && k < |p| && p[k] == a && UsedFrom(C, b, p, k)
  {
    hide FeasibleWalk, Crossed, InReach, UsedFrom;
    p, z, k :| CrossesAt(C.P, theta, mid, p, z, k) && p[k] == a && UsedFrom(C, b, p, k);
  }
}
