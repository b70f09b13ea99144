/**
 * Which arc sequences a bucket graph lets labels follow, over its bucket arcs and its jump arcs, and that labeling
 * follows no others and finds the best of these.
 */
module Threads {
  import opened Types
  import opened Resources
  import opened Problems
  import opened Grids
  import opened BucketArcs
  import opened BucketOrder
  import opened LabelStores
  import opened LabelingSpec
  import opened Exactness
  import opened JumpArcSearch

  /** The bucket of y lets it move on over arc a to z. */
  ghost predicate Moves<S>(C: Setup<S>, y: Node<S>, a: nat, z: Node<S>)
    requires Ready(C.P, C.G)
  {
    && y.vertex < C.P.nVertices && a < C.P.nArcs && C.P.top.Tail(C.dir, a) == y.vertex && !PastMid(C, y.q)
    && exists base :: ExtendsFrom(C, BucketOf(C, y), y, a, base, z)
  }

  function Front(t: seq<nat>): seq<nat>
    requires t != []
  {
    t[..|t| - 1]
  }

  /** The bucket graph lets a label follow the arcs t to z. No labels and no dominance are involved. */
  ghost predicate Threaded<S(!new)>(C: Setup<S>, t: seq<nat>, z: Node<S>)
    requires Ready(C.P, C.G)
    decreases |t|
  {
    if t == [] then InitialNode(C.P, C.dir) == Some(z)
    else exists y :: Threaded(C, Front(t), y) && Moves(C, y, t[|t| - 1], z)
  }

  /** The bucket where z lands takes labels in. */
  ghost predicate Lands<S>(C: Setup<S>, t: seq<nat>, z: Node<S>)
    requires Ready(C.P, C.G)
  {
    z.vertex < C.P.nVertices && (t == [] || BucketOf(C, z) !in C.fixed)
  }

  // ----- Labels follow nothing else -----

  lemma ThreadOne<S(!new)>(C: Setup<S>, t: seq<nat>, y: Node<S>, a: nat, z: Node<S>)
    requires Ready(C.P, C.G) && Threaded(C, t, y) && Moves(C, y, a, z)
    ensures Threaded(C, t + [a], z)
  {
    hide Moves;
    assert Front(t + [a]) == t;
  }

  lemma {:induction false} ChainThreaded<S(!new)>(C: Setup<S>, pool: seq<Label<S>>, i: nat)
    requires Layout(C) && PoolOk(C, pool) && i < |pool|
    ensures Threaded(C, Trace(pool, i), pool[i].node)
    decreases i
  {
    hide TopoOrder, Grouped, ExtendsFrom, BucketIndex, Threaded;
    assert LabelOk(C, pool, i);
    var L := pool[i];
    if L.parent < 0 {
      assert Threaded(C, [], L.node) by { RootThreaded(C, L.node); }
    } else {
      assert LabelOk(C, pool, L.parent);
      ChainThreaded(C, pool, L.parent);
      ThreadOne(C, Trace(pool, L.parent), pool[L.parent].node, L.arc, L.node);
    }
  }

  lemma RootThreaded<S(!new)>(C: Setup<S>, z: Node<S>)
    requires Ready(C.P, C.G) && InitialNode(C.P, C.dir) == Some(z)
    ensures Threaded(C, [], z)
  {
  }

  /** A stored label has followed its parent chain through the bucket graph, and landed in an open bucket. */
  lemma StoredThreaded<S(!new)>(C: Setup<S>, s: Store<S>, k: nat)
    requires SetupOk(C) && StoreOk(C, s) && Alive(s, k)
    ensures Threaded(C, Trace(s.pool, k), s.pool[k].node) && Lands(C, Trace(s.pool, k), s.pool[k].node)
  {
    hide TopoOrder, Grouped, Disposable, Threaded;
    ChainThreaded(C, s.pool, k);
    assert LabelOk(C, s.pool, k) && RowIn(C, s, s.pool[k].bucket);
  }

  /** Following arcs through the bucket graph is feasible, and costs the same with every jump left out. */
  lemma {:induction false} ThreadIsTrue<S(!new)>(C: Setup<S>, t: seq<nat>, z: Node<S>) returns (n0: Node<S>)
    requires Ready(C.P, C.G) && Threaded(C, t, z)
    ensures TrueLabel(C, t, n0, z)
    decreases |t|
  {
    hide Extend, TrueLabel, Moves, Ready;
    if t == [] {
      n0 := z;
      RootIsTrue(C, z);
    } else {
      var y :| Threaded(C, Front(t), y) && Moves(C, y, t[|t| - 1], z);
      var m := ThreadIsTrue(C, Front(t), y);
      n0 := MoveIsTrue(C, Front(t), m, y, t[|t| - 1], z);
      assert Front(t) + [t[|t| - 1]] == t;
    }
  }

  lemma RootIsTrue<S>(C: Setup<S>, z: Node<S>)
    requires InitialNode(C.P, C.dir) == Some(z)
    ensures TrueLabel(C, [], z, z)
  {
  }

  lemma MoveIsTrue<S>(C: Setup<S>, t: seq<nat>, m: Node<S>, y: Node<S>, a: nat, z: Node<S>) returns (n0: Node<S>)
    requires Ready(C.P, C.G) && TrueLabel(C, t, m, y) && Moves(C, y, a, z)
    ensures TrueLabel(C, t + [a], n0, z)
  {
    hide Extend, TrueLabel, Ready, Offers;
    var base :| ExtendsFrom(C, BucketOf(C, y), y, a, base, z);
    TrueStep(C, t, m, y, a, base);
    n0 := Extend(C.P, C.dir, m, a, m.q).value;
  }

  // ----- Labels follow all of it, up to dominance -----

  /** Whatever lies behind a fixed bucket is fixed. */
  ghost predicate FixedClosed<S(!new)>(C: Setup<S>)
    requires SetupOk(C)
  {
    forall b: nat, c: nat :: b in C.fixed && Beyond(C.P, C.G, C.dir, b, c) ==> c in C.fixed
  }

  /** Spending more of a main resource than needed keeps a label comparable, or is never done. */
  ghost predicate WaitsOrNoJumps<S>(C: Setup<S>) { NoJumps(C) || (!C.P.nondisposableX && !C.P.nondisposableY) }

  /** Waiting for a jump bucket that y has passed, or waits for, keeps m ahead of y. */
  lemma BoostBehind<S>(C: Setup<S>, d: nat, e: nat, q: Vec, r: Vec)
    requires Ready(C.P, C.G) && Beyond(C.P, C.G, C.dir, d, e) && QNoWorse(C.P, C.dir, q, r)
    ensures Ahead(C.dir, Corner(C.dir, C.G.buckets[e]), r) ==> QNoWorse(C.P, C.dir, Boost(C.dir, q, C.G.buckets[d]), r)
    ensures !C.P.nondisposableX && !C.P.nondisposableY ==>
              QNoWorse(C.P, C.dir, Boost(C.dir, q, C.G.buckets[d]), Boost(C.dir, r, C.G.buckets[e]))
  {
    hide BucketOk, RangeOk;
    CornerMonotone(C.P, C.G, C.dir, d, e);
  }

  /** Bucket b has arc a itself, or a jump arc to a front bucket at or before e, which comes after b and has it. */
  lemma ArcOrFront<S>(C: Setup<S>, b: nat, e: nat, a: nat) returns (d: nat)
    requires Ready(C.P, C.G) && |C.arcs| == |C.jumps| == |C.G.buckets| && JumpsExact(C)
    requires b < |C.arcs| && b !in C.fixed && Beyond(C.P, C.G, C.dir, b, e) && HasArc(C, e, a)
    ensures HasArc(C, b, a) || (JumpsOver(C, b, a, d) && Beyond(C.P, C.G, C.dir, d, e))
  {
    hide BucketOk, RangeOk, GridUpTo, HasArc;
    d := e;
    if !HasArc(C, b, a) {
      d := FrontCovers(C, b, a, e);
      assert JumpsOf(C, b, C.jumps[b]) && JumpsTo(C, b, JumpArc(d, a));
    }
  }

  /** m, in an earlier bucket, can move over a from no worse a base: over the arc itself, or by a jump on the front. */
  lemma OfferedEarlier<S(!new)>(C: Setup<S>, m: Node<S>, y: Node<S>, a: nat, base: Vec) returns (p: Vec)
    requires Layout(C) && JumpsExact(C) && WaitsOrNoJumps(C)
    requires y.vertex == m.vertex < C.P.nVertices && Anchored(C.P, C.dir, y.vertex, y.q)
    requires QNoWorse(C.P, C.dir, m.q, y.q) && BucketOf(C, m) !in C.fixed
    requires Offers(C, BucketOf(C, y), a, y.q, base)
    ensures QNoWorse(C.P, C.dir, p, base) && Offers(C, BucketOf(C, m), a, m.q, p)
  {
    hide TopoOrder, Grouped, FullArcs, GridUpTo, HasArc, BucketIndex, JumpsExact, NoJumps, QNoWorse, Boost;
    var b, c := BucketOf(C, m), BucketOf(C, y);
    QAhead(C, m.q, y.q);
    BucketMonotone(C.P, C.G, C.dir, m.vertex, m.q, y.q);
    BucketHolds(C.P, C.G, C.dir, y.vertex, y.q);
    if base == y.q && HasArc(C, c, a) {
      var d := ArcOrFront(C, b, c, a);
      if HasArc(C, b, a) { p := m.q; } else {
        p := Boost(C.dir, m.q, C.G.buckets[d]);
        BoostBehind(C, d, c, m.q, y.q);
      }
    } else {
      var e: nat :| JumpsOver(C, c, a, e) && base == Boost(C.dir, y.q, C.G.buckets[e]);
      JumpHolder(C, c, e, a);
      BeyondOrder(C.P, C.G, C.dir, b, c, e);
      BeyondOrder(C.P, C.G, C.dir, e, e, e);
      var d := ArcOrFront(C, b, e, a);
      if HasArc(C, b, a) {
        p := m.q;
        BoostAhead(C, e, m.q, y.q);
      } else {
        p := Boost(C.dir, m.q, C.G.buckets[d]);
        BoostBehind(C, d, e, m.q, y.q);
      }
    }
  }

  lemma QAhead<S>(C: Setup<S>, q: Vec, r: Vec)
    requires QNoWorse(C.P, C.dir, q, r)
    ensures Ahead(C.dir, q, r)
  {
  }

  lemma BoostAhead<S>(C: Setup<S>, e: nat, q: Vec, r: Vec)
    requires e < |C.G.buckets| && QNoWorse(C.P, C.dir, q, r) && !C.P.nondisposableX && !C.P.nondisposableY
    ensures QNoWorse(C.P, C.dir, q, Boost(C.dir, r, C.G.buckets[e]))
  {
  }

  /** A jump arc leads to a bucket behind that has the arc, and there are jump arcs. */
  lemma JumpHolder<S>(C: Setup<S>, b: nat, e: nat, a: nat)
    requires Ready(C.P, C.G) && |C.arcs| == |C.jumps| == |C.G.buckets| && JumpsExact(C) && JumpsOver(C, b, a, e)
    ensures Beyond(C.P, C.G, C.dir, b, e) && HasArc(C, e, a) && !NoJumps(C)
  {
    hide BucketOk, RangeOk, GridUpTo, HasArc;
    assert JumpsOf(C, b, C.jumps[b]) && JumpsTo(C, b, JumpArc(e, a));
  }

  /** The extension of a stored label over what its bucket offers is covered, if it lands in an open bucket. */
  lemma ChildCovered<S(!new)>(C: Setup<S>, s: Store<S>, k: nat, a: nat, p: Vec)
    requires SetupOk(C) && Finished(C, s) && Unlimited(C) && Alive(s, k)
    requires s.pool[k].bucket < |C.arcs| && Offers(C, s.pool[k].bucket, a, s.pool[k].node.q, p)
    ensures ChildDone(C, s, s.pool[k].node, a, p)
  {
    hide TopoOrder, Grouped, Disposable, Extend, Covered, ChildDone, FullArcs, Boost;
    var L := s.pool[k];
    assert Closed(C, s, L.bucket) && Handled(C, s, k);
    assert s.extended[k];
    assert Expanded(C, s, k);
  }

  /** One move of the bucket graph from a covered label leads to a covered label. */
  lemma CoverMove<S(!new)>(C: Setup<S>, s: Store<S>, y: Node<S>, a: nat, z: Node<S>)
    requires SetupOk(C) && Finished(C, s) && Unlimited(C) && JumpsExact(C) && WaitsOrNoJumps(C)
    requires Covered(C, s, y) && Anchored(C.P, C.dir, y.vertex, y.q) && Moves(C, y, a, z) && ClearTo(C, z)
    requires forall u :: InitialNode(C.P, C.dir) == Some(u) && u.vertex < C.P.nVertices ==> BucketOf(C, u) !in C.fixed
    ensures Covered(C, s, z)
  {
    hide TopoOrder, Grouped, Disposable, Extend, Finished, JumpsExact, WaitsOrNoJumps, Offers, Dominates, ChildDone,
         BucketIndex;
    var base :| ExtendsFrom(C, BucketOf(C, y), y, a, base, z);
    var k: nat :| Alive(s, k) && Dominates(C.P, C.dir, s.pool[k].node, y);
    var m := s.pool[k].node;
    StoredAt(C, s, k);
    Earlier(C, m, y);
    var p := OfferedEarlier(C, m, y, a, base);
    ChildCovered(C, s, k, a, p);
    DominatesExtend(C.P, C.dir, m, p, y, base, a);
    var x := Extend(C.P, C.dir, m, a, p).value;
    Earlier(C, x, z);
    ChildKept(C, s, m, a, p);
    CoverFrom(C, s, x, z);
  }

  lemma StoredAt<S(!new)>(C: Setup<S>, s: Store<S>, k: nat)
    requires SetupOk(C) && Finished(C, s) && Alive(s, k)
    ensures s.pool[k].node.vertex < C.P.nVertices && s.pool[k].bucket == BucketOf(C, s.pool[k].node) < |C.arcs|
    ensures s.pool[k].bucket in C.fixed ==> InitialNode(C.P, C.dir) == Some(s.pool[k].node)
  {
    hide Disposable, TopoOrder, Grouped, BucketIndex, AllExpanded, Closed;
    assert LabelOk(C, s.pool, k) && RowIn(C, s, s.pool[k].bucket);
  }

  /** A label that dominates one behind no fixed bucket is in an open bucket. */
  lemma Earlier<S(!new)>(C: Setup<S>, m: Node<S>, y: Node<S>)
    requires SetupOk(C) && y.vertex < C.P.nVertices && Dominates(C.P, C.dir, m, y)
    ensures m.vertex == y.vertex && QNoWorse(C.P, C.dir, m.q, y.q)
    ensures ClearTo(C, y) ==> BucketOf(C, m) !in C.fixed
  {
    hide TopoOrder, Grouped, Disposable, BucketIndex, GridUpTo;
    QAhead(C, m.q, y.q);
    BucketMonotone(C.P, C.G, C.dir, y.vertex, m.q, y.q);
  }

  lemma OpenHere<S>(C: Setup<S>, y: Node<S>, a: nat, base: Vec)
    requires Ready(C.P, C.G) && y.vertex < C.P.nVertices && Offers(C, BucketOf(C, y), a, y.q, base)
    ensures BucketOf(C, y) !in C.fixed
  {
  }

  lemma ChildKept<S(!new)>(C: Setup<S>, s: Store<S>, m: Node<S>, a: nat, p: Vec)
    requires SetupOk(C) && Unlimited(C) && ChildDone(C, s, m, a, p) && Extend(C.P, C.dir, m, a, p).Some?
    ensures var x := Extend(C.P, C.dir, m, a, p).value;
            x.vertex < C.P.nVertices && (BucketOf(C, x) !in C.fixed ==> Covered(C, s, x))
  {
    hide TopoOrder, Grouped, Disposable, BucketIndex, GridUpTo, Extend, Covered;
  }

  /** The bucket of z is open, and so are all before it. */
  ghost predicate ClearTo<S>(C: Setup<S>, z: Node<S>)
    requires Ready(C.P, C.G)
  {
    z.vertex < C.P.nVertices && forall b: nat :: b in C.fixed ==> !Beyond(C.P, C.G, C.dir, b, BucketOf(C, z))
  }

  /** The bucket graph lets a label follow t to z, never landing behind a fixed bucket. */
  ghost predicate FreeThread<S(!new)>(C: Setup<S>, t: seq<nat>, z: Node<S>)
    requires Ready(C.P, C.G)
    decreases |t|
  {
    if t == [] then InitialNode(C.P, C.dir) == Some(z)
    else exists y :: FreeThread(C, Front(t), y) && Moves(C, y, t[|t| - 1], z) && ClearTo(C, z)
  }

  lemma {:induction false} FreeIsThreaded<S(!new)>(C: Setup<S>, t: seq<nat>, z: Node<S>)
    requires Ready(C.P, C.G) && FreeThread(C, t, z)
    ensures Threaded(C, t, z)
    decreases |t|
  {
    hide Ready, Moves, ClearTo;
    if t != [] {
      var y :| FreeThread(C, Front(t), y) && Moves(C, y, t[|t| - 1], z) && ClearTo(C, z);
      FreeIsThreaded(C, Front(t), y);
    }
  }

  /** With nothing open behind a fixed bucket it makes no difference. */
  lemma {:induction false} ClosedIsFree<S(!new)>(C: Setup<S>, t: seq<nat>, z: Node<S>)
    requires SetupOk(C) && FixedClosed(C) && Threaded(C, t, z) && Lands(C, t, z)
    ensures FreeThread(C, t, z)
    decreases |t|
  {
    hide TopoOrder, Grouped, Disposable, GridUpTo, Extend, BucketIndex, BucketOk;
    if t != [] {
      var y :| Threaded(C, Front(t), y) && Moves(C, y, t[|t| - 1], z);
      var base :| ExtendsFrom(C, BucketOf(C, y), y, t[|t| - 1], base, z);
      OpenHere(C, y, t[|t| - 1], base);
      ClosedIsFree(C, Front(t), y);
      assert ClearTo(C, z);
    }
  }

  /** What labels follow starts in an open bucket. */
  lemma {:induction false} StartOpen<S(!new)>(C: Setup<S>, t: seq<nat>, z: Node<S>)
    requires Ready(C.P, C.G) && Threaded(C, t, z) && t != []
    ensures InitialNode(C.P, C.dir).Some?
    ensures var u := InitialNode(C.P, C.dir).value; u.vertex < C.P.nVertices && BucketOf(C, u) !in C.fixed
    decreases |t|
  {
    hide Ready, Extend, BucketIndex, InitialNode;
    var y :| Threaded(C, Front(t), y) && Moves(C, y, t[|t| - 1], z);
    if Front(t) == [] {
      var base :| ExtendsFrom(C, BucketOf(C, y), y, t[|t| - 1], base, z);
      OpenHere(C, y, t[|t| - 1], base);
    } else {
      StartOpen(C, Front(t), y);
    }
  }

  /**
   * Whatever the bucket graph lets a label follow without landing behind a fixed bucket, some stored label has an end
   * at least as good.
   */
  lemma {:induction false} CoverThread<S(!new)>(C: Setup<S>, s: Store<S>, t: seq<nat>, z: Node<S>)
    requires SetupOk(C) && Finished(C, s) && Unlimited(C) && JumpsExact(C) && WaitsOrNoJumps(C)
    requires FreeThread(C, t, z)
    ensures Covered(C, s, z)
    decreases |t|
  {
    hide TopoOrder, Grouped, Disposable, JumpsExact, WaitsOrNoJumps, Covered, Unlimited, BucketIndex, Extend, Moves,
         ClearTo, Threaded, InitialNode, StoreOk, AllExpanded, Closed;
    if t != [] {
      var y :| FreeThread(C, Front(t), y) && Moves(C, y, t[|t| - 1], z) && ClearTo(C, z);
      FreeIsThreaded(C, t, z);
      StartOpen(C, t, z);
      FreeIsThreaded(C, Front(t), y);
      var n0 := ThreadIsTrue(C, Front(t), y);
      TrueAnchored(C, Front(t), n0, y);
      CoverThread(C, s, Front(t), y);
      CoverMove(C, s, y, t[|t| - 1], z);
    }
  }

  // ----- When the best path is found -----

  /** The bucket graph lets a label follow t to the sink. */
  ghost predicate SinkThread<S(!new)>(C: Setup<S>, t: seq<nat>, z: Node<S>)
    requires Ready(C.P, C.G)
  {
    Threaded(C, t, z) && Lands(C, t, z) && z.vertex == C.P.top.sink
  }

  /** Some way to the sink that the bucket graph allows costs no more than z. */
  ghost predicate WayWithin<S(!new)>(C: Setup<S>, z: Node<S>)
    requires Ready(C.P, C.G)
  {
    exists t, y :: SinkThread(C, t, y) && y.cost <= z.cost
  }

  /** So it is for every feasible walk that matters. */
  ghost predicate Reaches<S(!new)>(C: Setup<S>, bound: real)
    requires SetupOk(C)
  {
    forall arcs, z :: FeasibleWalk(C.P, arcs, z) && z.cost < C.theta && z.cost <= bound ==> WayWithin(C, z)
  }

  /** The same by ways that do not land behind fixed buckets. */
  ghost predicate ReachesFreely<S(!new)>(C: Setup<S>, bound: real)
    requires SetupOk(C)
  {
    forall arcs, z :: FeasibleWalk(C.P, arcs, z) && z.cost < C.theta && z.cost <= bound ==> FreeWithin(C, z)
  }

  ghost predicate FreeWithin<S(!new)>(C: Setup<S>, z: Node<S>)
    requires Ready(C.P, C.G)
  {
    exists t, y :: FreeThread(C, t, y) && y.vertex == C.P.top.sink && y.cost <= z.cost
  }

  /** Jump arcs are complete and consistent with dominance. */
  ghost predicate Sweeping<S(!new)>(C: Setup<S>)
    requires SetupOk(C)
  {
    JumpsExact(C) && WaitsOrNoJumps(C)
  }

  lemma ReachesClosed<S(!new)>(C: Setup<S>, bound: real)
    requires SetupOk(C) && FixedClosed(C) && Reaches(C, bound)
    ensures ReachesFreely(C, bound)
  {
    hide TopoOrder, Grouped, Disposable, FixedClosed, Threaded, FreeThread, Lands, FeasibleWalk;
    forall arcs, z | FeasibleWalk(C.P, arcs, z) && z.cost < C.theta && z.cost <= bound ensures FreeWithin(C, z) {
      assert WayWithin(C, z);
      var t, y :| SinkThread(C, t, y) && y.cost <= z.cost;
      ClosedIsFree(C, t, y);
    }
  }

  /** The end of the cheapest such way is stored. */
  lemma SinkCovered<S(!new)>(C: Setup<S>, s: Store<S>, t: seq<nat>, y: Node<S>) returns (k: nat)
    requires SetupOk(C) && Finished(C, s) && Unlimited(C) && Sweeping(C)
    requires FreeThread(C, t, y) && y.vertex == C.P.top.sink
    ensures Alive(s, k) && s.pool[k].node.vertex == C.P.top.sink && s.pool[k].node.cost <= y.cost
  {
    hide Finished, FreeThread, Layout, Dominates;
    CoverThread(C, s, t, y);
    k :| Alive(s, k) && Dominates(C.P, C.dir, s.pool[k].node, y);
    DominatesIff(C.P, C.dir, s.pool[k].node, y);
  }

  /** Nothing leaves the initial bucket. */
  lemma {:induction false} CutOff<S(!new)>(C: Setup<S>, t: seq<nat>, z: Node<S>)
    requires Ready(C.P, C.G) && Threaded(C, t, z)
    requires forall n :: InitialNode(C.P, C.dir) == Some(n) && n.vertex < C.P.nVertices ==>
      BucketOf(C, n) < |C.arcs| && BucketOf(C, n) < |C.jumps| && C.arcs[BucketOf(C, n)] == []
      && C.jumps[BucketOf(C, n)] == []
    ensures t == [] && InitialNode(C.P, C.dir) == Some(z)
    decreases |t|
  {
    hide Ready, BucketIndex, Extend, InitialNode;
    if t != [] {
      var y :| Threaded(C, Front(t), y) && Moves(C, y, t[|t| - 1], z);
      CutOff(C, Front(t), y);
    }
  }

  /** Filtering labels past the midpoint does not change where labels may go. */
  lemma {:induction false} SameThreads<S(!new)>(C: Setup<S>, D: Setup<S>, t: seq<nat>, z: Node<S>)
    requires Ready(C.P, C.G) && D == C.(opposite := D.opposite)
    ensures Threaded(D, t, z) <==> Threaded(C, t, z)
    decreases |t|
  {
    hide Ready, Moves;
    if t != [] {
      forall y ensures Threaded(D, Front(t), y) <==> Threaded(C, Front(t), y) { SameThreads(C, D, Front(t), y); }
      var a := t[|t| - 1];
      forall y ensures Moves(D, y, a, z) <==> Moves(C, y, a, z) { SameMoves(C, D, y, a, z); }
    }
  }

  lemma SameMoves<S>(C: Setup<S>, D: Setup<S>, y: Node<S>, a: nat, z: Node<S>)
    requires Ready(C.P, C.G) && D == C.(opposite := D.opposite)
    ensures Moves(D, y, a, z) <==> Moves(C, y, a, z)
  {
    hide Ready, BucketIndex, Extend, HasArc, JumpsOver;
    if y.vertex < C.P.nVertices {
      var b := BucketOf(C, y);
      SameOffers(C, D, b, a);
      forall base ensures ExtendsFrom(D, b, y, a, base, z) <==> ExtendsFrom(C, b, y, a, base, z) {}
      assert BucketOf(D, y) == b;
    }
  }

  lemma SameOffers<S>(C: Setup<S>, D: Setup<S>, b: nat, a: nat)
    requires D == C.(opposite := D.opposite)
    ensures NoJumps(D) <==> NoJumps(C)
    ensures b < |C.arcs| ==> (HasArc(D, b, a) <==> HasArc(C, b, a))
    ensures forall d: nat :: JumpsOver(D, b, a, d) <==> JumpsOver(C, b, a, d)
  {
  }
}
