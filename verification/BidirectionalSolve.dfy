/**
 * The bidirectional solve as a whole: pruning, concatenation, selection and realisation (solve_bidirectional,
 * realize_path).
 */
module BidirectionalSolve {
  import opened Types
  import opened Resources
  import opened Problems
  import opened Grids
  import opened BucketArcs
  import opened BucketOrder
  import opened Sorting
  import opened LabelStores
  import opened LabelingSpec
  import opened CBests
  import opened Clearances
  import opened Exactness
  import opened Threads
  import opened Paths
  import opened Labeling
  import opened LabelCounts
  import opened Caps
  import opened Solving
  import opened Joins
  import opened Concat
  import opened Pruning
  import opened Bidirectional

  // ----- Paths -----

  lemma InitialReal<S>(P: Problem<S>, dir: Direction)
    requires InitialNode(P, dir).Some?
    ensures InitialNode(P, dir).value.realCost == 0.0
  {
  }

  function BaseCost<S>(P: Problem<S>, arcs: seq<nat>): real {
    if arcs == [] then 0.0 else P.baseCost(arcs[0]) + BaseCost(P, arcs[1..])
  }

  lemma {:induction false} RunReal<S>(P: Problem<S>, dir: Direction, n: Node<S>, arcs: seq<nat>)
    requires Run(P, dir, n, arcs).Some?
    ensures Run(P, dir, n, arcs).value.realCost == n.realCost + BaseCost(P, arcs)
    decreases |arcs|
  {
    if arcs != [] { RunReal(P, dir, Step(P, dir, n, arcs[0]).value, arcs[1..]); }
  }

  lemma {:induction false} BaseCostAppend<S>(P: Problem<S>, p: seq<nat>, t: seq<nat>)
    ensures BaseCost(P, p + t) == BaseCost(P, p) + BaseCost(P, t)
  {
    if p == [] {
      assert p + t == t;
    } else {
      assert (p + t)[0] == p[0] && (p + t)[1..] == p[1..] + t;
      BaseCostAppend(P, p[1..], t);
    }
  }

  lemma {:induction false} BaseCostReversed<S>(P: Problem<S>, t: seq<nat>)
    ensures BaseCost(P, Reversed(t)) == BaseCost(P, t)
  {
    if t != [] {
      BaseCostAppend(P, Reversed(t[1..]), [t[0]]);
      BaseCostReversed(P, t[1..]);
      assert [t[0]][1..] == [];
    }
  }

  /** Both costs of a joined walk are the sums of the parts. */
  lemma JoinedReal<S(!new)>(P: Problem<S>, p: seq<nat>, u: Node<S>, a: nat, t: seq<nat>, w: Node<S>)
    requires InitialNode(P, Forward).Some? && Run(P, Forward, InitialNode(P, Forward).value, p) == Some(u)
    requires Suffix(P, t) == Some(w) && Run(P, Forward, InitialNode(P, Forward).value, p + [a] + t).Some?
    ensures Run(P, Forward, InitialNode(P, Forward).value, p + [a] + t).value.realCost == u.realCost + w.realCost
            + P.baseCost(a)
  {
    var start := InitialNode(P, Forward).value;
    InitialReal(P, Forward);
    InitialReal(P, Backward);
    RunReal(P, Forward, start, p);
    RunReal(P, Forward, start, p + [a] + t);
    RunReal(P, Backward, InitialNode(P, Backward).value, Reversed(t));
    BaseCostReversed(P, t);
    BaseCostAppend(P, p + [a], t);
    BaseCostAppend(P, p, [a]);
    assert [a][1..] == [];
  }

  lemma ConnectsJoin(top: Topology, v1: seq<nat>, a1: seq<nat>, a: nat, v2: seq<nat>, a2: seq<nat>)
    requires Connects(top, Forward, v1, a1) && Connects(top, Forward, v2, a2)
    requires top.from(a) == v1[|a1|] && top.to(a) == v2[0]
    ensures Connects(top, Forward, v1 + v2, a1 + [a] + a2)
    ensures (v1 + v2)[0] == v1[0] && (v1 + v2)[|a1 + [a] + a2|] == v2[|a2|]
  {
    var v, e := v1 + v2, a1 + [a] + a2;
    forall i: nat | i < |e| ensures top.Tail(Forward, e[i]) == v[i] && top.Head(Forward, e[i]) == v[i + 1] {
      if i < |a1| {
        assert e[i] == a1[i];
      } else if i > |a1| {
        assert e[i] == a2[i - |a1| - 1];
      }
    }
  }

  /** The suffix a backward label stands for. */
  lemma SoundSuffix<S(!new)>(B: Setup<S>, s: Store<S>, b: nat) returns (w0: Node<S>)
    requires SetupOk(B) && StoreOk(B, s) && B.dir.Backward? && b < |s.pool|
    ensures Suffix(B.P, Reversed(Trace(s.pool, b))) == Some(w0) && Delayed(Backward, w0, s.pool[b].node)
    ensures NoJumps(B) ==> w0 == s.pool[b].node
  {
    hide TopoOrder, Grouped, Disposable;
    w0 := Sound(B, s, b);
    ReversedTwice(Trace(s.pool, b));
  }

  /** The arcs a candidate is realised as. */
  function ArcsOf<S>(M: Meeting<S>, c: Candidate): seq<nat> {
    if c.join.None? then Trace(M.fw.store.pool, c.fw)
    else Trace(M.fw.store.pool, c.fw) + [c.join.value.arc] + Reversed(Trace(M.bw.store.pool, c.join.value.bw))
  }

  lemma JoinArcs<S>(M: Meeting<S>, c: Candidate)
    requires c.join.Some?
    ensures ArcsOf(M, c) == Trace(M.fw.store.pool, c.fw) + [c.join.value.arc]
            + Reversed(Trace(M.bw.store.pool, c.join.value.bw))
  {
  }

  /** realize_path: the forward chain, the arc, the backward chain. */
  method RealiseJoin<S(!new)>(F: Setup<S>, B: Setup<S>, M: Meeting<S>, ghost s: Store<S>, c: Candidate,
                              ghost inv: Invariant<S>) returns (p: Path)
    requires Paired(F, B) && M.P == F.P && StoreOk(F, M.fw.store) && StoreOk(B, s) && M.bw.store.pool == s.pool
    requires Joinable(F.P.pack, F.P.top, inv) && F.P.lb(F.P.top.sink).AtMost(F.P.ub(F.P.top.sink))
    requires Emitted(M, c)
    ensures Realises(F.P, p) && p.reducedCost == c.reducedCost && p.arcs == ArcsOf(M, c)
  {
    hide *;
    PairedFacts(F, B);
    EmittedFacts(M, c);
    var a, b := c.join.value.arc, c.join.value.bw;
    StoreChains(F, M.fw.store);
    StoreChains(B, s);
    var v1, a1 := GetPath(M.fw.store.pool, c.fw);
    var v2, a2 := GetBackwardSubpath(M.bw.store.pool, b);
    JoinConnects(F, B, M, s, c.fw, a, b);
    p := Path(v1 + [F.P.top.to(a)] + v2[1..], a1 + [a] + a2, c.reducedCost, c.originalCost);
    JoinArcs(M, c);
    JoinRealises(F, B, M, s, c, inv);
    RealisesOf(F.P, p);
  }

  lemma EmittedFacts<S>(M: Meeting<S>, c: Candidate)
    requires Emitted(M, c)
    ensures c.join.Some? && c.fw < |M.fw.store.pool| && c.join.value.bw < |M.bw.store.pool|
    ensures Emits(M, c.fw, c.join.value.arc, c.join.value.bw)
  {
  }

  lemma RealisesOf<S(!new)>(P: Problem<S>, p: Path)
    requires Connects(P.top, Forward, p.vertices, p.arcs) && p.vertices[0] == P.top.source
             && p.vertices[|p.arcs|] == P.top.sink
    requires exists z :: FeasibleWalk(P, p.arcs, z) && z.cost == p.reducedCost && z.realCost == p.originalCost
    ensures Realises(P, p)
  {
  }

  lemma JoinConnects<S(!new)>(F: Setup<S>, B: Setup<S>, M: Meeting<S>, s: Store<S>, f: nat, a: nat, b: nat)
    requires SetupOk(F) && SetupOk(B) && F.P == B.P && F.dir.Forward? && B.dir.Backward?
    requires M.P == F.P && StoreOk(F, M.fw.store) && StoreOk(B, s) && M.bw.store.pool == s.pool
    requires Emits(M, f, a, b) && f < |M.fw.store.pool| && b < |s.pool|
    ensures |Reversed(Places(s.pool, b))| > 0
    ensures var vertices := Places(M.fw.store.pool, f) + [F.P.top.to(a)] + Reversed(Places(s.pool, b))[1..];
            var arcs := Trace(M.fw.store.pool, f) + [a] + Reversed(Trace(s.pool, b));
            && Connects(F.P.top, Forward, vertices, arcs)
            && vertices[0] == F.P.top.source && vertices[|arcs|] == F.P.top.sink
  {
    hide *;
    EmittedEnds(M, f, a, b);
    ForwardConnects(F, M.fw.store, f);
    BackwardConnects(B, s, b);
    ConnectsOver(F.P.top, Places(M.fw.store.pool, f), Trace(M.fw.store.pool, f), a, Reversed(Places(s.pool, b)),
          Reversed(Trace(s.pool, b)));
  }

  lemma ForwardConnects<S(!new)>(F: Setup<S>, s: Store<S>, f: nat)
    requires SetupOk(F) && StoreOk(F, s) && F.dir.Forward? && f < |s.pool|
    ensures var v, e := Places(s.pool, f), Trace(s.pool, f);
            Connects(F.P.top, Forward, v, e) && v[0] == F.P.top.source && v[|e|] == s.pool[f].node.vertex
  {
    hide SetupOk, StoreOk, Places, Trace;
    ChainConnects(F, s, f);
  }

  /** The chain of a backward label, read towards the sink. */
  lemma BackwardConnects<S(!new)>(B: Setup<S>, s: Store<S>, b: nat)
    requires SetupOk(B) && StoreOk(B, s) && B.dir.Backward? && b < |s.pool|
    ensures var v, e := Reversed(Places(s.pool, b)), Reversed(Trace(s.pool, b));
            Connects(B.P.top, Forward, v, e) && v[0] == s.pool[b].node.vertex && v[|e|] == B.P.top.sink
  {
    hide SetupOk, StoreOk, Reversed, Places, Trace;
    ChainConnects(B, s, b);
    var u, e := Places(s.pool, b), Trace(s.pool, b);
    ReversedConnects(B.P.top, u, e);
    ReversedEnds(u);
  }

  lemma ConnectsOver(top: Topology, v1: seq<nat>, a1: seq<nat>, a: nat, v2: seq<nat>, a2: seq<nat>)
    requires Connects(top, Forward, v1, a1) && Connects(top, Forward, v2, a2)
    requires top.from(a) == v1[|a1|] && top.to(a) == v2[0]
    ensures |v2| > 0
    ensures var v, e := v1 + [top.to(a)] + v2[1..], a1 + [a] + a2;
            Connects(top, Forward, v, e) && v[0] == v1[0] && v[|e|] == v2[|a2|]
  {
    ConnectsJoin(top, v1, a1, a, v2, a2);
    assert v2 == [v2[0]] + v2[1..];
    assert v1 + [top.to(a)] + v2[1..] == v1 + v2;
  }

  lemma ReversedEnds<T>(s: seq<T>)
    requires |s| > 0
    ensures Reversed(s)[0] == s[|s| - 1] && Reversed(s)[|s| - 1] == s[0]
  {
    ReversedAt(s, 0);
    ReversedAt(s, |s| - 1);
  }

  lemma EmittedEnds<S>(M: Meeting<S>, f: nat, a: nat, b: nat)
    requires Emits(M, f, a, b)
    ensures f < |M.fw.store.pool| && b < |M.bw.store.pool| && a < M.P.nArcs
    ensures M.fw.store.pool[f].node.vertex == M.P.top.from(a) && M.bw.store.pool[b].node.vertex == M.P.top.to(a)
    ensures JoinPair(M.P, M.fw.store.pool[f].node, a, M.bw.store.pool[b].node)
  {
  }

  lemma JoinRealises<S(!new)>(F: Setup<S>, B: Setup<S>, M: Meeting<S>, s: Store<S>, c: Candidate, inv: Invariant<S>)
    requires Paired(F, B) && M.P == F.P && StoreOk(F, M.fw.store) && StoreOk(B, s) && M.bw.store.pool == s.pool
    requires Joinable(F.P.pack, F.P.top, inv) && F.P.lb(F.P.top.sink).AtMost(F.P.ub(F.P.top.sink))
    requires Emitted(M, c)
    ensures var arcs := Trace(M.fw.store.pool, c.fw) + [c.join.value.arc] + Reversed(Trace(s.pool, c.join.value.bw));
            exists z :: FeasibleWalk(F.P, arcs, z) && z.cost == c.reducedCost && z.realCost == c.originalCost
  {
    hide TopoOrder, Grouped, StoreOk, Full, Joinable, Run, InitialNode, JoinPair, Suffix, Reversed;
    PairedFacts(F, B);
    var f, a, b := c.fw, c.join.value.arc, c.join.value.bw;
    EmittedEnds(M, f, a, b);
    var u0 := Sound(F, M.fw.store, f);
    var w0 := SoundSuffix(B, s, b);
    var p, t := Trace(M.fw.store.pool, f), Reversed(Trace(s.pool, b));
    JoinDelayed(F.P, u0, M.fw.store.pool[f].node, a, w0, s.pool[b].node);
    JoinIsWalk(F.P, inv, p, u0, a, t, w0);
    JoinedReal(F.P, p, u0, a, t, w0);
    var z := Run(F.P, Forward, InitialNode(F.P, Forward).value, p + [a] + t).value;
    assert FeasibleWalk(F.P, p + [a] + t, z);
  }

  // ----- The solve -----

  /** The same run with the filter on labels past the midpoint switched on. */
  function WithOpposite<S>(C: Setup<S>, least: seq<Bound>): Setup<S> { C.(opposite := Some(least)) }

  lemma OppositeSetup<S(!new)>(C: Setup<S>, least: seq<Bound>)
    requires SetupOk(C) && C.dir.Forward? && |least| == C.P.nVertices
    ensures SetupOk(WithOpposite(C, least)) && (Full(C) ==> Full(WithOpposite(C, least)))
  {
    var D := WithOpposite(C, least);
    forall b: nat, e: BucketArc | b < |D.arcs| && e in D.arcs[b] ensures ArcOk(D, b, e) { assert ArcOk(C, b, e); }
    forall b: nat, j: JumpArc | b < |D.jumps| && j in D.jumps[b] ensures JumpOk(D, b, j) { assert JumpOk(C, b, j); }
  }

  lemma BelowStored<S(!new)>(B: Setup<S>, s: Store<S>, best: seq<Bound>, least: seq<Bound>)
    requires SetupOk(B) && StoreOk(B, s) && AllBounds(B, s, best, least)
    ensures OppositeBelow(B, s, least)
  {
    hide TopoOrder, Grouped, Disposable, VertexMin, PrefixMin, LabelOk, RowIn;
    var v := Side(s, best, least);
    forall k: nat | Alive(s, k) && s.pool[k].node.vertex < |least|
      ensures least[s.pool[k].node.vertex].AtMost(Fin(s.pool[k].node.cost))
    {
      StoredBelow(B, v, s.pool[k].bucket, k);
    }
  }

  /** The labels left after pruning are ready to be joined. */
  lemma MeetingOk<S(!new)>(F: Setup<S>, B: Setup<S>, M: Meeting<S>)
    requires Paired(F, B) && M.P == F.P && M.G == F.G
    requires StoreOk(F, M.fw.store) && AllBounds(F, M.fw.store, M.fw.cBest, M.fw.vertexMin)
    requires StoreOk(B, M.bw.store) && AllBounds(B, M.bw.store, M.bw.cBest, M.bw.vertexMin)
    ensures Meets(M)
  {
    hide TopoOrder, Grouped, StoreOk, AllBounds, Full, SideReady;
    ReadySide(F, M.fw);
    ReadySide(B, M.bw);
  }

  lemma Met<S(!new)>(F: Setup<S>, B: Setup<S>, M: Meeting<S>, s: Store<S>, arrival: seq<Bound>, marked: seq<bool>)
    requires Paired(F, B) && Meets(M) && M.P == F.P && M.G == F.G && M.theta == F.theta
    requires Finished(F, M.fw.store) && Finished(B, s) && |arrival| == F.P.nVertices
    requires forall a: nat ::
             a < F.P.nArcs ==> arrival[F.P.top.to(a)].AtMost(M.fw.vertexMin[F.P.top.from(a)].Add(F.P.cost(a)))
    requires M.bw.store.pool == s.pool && PrunedBelow(B, s, arrival, marked, |s.rows|)
    requires forall k: nat :: Alive(M.bw.store, k) <==> Alive(s.(dominated := marked), k)
    ensures MetAfter(F, B, M, s, arrival)
  {
    hide TopoOrder, Grouped, Disposable, Full, AllExpanded, Closed, LabelOk, RowIn, Meets, Incompatible, Covered;
    forall k: nat | Alive(s, k) && !Incompatible(B, s, arrival, k) ensures Alive(M.bw.store, k) {
      assert Alive(s.(dominated := marked), k);
    }
  }

  /** A candidate of either kind. */
  ghost predicate Genuine<S>(F: Setup<S>, M: Meeting<S>, c: Candidate) {
    Emitted(M, c) || (c.join.None? && SinkCandidate(F, M.fw.store, c.fw) && c == SinkOf(M.fw.store.pool, c.fw))
  }

  lemma GenuineCost<S>(F: Setup<S>, M: Meeting<S>, c: Candidate)
    requires Genuine(F, M, c) && M.theta == F.theta
    ensures c.reducedCost < F.theta
  {
  }

  method RealiseBoth<S(!new)>(F: Setup<S>, B: Setup<S>, M: Meeting<S>, ghost s: Store<S>, best: seq<Candidate>,
                              ghost inv: Invariant<S>)
    returns (paths: seq<Path>)
    requires Paired(F, B) && M.P == F.P && M.theta == F.theta && StoreOk(F, M.fw.store) && StoreOk(B, s)
             && M.bw.store.pool == s.pool
    requires Joinable(F.P.pack, F.P.top, inv) && F.P.lb(F.P.top.sink).AtMost(F.P.ub(F.P.top.sink))
    requires (forall c :: c in best ==> Genuine(F, M, c)) && SortedBy(CostOf(), best)
    ensures |paths| == |best|
    ensures forall i: nat :: i < |paths| ==>
              Realises(F.P, paths[i]) && paths[i].reducedCost == best[i].reducedCost < F.theta
              && paths[i].arcs == ArcsOf(M, best[i])
    ensures forall i: nat, j: nat :: i < j < |paths| ==> paths[i].reducedCost <= paths[j].reducedCost
  {
    hide StoreOk, SetupOk, Realises, Paired, Joinable, Emitted, SinkCandidate;
    PairedFacts(F, B);
    paths := [];
    for i := 0 to |best|
      invariant |paths| == i
      invariant forall j: nat :: j < i ==>
                  Realises(F.P, paths[j]) && paths[j].reducedCost == best[j].reducedCost < F.theta
                  && paths[j].arcs == ArcsOf(M, best[j])
    {
      var c := best[i];
      assert c in best;
      GenuineCost(F, M, c);
      var p;
      if c.join.None? {
        NotEmitted(M, c);
        p := RealiseSink(F, M.fw.store.pool, c, M.fw.store);
      } else {
        p := RealiseJoin(F, B, M, s, c, inv);
      }
      paths := paths + [p];
    }
    forall i: nat, j: nat | i < j < |paths| ensures paths[i].reducedCost <= paths[j].reducedCost {
      assert CostOf()(best[i]) <= CostOf()(best[j]);
    }
  }

  lemma NotEmitted<S>(M: Meeting<S>, c: Candidate)
    ensures Emitted(M, c) ==> c.join.Some?
  {
  }

  // ----- Candidates stand for visible walks -----

  lemma TraceParent<S>(pool: seq<Label<S>>, i: nat)
    requires i < |pool| && Trace(pool, i) != []
    ensures 0 <= pool[i].parent < i && Trace(pool, i) == Trace(pool, pool[i].parent) + [pool[i].arc]
  {
  }

  /** No label along the parent chain of another one is past the midpoint. */
  lemma {:induction false} ParentsNotPast<S(!new)>(C: Setup<S>, s: Store<S>, k: nat, i: nat)
    requires SetupOk(C) && StoreOk(C, s) && NoJumps(C) && k < |s.pool| && i < |Trace(s.pool, k)|
    ensures InitialNode(C.P, C.dir).Some?
    ensures var r := Run(C.P, C.dir, InitialNode(C.P, C.dir).value, Trace(s.pool, k)[..i]);
            r.Some? && !PastMid(C, r.value.q)
    decreases k
  {
    hide TopoOrder, Grouped, Disposable, RowIn, NoJumps, Run, InitialNode;
    TraceParent(s.pool, k);
    var j: nat, t := s.pool[k].parent, Trace(s.pool, k);
    assert t[..|t| - 1] == Trace(s.pool, j);
    if i < |t| - 1 {
      ParentsNotPast(C, s, j, i);
      assert t[..i] == Trace(s.pool, j)[..i];
    } else {
      assert LabelOk(C, s.pool, k);
      var n0 := Sound(C, s, j);
    }
  }

  lemma SinkVisible<S(!new)>(F: Setup<S>, s: Store<S>, k: nat)
    requires SetupOk(F) && StoreOk(F, s) && NoJumps(F) && F.dir.Forward? && F.mid.Fin? && k < |s.pool|
    ensures EndsUncrossed(F.P, F.mid.val, Trace(s.pool, k))
  {
    hide SetupOk, StoreOk, NoJumps, Trace;
    var p := Trace(s.pool, k);
    forall i: nat | i < |p| ensures !Crossed(F.P, F.mid.val, p, i) { ParentsNotPast(F, s, k, i); }
  }

  lemma ReversedTail<T>(t: seq<T>, m: nat)
    requires m <= |t|
    ensures Reversed(Reversed(t)[m..]) == t[..|t| - m]
  {
    var n := |t| - m;
    assert t == t[..n] + t[n..];
    ReversedAppend(t[..n], t[n..]);
    ReversedTwice(t[..n]);
  }

  /** Behind the joining arc, the walk of a pair is in reach of the backward search. */
  lemma PairInReach<S(!new)>(B: Setup<S>, s: Store<S>, b: nat, head: seq<nat>, j: nat)
    requires SetupOk(B) && StoreOk(B, s) && NoJumps(B) && B.dir.Backward? && B.mid.Fin? && b < |s.pool|
    requires |head| < j <= |head| + |Trace(s.pool, b)|
    ensures InReach(B.P, B.mid.val, head + Reversed(Trace(s.pool, b)), j)
  {
    hide SetupOk, StoreOk, NoJumps, Trace, Reversed;
    var t := Trace(s.pool, b);
    var m := j - |head|;
    assert (head + Reversed(t))[j..] == Reversed(t)[m..];
    ReversedTail(t, m);
    ParentsNotPast(B, s, b, |t| - m);
  }

  lemma PairMeets<S(!new)>(F: Setup<S>, B: Setup<S>, M: Meeting<S>, s: Store<S>, c: Candidate)
    requires Paired(F, B) && M.P == F.P && M.theta == F.theta && StoreOk(F, M.fw.store) && StoreOk(B, s)
             && M.bw.store.pool == s.pool
    requires NoJumps(F) && NoJumps(B) && Emitted(M, c)
    ensures F.mid.Fin? && MeetsAt(F.P, F.theta, F.mid.val, ArcsOf(M, c), |Trace(M.fw.store.pool, c.fw)|)
  {
    hide TopoOrder, Grouped, Disposable, StoreOk, Full, NoJumps, JoinPair, Trace, Reversed, Inner, InReach;
    var f, a, b := c.fw, c.join.value.arc, c.join.value.bw;
    var t, p := Trace(M.fw.store.pool, f), ArcsOf(M, c);
    var k := |t|;
    EmittedEnds(M, f, a, b);
    assert p[..k] == t && p[k] == a;
    forall i: nat | i < k ensures !Crossed(F.P, F.mid.val, p, i) {
      ParentsNotPast(F, M.fw.store, f, i);
      assert p[..i] == t[..i];
    }
    forall j: nat | k + 1 < j <= |p| ensures InReach(F.P, F.mid.val, p, j) { PairInReach(B, s, b, t + [a], j); }
    var n0 := Sound(F, M.fw.store, f);
  }

  /** Without jump arcs, every candidate stands for a visible walk. */
  lemma CandidateVisible<S(!new)>(F: Setup<S>, B: Setup<S>, M: Meeting<S>, s: Store<S>, c: Candidate)
    requires Paired(F, B) && M.P == F.P && M.theta == F.theta && StoreOk(F, M.fw.store) && StoreOk(B, s)
             && M.bw.store.pool == s.pool
    requires NoJumps(F) && NoJumps(B) && Genuine(F, M, c) && InitialNode(F.P, Backward).Some?
    ensures F.mid.Fin? && Visible(F.P, F.theta, F.mid.val, ArcsOf(M, c))
  {
    hide StoreOk, SetupOk, Full, NoJumps, MeetsAt, EndsUncrossed, InitialNode, Emits, ConcatOf;
    PairedFacts(F, B);
    if Emitted(M, c) {
      PairMeets(F, B, M, s, c);
    } else {
      SinkVisible(F, M.fw.store, c.fw);
    }
  }

  lemma GenuineWalk<S(!new)>(F: Setup<S>, B: Setup<S>, M: Meeting<S>, s: Store<S>, c: Candidate, inv: Invariant<S>)
    returns (y: Node<S>)
    requires Paired(F, B) && M.P == F.P && StoreOk(F, M.fw.store) && StoreOk(B, s) && M.bw.store.pool == s.pool
    requires Joinable(F.P.pack, F.P.top, inv) && F.P.lb(F.P.top.sink).AtMost(F.P.ub(F.P.top.sink)) && Genuine(F, M, c)
    ensures FeasibleWalk(F.P, ArcsOf(M, c), y) && y.cost == c.reducedCost
  {
    hide StoreOk, SetupOk, Full, FeasibleWalk, Emits, ConcatOf, Trace, Reversed, Joinable;
    PairedFacts(F, B);
    if Emitted(M, c) {
      JoinRealises(F, B, M, s, c, inv);
      y :| FeasibleWalk(F.P, ArcsOf(M, c), y) && y.cost == c.reducedCost && y.realCost == c.originalCost;
    } else {
      SinkIsWalk(F, M.fw.store, c.fw);
      y :| FeasibleWalk(F.P, Trace(M.fw.store.pool, c.fw), y) && y.cost == M.fw.store.pool[c.fw].node.cost;
    }
  }

  lemma SinkIsWalk<S(!new)>(F: Setup<S>, s: Store<S>, k: nat)
    requires SetupOk(F) && StoreOk(F, s) && F.dir.Forward? && SinkCandidate(F, s, k)
    ensures exists y :: FeasibleWalk(F.P, Trace(s.pool, k), y) && y.cost == s.pool[k].node.cost
  {
    hide TopoOrder, Grouped, Disposable, StoreOk, Run, InitialNode;
    var n0 := Sound(F, s, k);
    assert FeasibleWalk(F.P, Trace(s.pool, k), n0);
  }

  /** Some visible walk costs at most x. */
  ghost predicate VisibleWithin<S(!new)>(P: Problem<S>, theta: real, mid: real, x: real) {
    exists q, y :: FeasibleWalk(P, q, y) && y.cost <= x && Visible(P, theta, mid, q)
  }

  /** Whatever matches a cost is a visible walk of no greater cost. */
  lemma MatchedVisible<S(!new)>(F: Setup<S>, B: Setup<S>, M: Meeting<S>, s: Store<S>, inv: Invariant<S>, z: Node<S>)
    requires Paired(F, B) && M.P == F.P && M.theta == F.theta && StoreOk(F, M.fw.store) && StoreOk(B, s)
             && M.bw.store.pool == s.pool
    requires Joinable(F.P.pack, F.P.top, inv) && F.P.lb(F.P.top.sink).AtMost(F.P.ub(F.P.top.sink))
    requires NoJumps(F) && NoJumps(B) && InitialNode(F.P, Backward).Some? && Matched(F, M, z)
    ensures F.mid.Fin? && VisibleWithin(F.P, F.theta, F.mid.val, z.cost)
  {
    hide *;
    PairedFacts(F, B);
    var c := MatchingCandidate(F, M, z);
    var y := GenuineWalk(F, B, M, s, c, inv);
    CandidateVisible(F, B, M, s, c);
    WithinBy(F.P, F.theta, F.mid.val, z.cost, ArcsOf(M, c), y);
  }

  lemma WithinBy<S(!new)>(P: Problem<S>, theta: real, mid: real, x: real, q: seq<nat>, y: Node<S>)
    requires FeasibleWalk(P, q, y) && y.cost <= x && Visible(P, theta, mid, q)
    ensures VisibleWithin(P, theta, mid, x)
  {
  }

  lemma MatchingCandidate<S(!new)>(F: Setup<S>, M: Meeting<S>, z: Node<S>) returns (c: Candidate)
    requires Matched(F, M, z)
    ensures Genuine(F, M, c) && c.reducedCost <= z.cost
  {
    hide Emits;
    if sink: nat :| SinkCandidate(F, M.fw.store, sink) && M.fw.store.pool[sink].node.cost <= z.cost {
      c := SinkOf(M.fw.store.pool, sink);
    } else {
      var f: nat, a: nat, b: nat :| Emits(M, f, a, b) && ConcatOf(M, f, a, b).reducedCost <= z.cost;
      c := ConcatOf(M, f, a, b);
      EmittedEnds(M, f, a, b);
    }
  }

  /**
   * Bidirectional exactness: a walk of cost below theta is matched exactly if some visible walk costs no more.
   */
  lemma MatchedIff<S(!new)>(F: Setup<S>, B: Setup<S>, M: Meeting<S>, s: Store<S>, arrival: seq<Bound>,
                            inv: Invariant<S>, z: Node<S>)
    requires Paired(F, B) && BothFull(F, B) && MetAfter(F, B, M, s, arrival) && StoreOk(F, M.fw.store) && StoreOk(B, s)
    requires Joinable(F.P.pack, F.P.top, inv) && F.P.lb(F.P.top.sink).AtMost(F.P.ub(F.P.top.sink))
    requires F.opposite.Some? ==> OppositeBelow(B, s, F.opposite.value)
    requires NoJumps(F) && NoJumps(B) && InitialNode(F.P, Backward).Some? && z.cost < F.theta && F.mid.Fin?
    ensures Matched(F, M, z) <==> VisibleWithin(F.P, F.theta, F.mid.val, z.cost)
  {
    hide StoreOk, SetupOk, Full, NoJumps, FeasibleWalk, Visible, Joinable, InitialNode, Meets, Finished,
         OppositeBelow, Emits, SinkCandidate;
    if Matched(F, M, z) { MatchedVisible(F, B, M, s, inv, z); }
    if VisibleWithin(F.P, F.theta, F.mid.val, z.cost) {
      var q, y :| FeasibleWalk(F.P, q, y) && y.cost <= z.cost && Visible(F.P, F.theta, F.mid.val, q);
      BidirectionalMatches(F, B, M, s, arrival, inv, q, y);
    }
  }

  /** With a pack: matched exactly if some walk that is not overlooked costs no more. */
  lemma MatchedUnlessOverlooked<S(!new)>(F: Setup<S>, B: Setup<S>, M: Meeting<S>, s: Store<S>, arrival: seq<Bound>,
                                         inv: Invariant<S>, z: Node<S>)
    requires Paired(F, B) && BothFull(F, B) && MetAfter(F, B, M, s, arrival) && StoreOk(F, M.fw.store) && StoreOk(B, s)
    requires F.mid.Fin? && Splittable(F.P, F.mid.val, inv) && F.P.pack.size > 0
    requires F.opposite.Some? ==> OppositeBelow(B, s, F.opposite.value)
    requires NoJumps(F) && NoJumps(B) && InitialNode(F.P, Backward).Some? && z.cost < F.theta
    ensures Matched(F, M, z) <==>
              exists q, y :: FeasibleWalk(F.P, q, y) && y.cost <= z.cost && !Overlooked(F.P, F.mid.val, q)
  {
    hide StoreOk, SetupOk, Full, NoJumps, FeasibleWalk, Visible, Overlooked, MetAfter, Joinable, InitialNode,
         OppositeBelow, Matched;
    PairedFacts(F, B);
    MatchedIff(F, B, M, s, arrival, inv, z);
    PackDisposes(F);
    forall q, y | FeasibleWalk(F.P, q, y)
      ensures Visible(F.P, F.theta, F.mid.val, q) <==> !Overlooked(F.P, F.mid.val, q)
    {
      VisibleIff(F.P, F.theta, F.mid.val, inv, q, y);
    }
  }

  lemma PackDisposes<S(!new)>(F: Setup<S>)
    requires SetupOk(F)
    ensures Disposable(F.P.pack, F.P.top)
  {
  }

  /** An overlooked walk that is cheaper than all others that are not is matched by nothing. */
  lemma OverlookedIsMissed<S(!new)>(F: Setup<S>, B: Setup<S>, M: Meeting<S>, s: Store<S>, inv: Invariant<S>,
                                    p: seq<nat>, z: Node<S>)
    requires Paired(F, B) && M.P == F.P && M.theta == F.theta && StoreOk(F, M.fw.store) && StoreOk(B, s)
             && M.bw.store.pool == s.pool
    requires Joinable(F.P.pack, F.P.top, inv) && F.P.lb(F.P.top.sink).AtMost(F.P.ub(F.P.top.sink)) && NoJumps(F)
             && NoJumps(B)
    requires InitialNode(F.P, Backward).Some? && F.mid.Fin? && Overlooked(F.P, F.mid.val, p)
    requires forall q, y :: FeasibleWalk(F.P, q, y) && !Overlooked(F.P, F.mid.val, q) ==> y.cost > z.cost
    ensures !Matched(F, M, z)
  {
    hide StoreOk, SetupOk, Full, NoJumps, FeasibleWalk, Visible, Overlooked, Joinable, InitialNode, Matched;
    if Matched(F, M, z) {
      MatchedVisible(F, B, M, s, inv, z);
      var q, y :| FeasibleWalk(F.P, q, y) && y.cost <= z.cost && Visible(F.P, F.theta, F.mid.val, q);
      OverlookedInvisible(F.P, F.theta, F.mid.val, q, y);
    }
  }

  // ----- Paths follow the bucket graphs -----

  /** The forward graph lets labels follow t, the backward one r, and their ends join over an inner arc. */
  ghost predicate ThreadPair<S(!new)>(F: Setup<S>, B: Setup<S>, t: seq<nat>, u: Node<S>, a: nat, r: seq<nat>,
                                      w: Node<S>)
    requires Paired(F, B)
  {
    Threaded(F, t, u) && a < F.P.nArcs && Inner(F.P, a) && JoinPair(F.P, u, a, w) && Threaded(B, r, w)
  }

  /** The forward graph leads along the arcs to the sink, or both graphs lead to an arc among them. */
  ghost predicate FollowsBoth<S(!new)>(F: Setup<S>, B: Setup<S>, arcs: seq<nat>)
    requires Paired(F, B)
  {
    || (exists z :: SinkThread(F, arcs, z))
    || (exists t, u, a: nat, r, w :: ThreadPair(F, B, t, u, a, r, w) && arcs == t + [a] + Reversed(r))
  }

  ghost predicate AllFollow<S(!new)>(F: Setup<S>, B: Setup<S>, paths: seq<Path>)
    requires Paired(F, B)
  {
    forall i: nat :: i < |paths| ==> FollowsBoth(F, B, paths[i].arcs)
  }

  /** On any bucket graphs a candidate is made of what they let labels follow. */
  lemma GenuineFollows<S(!new)>(F: Setup<S>, B: Setup<S>, M: Meeting<S>, s: Store<S>, c: Candidate)
    requires Paired(F, B) && M.P == F.P && M.theta == F.theta && StoreOk(F, M.fw.store) && StoreOk(B, s)
             && M.bw.store.pool == s.pool
    requires Genuine(F, M, c)
    ensures FollowsBoth(F, B, ArcsOf(M, c))
  {
    hide TopoOrder, Grouped, Disposable, JoinPair, Trace, Reversed, Threaded, LabelOk, RowIn, Lands, ConcatOf;
    if Emitted(M, c) {
      var f, a, b := c.fw, c.join.value.arc, c.join.value.bw;
      EmittedEnds(M, f, a, b);
      ChainThreaded(F, M.fw.store.pool, f);
      ChainThreaded(B, s.pool, b);
      assert ThreadPair(F, B, Trace(M.fw.store.pool, f), M.fw.store.pool[f].node, a, Trace(s.pool, b), s.pool[b].node);
    } else {
      StoredThreaded(F, M.fw.store, c.fw);
      assert SinkThread(F, Trace(M.fw.store.pool, c.fw), M.fw.store.pool[c.fw].node);
    }
  }

  lemma PathsFollow<S(!new)>(F: Setup<S>, B: Setup<S>, M: Meeting<S>, s: Store<S>, best: seq<Candidate>,
                             paths: seq<Path>)
    requires Paired(F, B) && M.P == F.P && M.theta == F.theta && StoreOk(F, M.fw.store) && StoreOk(B, s)
             && M.bw.store.pool == s.pool
    requires forall c :: c in best ==> Genuine(F, M, c)
    requires |paths| == |best| && forall i: nat :: i < |paths| ==> paths[i].arcs == ArcsOf(M, best[i])
    ensures AllFollow(F, B, paths)
  {
    hide SetupOk, StoreOk, Genuine, FollowsBoth, ArcsOf;
    forall i: nat | i < |paths| ensures FollowsBoth(F, B, paths[i].arcs) {
      assert best[i] in best;
      GenuineFollows(F, B, M, s, best[i]);
    }
  }

  /** The filter on labels past the midpoint changes nothing in this. */
  lemma SameFollow<S(!new)>(C: Setup<S>, F: Setup<S>, B: Setup<S>, paths: seq<Path>)
    requires Paired(C, B) && F == C.(opposite := F.opposite) && Paired(F, B) && AllFollow(F, B, paths)
    ensures AllFollow(C, B, paths)
  {
    hide TopoOrder, Grouped, Disposable, Threaded, JoinPair, Inner, Reversed;
    forall t, z ensures Threaded(F, t, z) <==> Threaded(C, t, z) { SameThreads(C, F, t, z); }
    forall i: nat | i < |paths| ensures FollowsBoth(C, B, paths[i].arcs) {
      var arcs := paths[i].arcs;
      assert FollowsBoth(F, B, arcs);
      if z :| SinkThread(F, arcs, z) {
        assert SinkThread(C, arcs, z);
      } else {
        var t, u, a: nat, r, w :| ThreadPair(F, B, t, u, a, r, w) && arcs == t + [a] + Reversed(r);
        assert ThreadPair(C, B, t, u, a, r, w);
      }
    }
  }

  // ----- The best path -----

  /** The first path is at least as good as every visible walk. */
  ghost predicate BestVisible<S(!new)>(P: Problem<S>, paths: seq<Path>, theta: real, mid: real) {
    forall p, z ::
        FeasibleWalk(P, p, z) && z.cost < theta && Visible(P, theta, mid, p) ==>
          |paths| > 0 && paths[0].reducedCost <= z.cost
  }

  ghost predicate AllVisible<S>(P: Problem<S>, paths: seq<Path>, theta: real, mid: real) {
    forall i: nat :: i < |paths| ==> Visible(P, theta, mid, paths[i].arcs)
  }

  /**
   * The first path is at least as good as every walk that is not overlooked and, without a pack, is paid for in time.
   */
  ghost predicate OptimalButFor<S(!new)>(P: Problem<S>, paths: seq<Path>, theta: real, mid: real) {
    forall p, z :: FeasibleWalk(P, p, z) && z.cost < theta && !Overlooked(P, mid, p) && Paid(P, theta, mid, p) ==>
      |paths| > 0 && paths[0].reducedCost <= z.cost
  }

  // ----- Which paths are returned -----

  /** What a solve leaves behind: the forward setup, the labels that meet, and the backward labels before pruning. */
  datatype Outcome<!S> = Outcome(F: Setup<S>, M: Meeting<S>, s: Store<S>, arrival: seq<Bound>)

  /** Every sink label below theta and every joinable pair below theta, each once. */
  ghost predicate CandidatesOf<S>(F: Setup<S>, M: Meeting<S>, all: seq<Candidate>) {
    && Distinct(all) && (forall c :: c in all ==> Genuine(F, M, c))
    && (forall k: nat :: SinkCandidate(F, M.fw.store, k) ==> SinkOf(M.fw.store.pool, k) in all)
    && (forall f: nat, a: nat, b: nat :: Emits(M, f, a, b) ==> ConcatOf(M, f, a, b) in all)
  }

  /** The paths are, one for one, what these candidates stand for. */
  ghost predicate StandForBoth<S>(M: Meeting<S>, best: seq<Candidate>, paths: seq<Path>) {
    && |paths| == |best|
    && (forall i: nat :: i < |paths| ==>
        paths[i].arcs == ArcsOf(M, best[i]) && paths[i].reducedCost == best[i].reducedCost)
  }

  /** The paths are the cheapest of all candidates, as many of them as are wanted. */
  ghost predicate AnswersBoth<S(!new)>(F: Setup<S>, M: Meeting<S>, maxPaths: nat, paths: seq<Path>) {
    exists all, best ::
      CandidatesOf(F, M, all) && CheapestOf(CostOf(), all, maxPaths, best) && StandForBoth(M, best, paths)
  }

  /** The filter on forward labels past the midpoint compares with the exact vertex minima of the backward labels. */
  ghost predicate FilteredBy<S(!new)>(B: Setup<S>, s: Store<S>, opposite: Option<seq<Bound>>)
    requires SetupOk(B)
  {
    opposite.Some? && exists best :: AllBounds(B, s, best, opposite.value)
  }

  lemma FilteredIs<S(!new)>(B: Setup<S>, s: Store<S>, best: seq<Bound>, opposite: Option<seq<Bound>>)
    requires SetupOk(B) && opposite.Some? && AllBounds(B, s, best, opposite.value)
    ensures FilteredBy(B, s, opposite)
  {
    hide SetupOk, AllBounds;
  }

  /** So a forward label past it is kept exactly if over some arc a stored backward label completes it below theta. */
  lemma KeptIffPartner<S(!new)>(F: Setup<S>, B: Setup<S>, s: Store<S>, n: Node<S>)
    requires Paired(F, B) && StoreOk(B, s) && FilteredBy(B, s, F.opposite)
    requires PastMid(F, n.q) && n.vertex != F.P.top.source && n.vertex != F.P.top.sink
    ensures Kept(F, n) <==> exists a: nat, k: nat :: Completes(F, s, n, a, k)
  {
    hide TopoOrder, Grouped, LabelOk, RowIn, RowTidy, StoreOk, AllBounds, GridUpTo, OppositeThrough, Completes;
    var least := F.opposite.value;
    var best :| AllBounds(B, s, best, least);
    if a: nat, k: nat :| Completes(F, s, n, a, k) { PartnerIsOpposite(F, B, s, best, n, a, k); }
    if HasOpposite(F, n) {
      var a: nat :| a < F.P.nArcs && F.P.top.from(a) == n.vertex && OppositeThrough(F, n, a);
      var k := OppositeIsPartner(F, B, s, best, n, a);
    }
  }

  lemma PartnerIsOpposite<S(!new)>(F: Setup<S>, B: Setup<S>, s: Store<S>, best: seq<Bound>, n: Node<S>, a: nat, k: nat)
    requires Paired(F, B) && StoreOk(B, s) && F.opposite.Some? && AllBounds(B, s, best, F.opposite.value)
    requires Completes(F, s, n, a, k)
    ensures a < F.P.nArcs && F.P.top.from(a) == n.vertex && OppositeThrough(F, n, a)
  {
    hide TopoOrder, Grouped, RowIn, RowTidy, LabelOk, Disposable, VertexMin, PrefixMin, GridUpTo;
    StoredBelow(B, Side(s, best, F.opposite.value), s.pool[k].bucket, k);
    FreeOfCost(F);
  }

  lemma OppositeIsPartner<S(!new)>(F: Setup<S>, B: Setup<S>, s: Store<S>, best: seq<Bound>, n: Node<S>, a: nat)
    returns (k: nat)
    requires Paired(F, B) && StoreOk(B, s) && F.opposite.Some? && AllBounds(B, s, best, F.opposite.value)
    requires a < F.P.nArcs && F.P.top.from(a) == n.vertex && OppositeThrough(F, n, a)
    ensures Completes(F, s, n, a, k)
  {
    hide TopoOrder, Grouped, RowIn, RowTidy, LabelOk, Disposable, VertexMin, PrefixMin, GridUpTo;
    FreeOfCost(F);
    k := Cheapest(B, s, best, F.opposite.value, F.P.top.to(a));
  }

  lemma FreeOfCost<S(!new)>(F: Setup<S>)
    requires SetupOk(F)
    ensures F.P.pack.minDominationCost == 0.0
  {
  }

  ghost predicate Completes<S>(F: Setup<S>, s: Store<S>, n: Node<S>, a: nat, k: nat) {
    && a < F.P.nArcs && F.P.top.from(a) == n.vertex && InRow(s, k) && s.pool[k].node.vertex == F.P.top.to(a)
    && n.cost + F.P.cost(a) + s.pool[k].node.cost < F.theta
  }

  /** A finite vertex minimum is the cost of a stored label. */
  lemma Cheapest<S(!new)>(B: Setup<S>, s: Store<S>, best: seq<Bound>, least: seq<Bound>, v: nat) returns (k: nat)
    requires SetupOk(B) && StoreOk(B, s) && AllBounds(B, s, best, least) && v < |least| && least[v].Fin?
    ensures InRow(s, k) && s.pool[k].node.vertex == v && s.pool[k].node.cost == least[v].val
  {
    hide TopoOrder, Grouped, Disposable, RowTidy;
    assert VertexMin(B.G, best, v, least[v]);
    var b: nat :| b < |B.G.buckets| && B.G.buckets[b].vertex == v && best[b] == least[v];
    assert PrefixMin(B, s.pool, s.rows, b, best[b]);
    var o: nat :| Beyond(B.P, B.G, B.dir, o, b) && AttainedAt(s.pool, s.rows[o], best[b].val);
    k :| k in s.rows[o].ids && k < |s.pool| && s.pool[k].node.cost == best[b].val;
    assert RowIn(B, s, o) && LabelOk(B, s.pool, k);
  }

  /** How the outcome of a solve of C and B comes about. */
  ghost predicate Outcomes<S(!new)>(C: Setup<S>, B: Setup<S>, e: Outcome<S>, capped: bool, maxPaths: nat,
                                    paths: seq<Path>)
  {
    && Paired(e.F, B) && e.F == C.(opposite := e.F.opposite) && StoresAfter(e.F, B, e.M, e.s, e.arrival)
    && (!capped ==> Finished(e.F, e.M.fw.store) && Finished(B, e.s) && Tight(e.F, e.M.fw.store) && Tight(B, e.s))
    && FilteredBy(B, e.s, e.F.opposite)
    && (capped ==> |e.M.fw.store.pool| >= SCC_CAP || |e.s.pool| >= SCC_CAP)
    && AnswersBoth(e.F, e.M, maxPaths, paths)
  }

  lemma CandidatesAre<S(!new)>(F: Setup<S>, M: Meeting<S>, joined: seq<Candidate>, sinks: seq<Candidate>)
    requires Distinct(joined) && (forall c :: c in joined ==> Emitted(M, c))
    requires forall f: nat, a: nat, b: nat :: Emits(M, f, a, b) ==> ConcatOf(M, f, a, b) in joined
    requires Distinct(sinks) && forall c :: c in sinks ==>
      SinkCandidate(F, M.fw.store, c.fw) && c == SinkOf(M.fw.store.pool, c.fw)
    requires forall k: nat :: SinkCandidate(F, M.fw.store, k) ==> SinkOf(M.fw.store.pool, k) in sinks
    ensures CandidatesOf(F, M, joined + sinks)
  {
    hide Emits, ConcatOf;
    forall c | c in joined ensures c !in sinks { NotEmitted(M, c); }
    DistinctConcat(joined, sinks);
  }

  lemma AnswersWith<S(!new)>(F: Setup<S>, M: Meeting<S>, maxPaths: nat, all: seq<Candidate>, best: seq<Candidate>,
                             paths: seq<Path>)
    requires CandidatesOf(F, M, all) && CheapestOf(CostOf(), all, maxPaths, best) && |paths| == |best|
    requires forall i: nat :: i < |paths| ==>
      paths[i].reducedCost == best[i].reducedCost && paths[i].arcs == ArcsOf(M, best[i])
    ensures AnswersBoth(F, M, maxPaths, paths)
  {
    hide ArcsOf, CandidatesOf, CheapestOf;
    assert StandForBoth(M, best, paths);
  }

  lemma AllDistinct<S>(F: Setup<S>, M: Meeting<S>, all: seq<Candidate>)
    requires CandidatesOf(F, M, all)
    ensures Distinct(all)
  {
  }

  lemma BestIsOptimal<S(!new)>(P: Problem<S>, paths: seq<Path>, theta: real, mid: real, inv: Invariant<S>)
    requires Disposable(P.pack, P.top) && Splittable(P, mid, inv) && BestVisible(P, paths, theta, mid)
    ensures OptimalButFor(P, paths, theta, mid)
  {
    hide Disposable, Splittable, FeasibleWalk, Overlooked, Paid, Visible;
    forall p, z | FeasibleWalk(P, p, z) && z.cost < theta && !Overlooked(P, mid, p) && Paid(P, theta, mid, p)
      ensures |paths| > 0 && paths[0].reducedCost <= z.cost
    {
      VisibleIfPaid(P, theta, mid, inv, p, z);
    }
  }

  lemma FirstIsBest<S(!new)>(F: Setup<S>, B: Setup<S>, M: Meeting<S>, s: Store<S>, arrival: seq<Bound>,
                             inv: Invariant<S>,
                             candidates: seq<Candidate>, best: seq<Candidate>, paths: seq<Path>)
    requires Paired(F, B) && BothFull(F, B) && MetAfter(F, B, M, s, arrival)
    requires Joinable(F.P.pack, F.P.top, inv) && F.P.lb(F.P.top.sink).AtMost(F.P.ub(F.P.top.sink))
    requires F.opposite.Some? ==> OppositeBelow(B, s, F.opposite.value)
    requires forall k: nat :: SinkCandidate(F, M.fw.store, k) ==> SinkOf(M.fw.store.pool, k) in candidates
    requires forall f: nat, a: nat, b: nat :: Emits(M, f, a, b) ==> ConcatOf(M, f, a, b) in candidates
    requires candidates != [] ==> best != [] && forall c :: c in candidates ==> best[0].reducedCost <= c.reducedCost
    requires |paths| == |best| && forall i: nat :: i < |paths| ==> paths[i].reducedCost == best[i].reducedCost
    ensures F.mid.Fin? && BestVisible(F.P, paths, F.theta, F.mid.val)
  {
    hide SetupOk, Paired, MetAfter, FeasibleWalk, Joinable, OppositeBelow, Emits, ConcatOf, Visible;
    PairedFacts(F, B);
    forall p, z | FeasibleWalk(F.P, p, z) && z.cost < F.theta && Visible(F.P, F.theta, F.mid.val, p)
      ensures |paths| > 0 && paths[0].reducedCost <= z.cost
    {
      BidirectionalMatches(F, B, M, s, arrival, inv, p, z);
      if k: nat :| SinkCandidate(F, M.fw.store, k) && M.fw.store.pool[k].node.cost <= z.cost {
        assert SinkOf(M.fw.store.pool, k) in candidates;
      } else {
        var f: nat, a: nat, b: nat :| Emits(M, f, a, b) && ConcatOf(M, f, a, b).reducedCost <= z.cost;
        assert ConcatOf(M, f, a, b) in candidates;
      }
    }
  }

  /**
   * What a solve leaves behind, finished or not: both stores with exact bounds, of the backward labels exactly the
   * compatible ones.
   */
  ghost predicate StoresAfter<S(!new)>(F: Setup<S>, B: Setup<S>, M: Meeting<S>, s: Store<S>, arrival: seq<Bound>)
    requires Paired(F, B)
  {
    && StoreOk(F, M.fw.store) && AllBounds(F, M.fw.store, M.fw.cBest, M.fw.vertexMin)
    && StoreOk(B, M.bw.store) && AllBounds(B, M.bw.store, M.bw.cBest, M.bw.vertexMin)
    && StoreOk(B, s) && M.bw.store.pool == s.pool
    && |M.fw.vertexMin| == F.P.nVertices && ArrivalsOf(F.P, M.fw.vertexMin, arrival)
    && (forall k: nat :: InRow(M.bw.store, k) <==> Compatible(B, s, arrival, k))
  }

  /** A stored undominated label that pruning leaves alone. */
  ghost predicate Compatible<S>(B: Setup<S>, s: Store<S>, arrival: seq<Bound>, k: nat) {
    Alive(s, k) && !Incompatible(B, s, arrival, k)
  }

  /** arrival holds the cheapest way into each vertex, given the cheapest label at each. */
  ghost predicate ArrivalsOf<S>(P: Problem<S>, vertexMin: seq<Bound>, arrival: seq<Bound>)
    requires |vertexMin| == P.nVertices
  {
    && WellFormed(P) && |arrival| == P.nVertices
    && (forall a: nat :: a < P.nArcs ==> arrival[P.top.to(a)].AtMost(vertexMin[P.top.from(a)].Add(P.cost(a))))
    && (forall v: nat :: v < P.nVertices && arrival[v].Fin? ==> ArrivesOver(P, vertexMin, v, arrival[v]))
  }

  ghost predicate ArrivesOver<S>(P: Problem<S>, vertexMin: seq<Bound>, v: nat, x: Bound) {
    exists a: nat ::
        a < P.nArcs && P.top.to(a) == v && P.top.from(a) < |vertexMin| && x == vertexMin[P.top.from(a)].Add(P.cost(a))
  }

  lemma AreStoresAfter<S(!new)>(F: Setup<S>, B: Setup<S>, M: Meeting<S>, s: Store<S>, arrival: seq<Bound>,
                                marked: seq<bool>)
    requires Paired(F, B) && StoreOk(F, M.fw.store) && AllBounds(F, M.fw.store, M.fw.cBest, M.fw.vertexMin)
    requires StoreOk(B, M.bw.store) && AllBounds(B, M.bw.store, M.bw.cBest, M.bw.vertexMin) && StoreOk(B, s)
    requires M.bw.store.pool == s.pool && PrunedBelow(B, s, arrival, marked, |s.rows|)
    requires |M.fw.vertexMin| == F.P.nVertices && ArrivalsOf(F.P, M.fw.vertexMin, arrival)
    requires forall b: nat, k: nat ::
             b < |M.bw.store.rows| && k in M.bw.store.rows[b].ids ==> Alive(s.(dominated := marked), k)
    requires forall k: nat :: Alive(M.bw.store, k) <==> Alive(s.(dominated := marked), k)
    ensures StoresAfter(F, B, M, s, arrival)
  {
    hide SetupOk, StoreOk, AllBounds, PrunedBelow, Incompatible, Full, ArrivalsOf, Alive;
    PairedFacts(F, B);
    forall k: nat ensures InRow(M.bw.store, k) <==> Compatible(B, s, arrival, k) {
      SurvivesMarks(B, s, arrival, marked, k);
      AliveInRow(M.bw.store, k);
      if InRow(M.bw.store, k) { assert k in M.bw.store.rows[M.bw.store.pool[k].bucket].ids; }
    }
  }

  lemma AliveInRow<S>(s: Store<S>, k: nat)
    ensures Alive(s, k) ==> InRow(s, k)
  {
  }

  lemma SurvivesMarks<S(!new)>(B: Setup<S>, s: Store<S>, arrival: seq<Bound>, marked: seq<bool>, k: nat)
    requires SetupOk(B) && StoreOk(B, s) && PrunedBelow(B, s, arrival, marked, |s.rows|)
    ensures Alive(s.(dominated := marked), k) <==> Compatible(B, s, arrival, k)
  {
    hide SetupOk, Incompatible, LabelOk, RowIn;
  }

  lemma AreArrivals<S>(P: Problem<S>, vertexMin: seq<Bound>, arrival: seq<Bound>)
    requires WellFormed(P) && |vertexMin| == |arrival| == P.nVertices
    requires forall a: nat :: a < P.nArcs ==> arrival[P.top.to(a)].AtMost(vertexMin[P.top.from(a)].Add(P.cost(a)))
    requires forall v: nat :: v < P.nVertices && arrival[v].Fin? ==>
               exists a: nat :: a < P.nArcs && P.top.to(a) == v && arrival[v] == vertexMin[P.top.from(a)].Add(P.cost(a))
    ensures ArrivalsOf(P, vertexMin, arrival)
  {
    forall v: nat | v < P.nVertices && arrival[v].Fin? ensures ArrivesOver(P, vertexMin, v, arrival[v]) {
      var a: nat :| a < P.nArcs && P.top.to(a) == v && arrival[v] == vertexMin[P.top.from(a)].Add(P.cost(a));
      assert P.top.from(a) < P.nVertices;
    }
  }

  lemma BoundsSize<S(!new)>(F: Setup<S>, v: Side<S>)
    requires SetupOk(F) && AllBounds(F, v.store, v.cBest, v.vertexMin)
    ensures |v.vertexMin| == F.P.nVertices
  {
  }

  lemma PackWellFormed<S(!new)>(F: Setup<S>)
    requires SetupOk(F)
    ensures WellFormed(F.P)
  {
  }

  /** Pruning and the bounds after it: what the join reads. */
  method Prune<S(!new)>(F: Setup<S>, B: Setup<S>, fw: Side<S>, s: Store<S>)
    returns (M: Meeting<S>, ghost arrival: seq<Bound>)
    requires Paired(F, B) && StoreOk(F, fw.store) && AllBounds(F, fw.store, fw.cBest, fw.vertexMin) && StoreOk(B, s)
    ensures Meets(M) && M.P == F.P && M.G == F.G && M.theta == F.theta && M.fw == fw && M.bw.store.pool == s.pool
    ensures Finished(F, fw.store) && Finished(B, s) ==> MetAfter(F, B, M, s, arrival)
    ensures StoresAfter(F, B, M, s, arrival)
  {
    hide TopoOrder, Grouped, Disposable, StoreOk, Full, Finished, PrefixMin, VertexMin, PrunedBelow, Meets, MetAfter,
         StoresAfter;
    var reach := MinArrivals(F.P, fw.vertexMin);
    arrival := reach;
    var marked := PruneIncompatible(B, s, reach);
    MarkedOk(B, s, reach, marked);
    var t := s.(dominated := marked);
    var rows := CompactRows(B, t);
    var kept := t.(rows := rows);
    var best, least := RecomputeBounds(B, kept);
    M := Meeting(F.P, F.G, F.theta, fw, Side(kept, best, least));
    MeetingOk(F, B, M);
    PackWellFormed(F);
    BoundsSize(F, fw);
    AreArrivals(F.P, fw.vertexMin, reach);
    AreStoresAfter(F, B, M, s, reach, marked);
    if Finished(F, fw.store) && Finished(B, s) {
      Met(F, B, M, s, reach, marked);
    }
  }

  lemma MarkedOk<S(!new)>(B: Setup<S>, s: Store<S>, arrival: seq<Bound>, marked: seq<bool>)
    requires SetupOk(B) && StoreOk(B, s) && PrunedBelow(B, s, arrival, marked, |s.rows|)
    ensures StoreOk(B, s.(dominated := marked))
  {
    hide TopoOrder, Grouped, Disposable, Incompatible;
    var t := s.(dominated := marked);
    forall i: nat | i < |t.pool| ensures LabelOk(B, t.pool, i) { assert LabelOk(B, s.pool, i); }
    forall b: nat | b < |t.rows| ensures RowIn(B, t, b) && RowTidy(B, t, b) {
      assert RowIn(B, s, b) && RowTidy(B, s, b);
      StillTidy(B, s, t, b);
    }
  }

  /**
   * solve_bidirectional in the Exact stage, sequential. Every returned path is a feasible walk of the stated
   * cost and, unless there are jump arcs, a visible one. Without a cap hit the first is the cheapest of all
   * visible walks below theta; so it is optimal but for overlooked walks and, without a pack, late-paid ones.
   */
  method SolveBidirectional<S(!new)>(C: Setup<S>, B: Setup<S>, maxPaths: nat, ghost inv: Invariant<S>)
    returns (paths: seq<Path>, capped: bool, ghost end: Option<Outcome<S>>)
    requires Paired(C, B) && C.opposite.None? && Joinable(C.P.pack, C.P.top, inv)
    requires C.P.lb(C.P.top.sink).AtMost(C.P.ub(C.P.top.sink))
    ensures forall i: nat :: i < |paths| ==> Realises(C.P, paths[i]) && paths[i].reducedCost < C.theta
    ensures forall i: nat, j: nat :: i < j < |paths| ==> paths[i].reducedCost <= paths[j].reducedCost
    ensures end.Some? <==> InitialNode(C.P, Forward).Some? && InitialNode(C.P, Backward).Some?
    ensures if end.Some? then Outcomes(C, B, end.value, capped, maxPaths, paths) else paths == []
    ensures AllFollow(C, B, paths)
    ensures NoJumps(C) && NoJumps(B) ==> AllVisible(C.P, paths, C.theta, C.mid.val)
    ensures !capped && BothFull(C, B) ==> BestVisible(C.P, paths, C.theta, C.mid.val)
    ensures Plain(C) && Plain(B) && FewPartial(C.P, Forward, SCC_CAP) && FewPartial(C.P, Backward, SCC_CAP) ==> !capped
    ensures !capped && BothFull(C, B) && Splittable(C.P, C.mid.val, inv) ==>
              OptimalButFor(C.P, paths, C.theta, C.mid.val)
  {
    hide Splittable, BestVisible, OptimalButFor, BothFull, FollowsBoth, Outcomes, SetupOk, FewPartial, Plain;
    PairedFacts(C, B);
    PackDisposes(C);
    paths, capped, end := SolveVisible(C, B, maxPaths, inv);
    if !capped && BothFull(C, B) && Splittable(C.P, C.mid.val, inv) {
      BestIsOptimal(C.P, paths, C.theta, C.mid.val, inv);
    }
  }

  method SolveVisible<S(!new)>(C: Setup<S>, B: Setup<S>, maxPaths: nat, ghost inv: Invariant<S>)
    returns (paths: seq<Path>, capped: bool, ghost end: Option<Outcome<S>>)
    requires Paired(C, B) && C.opposite.None? && Joinable(C.P.pack, C.P.top, inv)
    requires C.P.lb(C.P.top.sink).AtMost(C.P.ub(C.P.top.sink))
    ensures forall i: nat :: i < |paths| ==> Realises(C.P, paths[i]) && paths[i].reducedCost < C.theta
    ensures forall i: nat, j: nat :: i < j < |paths| ==> paths[i].reducedCost <= paths[j].reducedCost
    ensures end.Some? <==> InitialNode(C.P, Forward).Some? && InitialNode(C.P, Backward).Some?
    ensures if end.Some? then Outcomes(C, B, end.value, capped, maxPaths, paths) else paths == []
    ensures AllFollow(C, B, paths)
    ensures NoJumps(C) && NoJumps(B) ==> AllVisible(C.P, paths, C.theta, C.mid.val)
    ensures !capped && BothFull(C, B) ==> BestVisible(C.P, paths, C.theta, C.mid.val)
    ensures Plain(C) && Plain(B) && FewPartial(C.P, Forward, SCC_CAP) && FewPartial(C.P, Backward, SCC_CAP) ==> !capped
  {
    hide FewPartial, Plain, SetupOk, StoreOk, Finished, Full, Joinable, AllBounds, Realises, BestVisible, AllVisible,
         InitialNode, NoJumps, OppositeBelow, FollowsBoth, StoresAfter, AnswersBoth, Tight, FilteredBy;
    paths, end := [], None;
    NothingVisible(C.P, C.theta, C.mid.val);
    var started, F, fw, bw, s;
    started, F, fw, s, bw, capped := LabelBothWays(C, B);
    if !started { return; }
    ghost var M, arrival;
    paths, M, arrival := JoinAndSelect(F, B, fw, s, maxPaths, inv, capped);
    FilteredIs(B, s, bw.cBest, F.opposite);
    end := Some(Outcome(F, M, s, arrival));
    SameFollow(C, F, B, paths);
  }

  /**
   * The two labeling runs of a bidirectional solve, backward first; its minima are what forward labels are filtered
   * with.
   */
  method LabelBothWays<S(!new)>(C: Setup<S>, B: Setup<S>)
    returns (started: bool, F: Setup<S>, fw: Side<S>, s: Store<S>, bw: Side<S>, capped: bool)
    requires Paired(C, B) && C.opposite.None?
    ensures started ==> F == C.(opposite := F.opposite)
    ensures started <==> InitialNode(C.P, Forward).Some? && InitialNode(C.P, Backward).Some?
    ensures started ==>
              Paired(F, B) && F.P == C.P && F.G == C.G && F.theta == C.theta && F.mid == C.mid && F.arcs == C.arcs
              && F.fixed == C.fixed && (BothFull(C, B) ==> BothFull(F, B))
    ensures started ==> (NoJumps(C) ==> NoJumps(F)) && (Plain(C) ==> Plain(F))
    ensures started ==> StoreOk(F, fw.store) && AllBounds(F, fw.store, fw.cBest, fw.vertexMin)
    ensures started ==> StoreOk(B, s) && AllBounds(B, s, bw.cBest, bw.vertexMin) && bw.store == s
    ensures started ==> F.opposite.Some? && OppositeBelow(B, s, F.opposite.value)
    ensures started && !capped ==> Finished(F, fw.store) && Finished(B, s) && Tight(F, fw.store) && Tight(B, s)
    ensures started && capped ==> |fw.store.pool| >= SCC_CAP || |s.pool| >= SCC_CAP
    ensures started ==> F.opposite == Some(bw.vertexMin)
    ensures Plain(C) && Plain(B) && FewPartial(C.P, Forward, SCC_CAP) && FewPartial(C.P, Backward, SCC_CAP) ==> !capped
  {
    hide FewPartial, Plain, BornOnce, SetupOk, StoreOk, Finished, BoundsOk, Full, AllBounds, InitialNode, NoJumps,
         OppositeBelow, Tight;
    var backward := new LabelingRun(B);
    started, capped := backward.Solve();
    s := Store(backward.pool, backward.dominated, backward.extended, backward.rows);
    bw := Side(s, backward.cBest, backward.vertexMin);
    F, fw := C, bw;
    if !started { return; }
    if Plain(B) && FewPartial(B.P, Backward, SCC_CAP) { FewLabels(B, backward.State(), SCC_CAP); }
    BoundsOfRun(B, s, backward.cBest, backward.vertexMin);
    BelowStored(B, s, backward.cBest, backward.vertexMin);
    var least := backward.vertexMin;
    OppositeSetup(C, least);
    F := WithOpposite(C, least);
    var forward := new LabelingRun(F);
    var c;
    started, c := forward.Solve();
    capped := capped || c;
    if !started { return; }
    SamePlain(C, least);
    if Plain(F) && FewPartial(F.P, Forward, SCC_CAP) { FewLabels(F, forward.State(), SCC_CAP); }
    SameJumps(C, least);
    fw := Side(Store(forward.pool, forward.dominated, forward.extended, forward.rows), forward.cBest,
          forward.vertexMin);
    BoundsOfRun(F, fw.store, fw.cBest, fw.vertexMin);
  }

  /** The part of the solve after both labelings. */
  method JoinAndSelect<S(!new)>(F: Setup<S>, B: Setup<S>, fw: Side<S>, s: Store<S>, maxPaths: nat,
                                ghost inv: Invariant<S>, ghost capped: bool)
    returns (paths: seq<Path>, ghost M: Meeting<S>, ghost arrival: seq<Bound>)
    requires Paired(F, B) && Joinable(F.P.pack, F.P.top, inv) && F.P.lb(F.P.top.sink).AtMost(F.P.ub(F.P.top.sink))
    requires StoreOk(F, fw.store) && AllBounds(F, fw.store, fw.cBest, fw.vertexMin) && StoreOk(B, s)
    requires InitialNode(F.P, Backward).Some? && (F.opposite.Some? ==> OppositeBelow(B, s, F.opposite.value))
    requires !capped ==> Finished(F, fw.store) && Finished(B, s)
    ensures forall i: nat :: i < |paths| ==> Realises(F.P, paths[i]) && paths[i].reducedCost < F.theta
    ensures forall i: nat, j: nat :: i < j < |paths| ==> paths[i].reducedCost <= paths[j].reducedCost
    ensures M.P == F.P && M.fw == fw && StoresAfter(F, B, M, s, arrival) && AnswersBoth(F, M, maxPaths, paths)
    ensures F.mid.Fin?
    ensures AllFollow(F, B, paths)
    ensures NoJumps(F) && NoJumps(B) ==> AllVisible(F.P, paths, F.theta, F.mid.val)
    ensures !capped && BothFull(F, B) ==> BestVisible(F.P, paths, F.theta, F.mid.val)
  {
    hide SetupOk, StoreOk, Finished, Full, Joinable, AllBounds, Meets, MetAfter, Realises, BestVisible, AllVisible,
         InitialNode, Emits, SinkCandidate, NoJumps, ArcsOf, OppositeBelow, FollowsBoth, StoresAfter, AnswersBoth,
         CandidatesOf, CheapestOf;
    var meeting;
    meeting, arrival := Prune(F, B, fw, s);
    M := meeting;
    var joined := CollectConcat(meeting);
    var sinks := CollectSink(F, fw.store.pool, fw.store.dominated, fw.store.rows, fw.store);
    CandidatesAre(F, M, joined, sinks);
    AllDistinct(F, M, joined + sinks);
    var best := Select(joined + sinks, maxPaths);
    paths := RealiseBoth(F, B, meeting, s, best, inv);
    AnswersWith(F, M, maxPaths, joined + sinks, best, paths);
    PathsFollow(F, B, M, s, best, paths);
    if NoJumps(F) && NoJumps(B) { PathsVisible(F, B, M, s, best, paths); }
    if !capped && BothFull(F, B) { FirstIsBest(F, B, M, s, arrival, inv, joined + sinks, best, paths); }
  }

  lemma SamePlain<S>(C: Setup<S>, least: seq<Bound>)
    ensures Plain(C) ==> Plain(WithOpposite(C, least))
  {
    hide ArcOrder;
  }

  lemma SameJumps<S>(C: Setup<S>, least: seq<Bound>)
    ensures NoJumps(C) ==> NoJumps(WithOpposite(C, least))
  {
  }

  lemma NothingVisible<S(!new)>(P: Problem<S>, theta: real, mid: real)
    ensures AllVisible(P, [], theta, mid)
    ensures InitialNode(P, Forward).None? || InitialNode(P, Backward).None? ==> BestVisible(P, [], theta, mid)
  {
  }

  lemma PathsVisible<S(!new)>(F: Setup<S>, B: Setup<S>, M: Meeting<S>, s: Store<S>, best: seq<Candidate>,
                              paths: seq<Path>)
    requires Paired(F, B) && M.P == F.P && M.theta == F.theta && StoreOk(F, M.fw.store) && StoreOk(B, s)
             && M.bw.store.pool == s.pool
    requires NoJumps(F) && NoJumps(B) && (forall c :: c in best ==> Genuine(F, M, c))
             && InitialNode(F.P, Backward).Some?
    requires |paths| == |best| && forall i: nat :: i < |paths| ==> paths[i].arcs == ArcsOf(M, best[i])
    ensures F.mid.Fin? && AllVisible(F.P, paths, F.theta, F.mid.val)
  {
    hide SetupOk, StoreOk, Full, Genuine, Visible, ArcsOf, InitialNode, NoJumps;
    forall i: nat | i < |paths| ensures Visible(F.P, F.theta, F.mid.val, paths[i].arcs) {
      assert best[i] in best;
      CandidateVisible(F, B, M, s, best[i]);
    }
  }
}
