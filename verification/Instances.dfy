/** Small instances on which the engine loses its only path. */
module Instances {
  import opened Types
  import opened Resources
  import opened Problems
  import opened Exactness
  import opened Threads
  import opened Paths
  import opened Solving
  import opened Joins
  import opened Concat
  import opened Bidirectional
  import opened BidirectionalSolve
  import opened BucketArcs
  import opened LabelingSpec
  import opened LabelElimination
  import opened LabelWalks
  import opened LabelStores
  import opened Grids
  import opened BucketOrder
  import opened Elimination
  import opened BidirectionalFixing
  import opened Building
  import opened Completion
  import opened JumpArcSearch
  import opened LabelCounts
  import opened Caps
  import opened Pruning

  // ----- Lines: the one path 0, 1, ..., n, vertex v at time v -----

  function Line(n: nat, cost: nat -> real): Problem<()> {
    Problem(n + 1, n, Topology(a => a, a => a + 1, 0, n), cost, cost, a => Vec(1.0, 0.0),
            v => Vec(v as real, 0.0), v => Vec(v as real, 0.0), false, false, NoResource.AsResource())
  }

  ghost predicate OnLine(n: Node<()>) { n.q == Vec(n.vertex as real, 0.0) }

  lemma LineStart(n: nat, cost: nat -> real, dir: Direction)
    ensures var r := InitialNode(Line(n, cost), dir);
            r.Some? && OnLine(r.value) && r.value.vertex == (if dir.Forward? then 0 else n) && r.value.cost == 0.0
  {
    EmptyCosts(dir, (), 0, if dir.Forward? then 0 else n, ());
  }

  lemma LineStep(n: nat, cost: nat -> real, dir: Direction, u: Node<()>, a: nat)
    requires OnLine(u)
    ensures var P := Line(n, cost);
            var r := Step(P, dir, u, a);
            && (r.Some? <==> a < n && P.top.Tail(dir, a) == u.vertex)
            && (r.Some? ==> OnLine(r.value) && r.value.vertex == P.top.Head(dir, a) && r.value.cost == u.cost + cost(a))
  {
    EmptyCosts(dir, u.states, a, Line(n, cost).top.Head(dir, a), ());
  }

  /** Whatever is feasible follows the line. */
  lemma {:induction false} LineRun(n: nat, cost: nat -> real, dir: Direction, u: Node<()>, p: seq<nat>)
    requires OnLine(u) && Run(Line(n, cost), dir, u, p).Some?
    ensures var z := Run(Line(n, cost), dir, u, p).value;
            && OnLine(z) && z.vertex == (if dir.Forward? then u.vertex + |p| else u.vertex - |p|)
            && (|p| > 0 ==> z.vertex <= n)
    ensures dir.Forward? ==> forall i: nat :: i < |p| ==> p[i] == u.vertex + i
    decreases |p|
  {
    if p != [] {
      LineStep(n, cost, dir, u, p[0]);
      LineRun(n, cost, dir, Step(Line(n, cost), dir, u, p[0]).value, p[1..]);
      forall i: nat | dir.Forward? && i < |p|
        ensures p[i] == u.vertex + i
      {
        if i > 0 { assert p[i] == p[1..][i - 1]; }
      }
    }
  }

  /** The only feasible walk takes every arc, and is at time k after k arcs. */
  lemma LineWalk(n: nat, cost: nat -> real, p: seq<nat>, z: Node<()>)
    requires FeasibleWalk(Line(n, cost), p, z)
    ensures |p| == n && forall i: nat :: i < n ==> p[i] == i
    ensures forall k: nat ::
            k <= n ==> Prefix(Line(n, cost), p, k).Some? && Prefix(Line(n, cost), p, k).value.q.x == k as real
  {
    var P := Line(n, cost);
    LineStart(n, cost, Forward);
    var u := InitialNode(P, Forward).value;
    LineRun(n, cost, Forward, u, p);
    forall k: nat | k <= n ensures Prefix(P, p, k).Some? && Prefix(P, p, k).value.q.x == k as real {
      PrefixExists(P, p, z, k);
      LineRun(n, cost, Forward, u, p[..k]);
    }
  }

  lemma LineSplits(n: nat, cost: nat -> real, mid: real)
    requires n > 0 && mid >= 0.0
    ensures var P := Line(n, cost); WellFormed(P) && Disposable(P.pack, P.top) && Splittable(P, mid, EmptyInv())
  {
    EmptyDisposable(Line(n, cost).top);
    EmptyJoinable(Line(n, cost).top);
  }

  /** The first k arcs of the line are feasible and cost what they say. */
  lemma {:induction false} LinePrefix(n: nat, cost: nat -> real, p: seq<nat>)
    requires |p| <= n && forall i: nat :: i < |p| ==> p[i] == i
    ensures var P := Line(n, cost);
            var r := Run(P, Forward, InitialNode(P, Forward).value, p);
            r.Some? && OnLine(r.value) && r.value.vertex == |p| && r.value.cost == Total(cost, |p|)
  {
    var P := Line(n, cost);
    LineStart(n, cost, Forward);
    var u := InitialNode(P, Forward).value;
    if p != [] {
      var k := |p| - 1;
      LinePrefix(n, cost, p[..k]);
      assert p == p[..k] + [p[k]] && [p[k]][1..] == [];
      RunAppend(P, Forward, u, p[..k], [p[k]]);
      LineStep(n, cost, Forward, Run(P, Forward, u, p[..k]).value, p[k]);
    }
  }

  function Total(cost: nat -> real, k: nat): real { if k == 0 then 0.0 else Total(cost, k - 1) + cost(k - 1) }

  /** What a list of results that are feasible and visible says about an instance without visible walks. */
  ghost predicate NothingToFind(P: Problem<()>, theta: real, mid: real) {
    && (forall q, y :: FeasibleWalk(P, q, y) ==> !Visible(P, theta, mid, q))
    && (forall paths: seq<Path> ::
      (forall i: nat :: i < |paths| ==> Realises(P, paths[i])) && AllVisible(P, paths, theta, mid) ==> paths == [])
  }

  lemma NothingFound(P: Problem<()>, theta: real, mid: real)
    requires forall q, y :: FeasibleWalk(P, q, y) ==> !Visible(P, theta, mid, q)
    ensures NothingToFind(P, theta, mid)
  {
    hide Visible, FeasibleWalk;
    forall paths: seq<Path> | (forall i: nat :: i < |paths| ==> Realises(P, paths[i]))
        && AllVisible(P, paths, theta, mid)
      ensures paths == []
    {
      if paths != [] { FirstIsVisible(P, theta, mid, paths); }
    }
  }

  lemma FirstIsVisible(P: Problem<()>, theta: real, mid: real, paths: seq<Path>)
    requires |paths| > 0 && Realises(P, paths[0]) && AllVisible(P, paths, theta, mid)
    ensures exists q, y :: FeasibleWalk(P, q, y) && Visible(P, theta, mid, q)
  {
    hide Visible, FeasibleWalk;
    var y :| FeasibleWalk(P, paths[0].arcs, y) && y.cost == paths[0].reducedCost && y.realCost == paths[0].originalCost;
    assert Visible(P, theta, mid, paths[0].arcs);
  }

  // ----- Two arcs -----

  const THETA := -0.000001

  function Cheap(a: nat): real { -1.0 }

  /** A walk of two arcs that crosses the midpoint on the first one: cost -2, not found. */
  lemma TwoArcsMissed() returns (z: Node<()>)
    ensures var P := Line(2, Cheap);
            && WellFormed(P) && Disposable(P.pack, P.top) && Splittable(P, 0.5, EmptyInv())
            && FeasibleWalk(P, [0, 1], z) && z.cost == -2.0 < THETA && Overlooked(P, 0.5, [0, 1])
            && NothingToFind(P, THETA, 0.5)
  {
    var P := Line(2, Cheap);
    LineSplits(2, Cheap, 0.5);
    LinePrefix(2, Cheap, [0, 1]);
    assert Total(Cheap, 1) == -1.0;
    z := Run(P, Forward, InitialNode(P, Forward).value, [0, 1]).value;
    LineStart(2, Cheap, Forward);
    assert FeasibleWalk(P, [0, 1], z);
    forall q, y | FeasibleWalk(P, q, y) ensures !Visible(P, THETA, 0.5, q) && Overlooked(P, 0.5, q) {
      LineWalk(2, Cheap, q, y);
      OverlookedInvisible(P, THETA, 0.5, q, y);
    }
    NothingFound(P, THETA, 0.5);
  }

  // ----- No pack -----

  function Late(a: nat): real { if a == 1 then 1.0 else if a == 2 then -5.0 else 0.0 }

  /** A walk that becomes cheap only behind the joining arc: cost -4, not found because there is no pack. */
  lemma LatePaidMissed() returns (z: Node<()>)
    ensures var P := Line(3, Late);
            && P.pack.size == 0 && WellFormed(P) && Disposable(P.pack, P.top) && Splittable(P, 1.5, EmptyInv())
            && FeasibleWalk(P, [0, 1, 2], z) && z.cost == -4.0 < THETA && !Overlooked(P, 1.5, [0, 1, 2])
            && NothingToFind(P, THETA, 1.5)
  {
    var P := Line(3, Late);
    LineSplits(3, Late, 1.5);
    LinePrefix(3, Late, [0, 1, 2]);
    assert Total(Late, 1) == 0.0 && Total(Late, 2) == 1.0;
    z := Run(P, Forward, InitialNode(P, Forward).value, [0, 1, 2]).value;
    LineStart(3, Late, Forward);
    assert FeasibleWalk(P, [0, 1, 2], z);
    forall q, y | FeasibleWalk(P, q, y) ensures !Visible(P, THETA, 1.5, q) {
      LineWalk(3, Late, q, y);
      assert Crossed(P, 1.5, q, 2);
      forall k: nat ensures !MeetsAt(P, THETA, 1.5, q, k) {
        if k == 1 {
          LinePrefix(3, Late, q[..1]);
        }
      }
    }
    NothingFound(P, THETA, 1.5);
  }

  // ----- Both in full: build and solve -----

  function Unit(v: nat): Vec { Vec(1.0, 1.0) }

  /** The engine returns nothing, capped or not, for a problem with a walk of cost -2. */
  method SolveTwoArcs(maxPaths: nat) returns (paths: seq<Path>)
    ensures paths == [] && exists z :: FeasibleWalk(Line(2, Cheap), [0, 1], z) && z.cost == -2.0 < THETA
  {
    hide NothingToFind, Realises, AllVisible, BestVisible, OptimalButFor, FeasibleWalk, Overlooked, Disposable,
         Joinable;
    var z := TwoArcsMissed();
    LineSplits(2, Cheap, 0.5);
    EmptyJoinable(Line(2, Cheap).top);
    var capped;
    ghost var C, B, end;
    paths, capped, C, B, end := BuildAndSolveBothWays(Line(2, Cheap), Unit, 0.5, THETA, maxPaths, EmptyInv());
    FindsNothing(Line(2, Cheap), THETA, 0.5, paths);
  }

  /** The same for a problem with a walk of cost -4 that becomes cheap late. */
  method SolveLatePaid(maxPaths: nat) returns (paths: seq<Path>)
    ensures paths == [] && exists z :: FeasibleWalk(Line(3, Late), [0, 1, 2], z) && z.cost == -4.0 < THETA
  {
    hide NothingToFind, Realises, AllVisible, BestVisible, OptimalButFor, FeasibleWalk, Overlooked, Disposable,
         Joinable;
    var z := LatePaidMissed();
    LineSplits(3, Late, 1.5);
    EmptyJoinable(Line(3, Late).top);
    var capped;
    ghost var C, B, end;
    paths, capped, C, B, end := BuildAndSolveBothWays(Line(3, Late), Unit, 1.5, THETA, maxPaths, EmptyInv());
    FindsNothing(Line(3, Late), THETA, 1.5, paths);
  }

  lemma FindsNothing(P: Problem<()>, theta: real, mid: real, paths: seq<Path>)
    requires NothingToFind(P, theta, mid) && (forall i: nat :: i < |paths| ==> Realises(P, paths[i]))
             && AllVisible(P, paths, theta, mid)
    ensures paths == []
  {
    hide Realises, AllVisible, FeasibleWalk, Visible;
  }

  // ----- Label-based elimination -----

  /** The backward label at vertex j is at time j. */
  lemma LineSuffix(n: nat, cost: nat -> real, t: seq<nat>)
    requires Suffix(Line(n, cost), t).Some?
    ensures |t| <= n && Suffix(Line(n, cost), t).value.q.x == (n - |t|) as real
  {
    LineStart(n, cost, Backward);
    LineRun(n, cost, Backward, InitialNode(Line(n, cost), Backward).value, Reversed(t));
  }

  /**
   * A problem whose only walk has four arcs and meets on its third: elimination takes away its first arc in every
   * bucket.
   */
  lemma FirstArcLost(E: Pass<()>, F: Setup<()>, B: Setup<()>, M: Meeting<()>, s: Store<()>)
    requires F.P == Line(4, Cheap) && F.mid == Fin(2.5) && E.theta == THETA
    requires Paired(F, B) && PassStores(E, F, B, M, s) && Ready(E.C.P, E.C.G) && NoJumps(F) && NoJumps(B)
    ensures forall b: nat, e: BucketArc :: e.arc == 0 ==> !Justified(E, b, e)
  {
    hide Paired, PassStores, NoJumps, Justified, SetupOk, Ready, UsedFrom;
    LineSplits(4, Cheap, 2.5);
    EmptyJoinable(F.P.top);
    OverFacts(E, F, B, M, s);
    forall b: nat, e: BucketArc | e.arc == 0 ensures !Justified(E, b, e) {
      if Justified(E, b, e) {
        JustifiedByWalk(E, F, B, M, s, EmptyInv(), b, e);
        var p, y, k := UsingWalk(E.C, E.theta, F.mid.val, b, e.arc);
        NotFirst(p, y, k);
      }
    }
  }

  /** build for both directions on a line. */
  method BuildLine(n: nat, mid: real) returns (C: Setup<()>, B: Setup<()>, out: seq<seq<nat>>, adj: seq<seq<nat>>)
    requires n > 0 && mid >= 0.0
    ensures Paired(C, B) && BothFull(C, B) && C.opposite.None? && C.P == Line(n, Cheap) && C.mid == Fin(mid)
            && C.theta == THETA
    ensures NoJumps(C) && NoJumps(B) && ArcsOrdered(C) && ArcsOrdered(B)
    ensures |out| == C.P.nVertices && forall v: nat :: v < |out| ==> out[v] == ArcsAt(C.P, Forward, v, C.P.nArcs)
    ensures |adj| == C.P.nVertices && forall v: nat :: v < |adj| ==> adj[v] == ArcsAt(C.P, Backward, v, C.P.nArcs)
  {
    hide SetupOk, Full, Disposable, Joinable, GridUpTo, ArcsOrdered, NoJumps, ArcsAt;
    LineSplits(n, Cheap, mid);
    var G := BuildBuckets(Line(n, Cheap), Unit);
    out := BuildAdjacency(Line(n, Cheap), Forward);
    adj := BuildAdjacency(Line(n, Cheap), Backward);
    C := BuildDirection(Line(n, Cheap), G, Forward, out, Fin(mid), THETA);
    B := BuildDirection(Line(n, Cheap), G, Backward, out, Fin(mid), THETA);
  }

  /**
   * Build, label both ways, prune, eliminate, solve again: the walk of cost -4, which the first solve sees, has lost
   * its first arc in every bucket, and the second solve returns nothing.
   */
  method LoseByElimination(maxPaths: nat) returns (own: Setup<()>, opp: Setup<()>, paths: seq<Path>)
    ensures paths == []
    ensures exists z :: FeasibleWalk(Line(4, Cheap), [0, 1, 2, 3], z) && z.cost == -4.0 < THETA
    ensures Visible(Line(4, Cheap), THETA, 2.5, [0, 1, 2, 3])
    ensures own.P == Line(4, Cheap) && forall b: nat, e: BucketArc :: b < |own.arcs| && e in own.arcs[b] ==> e.arc != 0
  {
    hide SetupOk, StoreOk, NoJumps, Visible, FeasibleWalk, ArcsOrdered, AllBounds, Finished, Full, ArcsAt, MetAfter,
         Meets, Justified, Line, Compatible, ArrivalsOf, OppositeBelow, Plain, FewPartial, JumpsExact;
    var z := FourArcs();
    BothStart(4);
    LineSize(4);
    var C, B, out, adj := BuildLine(4, 2.5);
    var started, F, fw, s, bw, capped := LabelBothWays(C, B);
    var M, arrival := Prune(F, B, fw, s);
    var E := Pass(F, M.fw, M.bw, THETA);
    SameOrder(C, F);
    NothingFixed(F, B);
    own, opp := EliminateArcsLabelBased(E, B, out, adj);
    FirstArcLost(E, F, B, M, s);
    StillPaired(F, B, own, opp);
    paths := FindNothing(own, opp, maxPaths);
  }

  lemma StillPaired(F: Setup<()>, B: Setup<()>, own: Setup<()>, opp: Setup<()>)
    requires Paired(F, B) && SetupOk(own) && SetupOk(opp)
    requires own == F.(arcs := own.arcs, jumps := own.jumps) && opp == B.(arcs := opp.arcs, jumps := opp.jumps)
    ensures Paired(own, opp)
  {
    hide SetupOk;
  }

  /** The solve after the first arc has been lost. */
  method FindNothing(own: Setup<()>, opp: Setup<()>, maxPaths: nat) returns (paths: seq<Path>)
    requires Paired(own, opp) && own.P == Line(4, Cheap) && JumpsExact(own)
    requires forall b: nat, e: BucketArc :: b < |own.arcs| && e in own.arcs[b] ==> e.arc != 0
    ensures paths == []
  {
    hide TopoOrder, Grouped, Disposable, GridUpTo, BucketOk, JumpsExact, FollowsBoth;
    NoWayOut(own);
    paths := SolveAgain(own, opp, 4, maxPaths);
    if paths != [] { NothingFollows(Unfiltered(own), opp, paths[0].arcs); }
  }

  /** The forward direction at the start of a solve. */
  function Unfiltered(C: Setup<()>): Setup<()> { C.(opposite := None) }

  lemma UnfilteredPaired(C: Setup<()>, B: Setup<()>)
    requires Paired(C, B)
    ensures Paired(Unfiltered(C), B) && Unfiltered(C).opposite.None? && Unfiltered(C).P == C.P
  {
    hide TopoOrder, Grouped, Disposable, FullArcs, GridUpTo;
    var D := Unfiltered(C);
    forall b: nat, e: BucketArc | b < |D.arcs| && e in D.arcs[b] ensures ArcOk(D, b, e) { assert ArcOk(C, b, e); }
    forall b: nat, j: JumpArc | b < |D.jumps| && j in D.jumps[b] ensures JumpOk(D, b, j) { assert JumpOk(C, b, j); }
  }

  /** The next bidirectional solve on two bucket graphs of a line. */
  method SolveAgain(C: Setup<()>, B: Setup<()>, n: nat, maxPaths: nat) returns (paths: seq<Path>)
    requires Paired(C, B) && n > 0 && C.P == Line(n, Cheap)
    ensures Paired(Unfiltered(C), B) && AllFollow(Unfiltered(C), B, paths)
  {
    hide Paired, AllFollow, Realises, BestVisible, OptimalButFor, AllVisible, NoJumps, Disposable, Joinable,
         BothFull, Plain, FewPartial;
    LineSplits(n, Cheap, 0.0);
    UnfilteredPaired(C, B);
    var capped;
    ghost var end;
    paths, capped, end := SolveBidirectional(Unfiltered(C), B, maxPaths, EmptyInv());
  }

  lemma ArcFromStart(C: Setup<()>, b: nat, e: BucketArc)
    requires C.P == Line(4, Cheap) && C.dir.Forward? && SetupOk(C) && b < |C.arcs| && C.G.buckets[b].vertex == 0
    requires e in C.arcs[b]
    ensures e.arc == 0
  {
    hide TopoOrder, Grouped, Disposable, GridUpTo, BucketOk;
    assert ArcOk(C, b, e);
    FullArcsMembers(C.P, C.G, C.dir, b);
  }

  /** A jump arc of the source's bucket needs a bucket that has the first arc. */
  lemma JumpFromStart(C: Setup<()>, b: nat, j: JumpArc)
    requires C.P == Line(4, Cheap) && C.dir.Forward? && SetupOk(C) && b < |C.jumps| && C.G.buckets[b].vertex == 0
    requires j in C.jumps[b] && JumpsExact(C)
    ensures exists d: nat :: d < |C.arcs| && HasArc(C, d, 0)
  {
    hide TopoOrder, Grouped, Disposable, GridUpTo, BucketOk, HasArc;
    assert JumpOk(C, b, j);
    assert JumpsOf(C, b, C.jumps[b]) && JumpsTo(C, b, j);
    assert j.jumpBucket < |C.arcs| && HasArc(C, j.jumpBucket, 0);
  }

  /** Without the first arc nothing leaves the source, neither over a bucket arc nor by a jump. */
  lemma NoWayOut(C: Setup<()>)
    requires C.P == Line(4, Cheap) && C.dir.Forward? && SetupOk(C) && JumpsExact(C)
    requires forall b: nat, e: BucketArc :: b < |C.arcs| && e in C.arcs[b] ==> e.arc != 0
    ensures forall n :: InitialNode(C.P, C.dir) == Some(n) ==>
      n.vertex == 0 && BucketOf(C, n) < |C.arcs| == |C.jumps| && C.arcs[BucketOf(C, n)] == []
      && C.jumps[BucketOf(C, n)] == []
  {
    hide TopoOrder, Grouped, Disposable, GridUpTo, BucketOk;
    LineStart(4, Cheap, Forward);
    var u := InitialNode(C.P, Forward).value;
    var b := BucketOf(C, u);
    BucketIndexFacts(C.P, C.G, 0, u.q);
    if C.arcs[b] != [] {
      ArcFromStart(C, b, C.arcs[b][0]);
      assert false;
    }
    if C.jumps[b] != [] {
      JumpFromStart(C, b, C.jumps[b][0]);
      assert false;
    }
  }

  /** So the bucket graphs lead nowhere: the joining arc does not leave the source either. */
  lemma NothingFollows(C: Setup<()>, B: Setup<()>, arcs: seq<nat>)
    requires C.P == Line(4, Cheap) && Paired(C, B)
    requires forall n :: InitialNode(C.P, C.dir) == Some(n) ==>
      n.vertex == 0 && BucketOf(C, n) < |C.arcs| == |C.jumps| && C.arcs[BucketOf(C, n)] == []
      && C.jumps[BucketOf(C, n)] == []
    ensures !FollowsBoth(C, B, arcs)
  {
    hide TopoOrder, Grouped, Disposable, GridUpTo, Threaded;
    if FollowsBoth(C, B, arcs) {
      if z :| SinkThread(C, arcs, z) {
        CutOff(C, arcs, z);
        assert false;
      } else {
        var t, u, a: nat, r, w :| ThreadPair(C, B, t, u, a, r, w) && arcs == t + [a] + Reversed(r);
        CutOff(C, t, u);
        assert false;
      }
    }
  }

  lemma LineSize(n: nat)
    ensures Line(n, Cheap).nVertices == n + 1
  {
  }

  lemma BothStart(n: nat)
    ensures InitialNode(Line(n, Cheap), Forward).Some? && InitialNode(Line(n, Cheap), Backward).Some?
  {
    LineStart(n, Cheap, Forward);
    LineStart(n, Cheap, Backward);
  }

  lemma SameOrder(C: Setup<()>, F: Setup<()>)
    requires ArcsOrdered(C) && F.arcs == C.arcs
    ensures ArcsOrdered(F)
  {
    hide ArcOrder;
  }

  lemma NothingFixed(F: Setup<()>, B: Setup<()>)
    requires Paired(F, B) && BothFull(F, B)
    ensures F.fixed == {} && SetupOk(F) && SetupOk(B) && Ready(F.P, F.G) && Ready(B.P, B.G)
  {
    hide TopoOrder, Grouped, Disposable, GridUpTo, FullArcs;
  }

  lemma FourArcs() returns (z: Node<()>)
    ensures FeasibleWalk(Line(4, Cheap), [0, 1, 2, 3], z) && z.cost == -4.0
            && Visible(Line(4, Cheap), THETA, 2.5, [0, 1, 2, 3])
  {
    var P, p := Line(4, Cheap), [0, 1, 2, 3];
    LinePrefix(4, Cheap, p);
    assert Total(Cheap, 1) == -1.0 && Total(Cheap, 2) == -2.0 && Total(Cheap, 3) == -3.0;
    z := Run(P, Forward, InitialNode(P, Forward).value, p).value;
    LineStart(4, Cheap, Forward);
    LineStart(4, Cheap, Backward);
    assert FeasibleWalk(P, p, z);
    LineWalk(4, Cheap, p, z);
    LinePrefix(4, Cheap, p[..2]);
    assert p[4..] == [];
    assert InReach(P, 2.5, p, 4);
    assert MeetsAt(P, THETA, 2.5, p, 2);
  }

  /** No backward label comes back to vertex 1. */
  lemma NotFirst(p: seq<nat>, y: Node<()>, k: nat)
    requires CrossesAt(Line(4, Cheap), THETA, 2.5, p, y, k)
    ensures p[k] != 0
  {
    LineWalk(4, Cheap, p, y);
    if k == 0 {
      assert InReach(Line(4, Cheap), 2.5, p, 2);
      LineSuffix(4, Cheap, p[2..]);
    }
  }

  // ----- Fixing after a bidirectional solve -----

  /** No forward label gets beyond vertex 2. */
  lemma StopsAtTwo(F: Setup<()>, s: Store<()>, u: nat)
    requires F.P == Line(5, Cheap) && F.mid == Fin(1.5) && F.dir.Forward? && SetupOk(F) && StoreOk(F, s) && NoJumps(F)
             && u >= 3
    ensures Unreached(s, u)
  {
    hide TopoOrder, Grouped, Disposable, GridUpTo, NoJumps, LabelOk, RowOk;
    LineStart(5, Cheap, Forward);
    forall b: nat, k: nat | b < |s.rows| && k in s.rows[b].ids && k < |s.pool| ensures s.pool[k].node.vertex != u {
      var n0 := Sound(F, s, k);
      var t, r := Trace(s.pool, k), InitialNode(F.P, Forward).value;
      LineRun(5, Cheap, Forward, r, t);
      if |t| >= 3 {
        ParentsNotPast(F, s, k, 2);
        LineRun(5, Cheap, Forward, r, t[..2]);
      }
    }
  }

  /** Down the line from vertex u.vertex. */
  lemma {:induction false} LineDown(n: nat, u: Node<()>, p: seq<nat>)
    requires OnLine(u) && |p| <= u.vertex <= n && forall i: nat :: i < |p| ==> p[i] == u.vertex - 1 - i
    ensures var r := Run(Line(n, Cheap), Backward, u, p);
            r.Some? && OnLine(r.value) && r.value.vertex == u.vertex - |p| && r.value.cost == u.cost - |p| as real
    decreases |p|
  {
    if p != [] {
      LineStep(n, Cheap, Backward, u, p[0]);
      LineDown(n, Step(Line(n, Cheap), Backward, u, p[0]).value, p[1..]);
    }
  }

  /**
   * On a problem whose only walk has five arcs and crosses the midpoint on its second, the vertex before the sink is
   * fixed whatever the bounds and theta, and the backward search of the next solve lacks a bucket the walk needs.
   */
  lemma FarVertexFixed(F: Setup<()>, B: Setup<()>, M: Meeting<()>, s: Store<()>, arrival: seq<Bound>,
                       comp: seq<Bound>, bwComp: seq<Bound>, theta: real,
                       fixed: set<nat>)
    requires F.P == Line(5, Cheap) && F.mid == Fin(1.5) && Paired(F, B) && NoJumps(F)
             && StoresAfter(F, B, M, s, arrival)
    requires |comp| == |bwComp| == |F.G.buckets|
    requires forall b: nat :: ToFix(M.fw.cBest, comp, Some(Backwards(M.bw.cBest, bwComp)), theta, b) ==> b in fixed
    ensures var D := B.(fixed := fixed); SetupOk(D) && !Preserves(D, THETA) && AllFixed(D, 4)
  {
    hide SetupOk, StoreOk, NoJumps, StoresAfter, ToFix, Preserves, Full, Unreached, GridUpTo;
    SideOf(F, B, M, s, arrival);
    StopsAtTwo(F, M.fw.store, 3);
    StopsAtTwo(F, M.fw.store, 4);
    forall b: nat | b < |F.G.buckets| && F.G.buckets[b].vertex == 4 ensures b in fixed {
      FarIsFixed(F, B, M, s, arrival, comp, bwComp, theta, 4, b);
    }
    FixedIsOk(B, fixed);
    NeedsVertexFour(B.(fixed := fixed));
  }

  ghost predicate AllFixed(C: Setup<()>, v: nat) {
    forall b: nat :: b < |C.G.buckets| && C.G.buckets[b].vertex == v ==> b in C.fixed
  }

  lemma SideOf(F: Setup<()>, B: Setup<()>, M: Meeting<()>, s: Store<()>, arrival: seq<Bound>)
    requires Paired(F, B) && StoresAfter(F, B, M, s, arrival)
    ensures SetupOk(F) && SetupOk(B) && StoreOk(F, M.fw.store)
  {
  }

  lemma FixedIsOk(B: Setup<()>, fixed: set<nat>)
    requires SetupOk(B)
    ensures SetupOk(B.(fixed := fixed))
  {
    hide TopoOrder, Grouped, Disposable, FullArcs, GridUpTo;
    var D := B.(fixed := fixed);
    forall b: nat, e: BucketArc | b < |D.arcs| && e in D.arcs[b] ensures ArcOk(D, b, e) { assert ArcOk(B, b, e); }
    forall b: nat, j: JumpArc | b < |D.jumps| && j in D.jumps[b] ensures JumpOk(D, b, j) { assert JumpOk(B, b, j); }
  }

  /** Bucket walks follow the line, so none comes back. */
  lemma {:induction false} LineLeads(C: Setup<()>, n: nat, b: nat, w: seq<BucketArc>, c: nat)
    requires C.P == Line(n, Cheap) && SetupOk(C) && Leads(C, b, w, c)
    ensures b < |C.G.buckets| && c < |C.G.buckets|
    ensures C.G.buckets[c].vertex == if C.dir.Forward? then C.G.buckets[b].vertex + |w| else C.G.buckets[b].vertex - |w|
    decreases |w|
  {
    hide TopoOrder, Grouped, Disposable, GridUpTo, FullArcs;
    if w != [] {
      LineLeads(C, n, w[0].toBucket, w[1..], c);
      assert ArcOk(C, b, w[0]);
      FullArcsMembers(C.P, C.G, C.dir, b);
      TargetIs(C, b, w[0].arc);
    }
  }

  lemma NoLineCycle(C: Setup<()>, n: nat)
    requires C.P == Line(n, Cheap) && SetupOk(C)
    ensures NoNegativeCycle(C)
  {
    hide SetupOk, Leads, Line;
    forall b: nat, w: seq<BucketArc> | Leads(C, b, w, b) ensures Length(C, w) >= 0.0 { LineLeads(C, n, b, w, b); }
  }

  /**
   * Build, label both ways, prune, compute the bounds, fix buckets, solve again: the walk of cost -5, which the first
   * solve sees, lacks a bucket that the backward search needs, and the second solve returns nothing.
   */
  method LoseByFixing(theta: real, maxPaths: nat) returns (D: Setup<()>, paths: seq<Path>)
    ensures paths == []
    ensures exists z :: FeasibleWalk(Line(5, Cheap), [0, 1, 2, 3, 4], z) && z.cost == -5.0 < THETA
    ensures Visible(Line(5, Cheap), THETA, 1.5, [0, 1, 2, 3, 4])
    ensures SetupOk(D) && D.P == Line(5, Cheap) && D.dir.Backward? && !Preserves(D, THETA)
  {
    hide SetupOk, StoreOk, NoJumps, Visible, FeasibleWalk, ArcsOrdered, AllBounds, Finished, Full, ArcsAt, MetAfter,
         Meets, Line, StoresAfter, Plain, FewPartial, OppositeBelow, Preserves, BoundsOfWalks, ToFix, ShortestBehind,
         NoNegativeCycle, AllFixed, FollowsBoth;
    var z := FiveArcs();
    BothStart(5);
    var C, B, out, adj := BuildLine(5, 1.5);
    var started, F, fw, s, bw, capped := LabelBothWays(C, B);
    var M, arrival := Prune(F, B, fw, s);
    NothingFixed(F, B);
    NoLineCycle(F, 5);
    NoLineCycle(B, 5);
    var comp, ef := ComputeCompletion(F);
    var bwComp, eb := ComputeCompletion(B);
    BoundsLength(F, B, M, s, arrival);
    var fixed, _ := FixBuckets(M.fw.cBest, comp, Some(Backwards(M.bw.cBest, bwComp)), theta, {});
    FarVertexFixed(F, B, M, s, arrival, comp, bwComp, theta, fixed);
    D := B.(fixed := fixed);
    FixedPaired(F, B, fixed);
    paths := SolveAgain(F.(fixed := fixed), D, 5, maxPaths);
    if paths != [] { NeverMeet(Unfiltered(F.(fixed := fixed)), D, paths[0].arcs); }
  }

  lemma FixedPaired(F: Setup<()>, B: Setup<()>, fixed: set<nat>)
    requires Paired(F, B)
    ensures Paired(F.(fixed := fixed), B.(fixed := fixed))
    ensures NoJumps(F) ==> NoJumps(Unfiltered(F.(fixed := fixed)))
    ensures NoJumps(B) ==> NoJumps(B.(fixed := fixed))
  {
    hide SetupOk;
    FixedIsOk(F, fixed);
    FixedIsOk(B, fixed);
  }

  /** One move of a bucket graph without jump arcs takes the line one vertex further. */
  lemma LineMove(C: Setup<()>, y: Node<()>, a: nat, z: Node<()>)
    requires C.P == Line(5, Cheap) && Ready(C.P, C.G) && NoJumps(C) && OnLine(y) && Moves(C, y, a, z)
    ensures OnLine(z) && z.vertex == C.P.top.Head(C.dir, a) && C.P.top.Tail(C.dir, a) == y.vertex
    ensures !PastMid(C, y.q) && BucketOf(C, y) !in C.fixed
  {
    hide Ready, BucketIndex;
    var base :| ExtendsFrom(C, BucketOf(C, y), y, a, base, z);
    LineStep(5, Cheap, C.dir, y, a);
  }

  /** Forward labels stop at vertex 2. */
  lemma {:induction false} ForwardStops(F: Setup<()>, t: seq<nat>, z: Node<()>)
    requires F.P == Line(5, Cheap) && F.mid == Fin(1.5) && F.dir.Forward? && Ready(F.P, F.G) && NoJumps(F)
             && Threaded(F, t, z)
    ensures OnLine(z) && z.vertex <= 2
    decreases |t|
  {
    hide Ready, Moves, NoJumps;
    LineStart(5, Cheap, Forward);
    if t != [] {
      var y :| Threaded(F, Front(t), y) && Moves(F, y, t[|t| - 1], z);
      ForwardStops(F, Front(t), y);
      LineMove(F, y, t[|t| - 1], z);
    }
  }

  /** Backward labels stop at vertex 4, whose buckets are fixed. */
  lemma {:induction false} BackwardStops(B: Setup<()>, t: seq<nat>, z: Node<()>)
    requires B.P == Line(5, Cheap) && B.dir.Backward? && Ready(B.P, B.G) && NoJumps(B) && AllFixed(B, 4)
             && Threaded(B, t, z)
    ensures OnLine(z) && 4 <= z.vertex <= 5
    decreases |t|
  {
    hide GridUpTo, Moves, NoJumps, BucketIndex;
    LineStart(5, Cheap, Backward);
    if t != [] {
      var y :| Threaded(B, Front(t), y) && Moves(B, y, t[|t| - 1], z);
      BackwardStops(B, Front(t), y);
      LineMove(B, y, t[|t| - 1], z);
      BucketIndexFacts(B.P, B.G, y.vertex, y.q);
    }
  }

  /** No arc joins them. */
  lemma NeverMeet(F: Setup<()>, B: Setup<()>, arcs: seq<nat>)
    requires F.P == Line(5, Cheap) && F.mid == Fin(1.5) && Paired(F, B) && NoJumps(F) && NoJumps(B) && AllFixed(B, 4)
    ensures !FollowsBoth(F, B, arcs)
  {
    hide TopoOrder, Grouped, Disposable, GridUpTo, Threaded, NoJumps, AllFixed;
    if FollowsBoth(F, B, arcs) {
      if z :| SinkThread(F, arcs, z) {
        ForwardStops(F, arcs, z);
        assert false;
      } else {
        var t, u, a: nat, r, w :| ThreadPair(F, B, t, u, a, r, w) && arcs == t + [a] + Reversed(r);
        ForwardStops(F, t, u);
        BackwardStops(B, r, w);
        assert false;
      }
    }
  }

  lemma BoundsLength(F: Setup<()>, B: Setup<()>, M: Meeting<()>, s: Store<()>, arrival: seq<Bound>)
    requires Paired(F, B) && StoresAfter(F, B, M, s, arrival)
    ensures |M.fw.cBest| == |M.bw.cBest| == |F.G.buckets| == |B.G.buckets|
  {
    hide TopoOrder, Grouped, Disposable, GridUpTo, StoreOk, Compatible, ArrivalsOf, Full;
  }

  lemma FiveArcs() returns (z: Node<()>)
    ensures FeasibleWalk(Line(5, Cheap), [0, 1, 2, 3, 4], z) && z.cost == -5.0
            && Visible(Line(5, Cheap), THETA, 1.5, [0, 1, 2, 3, 4])
  {
    var P, p := Line(5, Cheap), [0, 1, 2, 3, 4];
    LinePrefix(5, Cheap, p);
    assert Total(Cheap, 1) == -1.0 && Total(Cheap, 2) == -2.0 && Total(Cheap, 3) == -3.0 && Total(Cheap, 4) == -4.0;
    z := Run(P, Forward, InitialNode(P, Forward).value, p).value;
    LineStart(5, Cheap, Forward);
    assert FeasibleWalk(P, p, z);
    LineWalk(5, Cheap, p, z);
    LineSplits(5, Cheap, 1.5);
    LinePrefix(5, Cheap, p[..1]);
    assert FirstBeyond(P, 1.5, p, 2);
    PaidEarly(p);
    VisibleIfPaid(P, THETA, 1.5, EmptyInv(), p, z);
  }

  lemma PaidEarly(p: seq<nat>)
    requires |p| == 5 && FirstBeyond(Line(5, Cheap), 1.5, p, 2) && Prefix(Line(5, Cheap), p, 1).Some?
             && Prefix(Line(5, Cheap), p, 1).value.cost == -1.0
    ensures Paid(Line(5, Cheap), THETA, 1.5, p)
  {
    hide Crossed, Prefix;
  }

  /** The backward half of the walk goes through a bucket of vertex 4. */
  lemma NeedsVertexFour(D: Setup<()>)
    requires D.P == Line(5, Cheap) && D.dir.Backward? && SetupOk(D)
    requires AllFixed(D, 4)
    ensures !Preserves(D, THETA)
  {
    hide TopoOrder, Grouped, Disposable, GridUpTo;
    LineStart(5, Cheap, Backward);
    var r := InitialNode(D.P, Backward).value;
    LineDown(5, r, [4]);
    var n := Run(D.P, Backward, r, [4]).value;
    LineDown(5, n, [3, 2, 1, 0]);
    assert TrueLabel(D, [4], n, n);
    assert Finishes(D, THETA, n, [3, 2, 1, 0]);
    BucketIndexFacts(D.P, D.G, 4, n.q);
    assert !KeepsNext(D, n, [3, 2, 1, 0]);
  }
}
