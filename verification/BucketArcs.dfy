/** Bucket arcs: the arcs of the problem lifted to the bucket grid (build_bucket_arcs). */
module BucketArcs {
  import opened Types
  import opened Problems
  import opened Grids

  /** The fields of BucketArc and JumpArc that are not copies of problem data. */
  datatype BucketArc = BucketArc(toBucket: nat, arc: nat)

  datatype JumpArc = JumpArc(jumpBucket: nat, arc: nat)

  /** Some label of bucket b may be extended along arc a. */
  predicate Open<S>(P: Problem<S>, G: Grid, dir: Direction, b: nat, a: nat)
    requires b < |G.buckets|
  {
    InWindow(P, dir, P.top.Head(dir, a), Arrival(P, dir, Corner(dir, G.buckets[b]), a))
  }

  /** The bucket where the least constrained label of b lands after arc a. */
  function Target<S>(P: Problem<S>, G: Grid, dir: Direction, b: nat, a: nat): nat
    requires b < |G.buckets|
    requires P.top.Head(dir, a) < |G.start| && P.top.Head(dir, a) < |G.ny|
    requires G.width(P.top.Head(dir, a)).x > 0.0 && G.width(P.top.Head(dir, a)).y > 0.0
  {
    BucketIndex(P, G, P.top.Head(dir, a), Arrival(P, dir, Corner(dir, G.buckets[b]), a))
  }

  ghost predicate Ready<S>(P: Problem<S>, G: Grid) {
    WellFormed(P) && ValidGrid(P, G)
  }

  /** The arcs below n that leave v, in the order Adjacency::build lists them. */
  function ArcsAt<S>(P: Problem<S>, dir: Direction, v: nat, n: nat): seq<nat> {
    if n == 0 then [] else ArcsAt(P, dir, v, n - 1) + if P.top.Tail(dir, n - 1) == v then [n - 1] else []
  }

  /** The bucket arcs of b among the first n arcs leaving its vertex. */
  function OpenArcs<S>(P: Problem<S>, G: Grid, dir: Direction, b: nat, arcs: seq<nat>): seq<BucketArc>
    requires b < |G.buckets|
    requires Ready(P, G)
    requires forall i :: 0 <= i < |arcs| ==> arcs[i] < P.nArcs
  {
    if arcs == [] then [] else
    var a := arcs[|arcs| - 1];
    assert P.top.Head(dir, a) < P.nVertices;
    OpenArcs(P, G, dir, b, arcs[..|arcs| - 1])
      + if Open(P, G, dir, b, a) then [BucketArc(Target(P, G, dir, b, a), a)] else []
  }

  lemma {:induction false} ArcsAtMembers<S>(P: Problem<S>, dir: Direction, v: nat, n: nat)
    ensures forall a: nat :: a in ArcsAt(P, dir, v, n) <==> a < n && P.top.Tail(dir, a) == v
    ensures forall i :: 0 <= i < |ArcsAt(P, dir, v, n)| ==> ArcsAt(P, dir, v, n)[i] < n
    ensures forall i, j :: 0 <= i < j < |ArcsAt(P, dir, v, n)| ==> ArcsAt(P, dir, v, n)[i] < ArcsAt(P, dir, v, n)[j]
  {
    if n > 0 {
      ArcsAtMembers(P, dir, v, n - 1);
      var prev := ArcsAt(P, dir, v, n - 1);
      assert forall i :: 0 <= i < |prev| ==> prev[i] in prev;
    }
  }

  lemma {:induction false} OpenArcsMembers<S>(P: Problem<S>, G: Grid, dir: Direction, b: nat, arcs: seq<nat>)
    requires b < |G.buckets| && Ready(P, G)
    requires forall i :: 0 <= i < |arcs| ==> arcs[i] < P.nArcs
    ensures forall e <- OpenArcs(P, G, dir, b, arcs) ::
              e.arc in arcs && Open(P, G, dir, b, e.arc) && e.arc < P.nArcs && P.top.Head(dir, e.arc) < P.nVertices
              && e.toBucket == Target(P, G, dir, b, e.arc)
    ensures forall a: nat :: a in arcs && Open(P, G, dir, b, a) ==>
              exists e :: e in OpenArcs(P, G, dir, b, arcs) && e.arc == a
    decreases |arcs|
  {
    if arcs != [] {
      var n := |arcs| - 1;
      OpenArcsMembers(P, G, dir, b, arcs[..n]);
      forall a: nat | a in arcs && Open(P, G, dir, b, a)
        ensures exists e :: e in OpenArcs(P, G, dir, b, arcs) && e.arc == a
      {
        if a == arcs[n] {
          assert BucketArc(Target(P, G, dir, b, a), a) in OpenArcs(P, G, dir, b, arcs);
        } else {
          assert a in arcs[..n];
          var e :| e in OpenArcs(P, G, dir, b, arcs[..n]) && e.arc == a;
          assert e in OpenArcs(P, G, dir, b, arcs);
        }
      }
    }
  }

  /** All the bucket arcs a bucket has before anything is eliminated. */
  function FullArcs<S>(P: Problem<S>, G: Grid, dir: Direction, b: nat): seq<BucketArc>
    requires b < |G.buckets| && Ready(P, G)
  {
    ArcsAtMembers(P, dir, G.buckets[b].vertex, P.nArcs);
    OpenArcs(P, G, dir, b, ArcsAt(P, dir, G.buckets[b].vertex, P.nArcs))
  }

  /** A bucket has exactly the arcs that leave its vertex and that some label of it can take. */
  lemma FullArcsMembers<S>(P: Problem<S>, G: Grid, dir: Direction, b: nat)
    requires b < |G.buckets| && Ready(P, G)
    ensures forall e <- FullArcs(P, G, dir, b) ::
              e.arc < P.nArcs && P.top.Tail(dir, e.arc) == G.buckets[b].vertex && P.top.Head(dir, e.arc) < P.nVertices
              && Open(P, G, dir, b, e.arc) && e.toBucket == Target(P, G, dir, b, e.arc)
    ensures forall a: nat :: a < P.nArcs && P.top.Tail(dir, a) == G.buckets[b].vertex && Open(P, G, dir, b, a) ==>
              exists e :: e in FullArcs(P, G, dir, b) && e.arc == a
  {
    ArcsAtMembers(P, dir, G.buckets[b].vertex, P.nArcs);
    OpenArcsMembers(P, G, dir, b, ArcsAt(P, dir, G.buckets[b].vertex, P.nArcs));
  }

  /** Adjacency::build, for the arc lists of one direction. */
  method BuildAdjacency<S>(P: Problem<S>, dir: Direction) returns (adj: seq<seq<nat>>)
    requires WellFormed(P)
    ensures |adj| == P.nVertices
    ensures forall v: nat :: v < P.nVertices ==> adj[v] == ArcsAt(P, dir, v, P.nArcs)
  {
    adj := seq(P.nVertices, i => []);
    for a := 0 to P.nArcs
      invariant |adj| == P.nVertices
      invariant forall v: nat :: v < P.nVertices ==> adj[v] == ArcsAt(P, dir, v, a)
    {
      var t := P.top.Tail(dir, a);
      adj := adj[t := adj[t] + [a]];
    }
  }

  /** A list of bucket arcs names each arc at most once, in increasing order. */
  ghost predicate ArcOrder(list: seq<BucketArc>) {
    forall i: nat, j: nat :: i < j < |list| ==> list[i].arc < list[j].arc
  }

  /** One of the first i bucket arcs of the list is over arc a. */
  ghost predicate AmongArcs(list: seq<BucketArc>, i: nat, a: nat) {
    exists h: nat :: h < i && h < |list| && list[h].arc == a
  }

  lemma MoreArcs(list: seq<BucketArc>, i: nat, a: nat)
    requires i < |list|
    ensures AmongArcs(list, i + 1, a) <==> AmongArcs(list, i, a) || list[i].arc == a
  {
    if AmongArcs(list, i + 1, a) { var h: nat :| h < i + 1 && h < |list| && list[h].arc == a; }
  }

  lemma {:induction false} OpenArcsOrder<S>(P: Problem<S>, G: Grid, dir: Direction, b: nat, arcs: seq<nat>)
    requires b < |G.buckets| && Ready(P, G)
    requires forall i :: 0 <= i < |arcs| ==> arcs[i] < P.nArcs
    requires forall i, j :: 0 <= i < j < |arcs| ==> arcs[i] < arcs[j]
    ensures ArcOrder(OpenArcs(P, G, dir, b, arcs))
    decreases |arcs|
  {
    if arcs != [] {
      var n := |arcs| - 1;
      OpenArcsOrder(P, G, dir, b, arcs[..n]);
      OpenArcsMembers(P, G, dir, b, arcs[..n]);
      var rest := OpenArcs(P, G, dir, b, arcs[..n]);
      forall i: nat | i < |rest| ensures rest[i].arc < arcs[n] {
        assert rest[i] in rest;
        var h :| 0 <= h < n && arcs[h] == rest[i].arc;
      }
    }
  }

  lemma FullArcsOrder<S>(P: Problem<S>, G: Grid, dir: Direction, b: nat)
    requires b < |G.buckets| && Ready(P, G)
    ensures ArcOrder(FullArcs(P, G, dir, b))
  {
    ArcsAtMembers(P, dir, G.buckets[b].vertex, P.nArcs);
    OpenArcsOrder(P, G, dir, b, ArcsAt(P, dir, G.buckets[b].vertex, P.nArcs));
  }

  /** build_bucket_arcs. */
  method BuildBucketArcs<S>(P: Problem<S>, G: Grid, dir: Direction, adj: seq<seq<nat>>)
    returns (arcs: seq<seq<BucketArc>>)
    requires Ready(P, G) && |adj| == P.nVertices
    requires forall v: nat :: v < P.nVertices ==> adj[v] == ArcsAt(P, dir, v, P.nArcs)
    ensures |arcs| == |G.buckets|
    ensures forall b: nat :: b < |G.buckets| ==> arcs[b] == FullArcs(P, G, dir, b)
  {
    arcs := [];
    for b := 0 to |G.buckets|
      invariant |arcs| == b
      invariant forall c: nat :: c < b ==> arcs[c] == FullArcs(P, G, dir, c)
    {
      BucketFacts(P, G, b);
      ArcsAtMembers(P, dir, G.buckets[b].vertex, P.nArcs);
      var list := CollectOpenArcs(P, G, dir, b, adj[G.buckets[b].vertex]);
      arcs := arcs + [list];
    }
  }

  /** The scan of one bucket in build_bucket_arcs. */
  method CollectOpenArcs<S>(P: Problem<S>, G: Grid, dir: Direction, b: nat, out: seq<nat>)
    returns (list: seq<BucketArc>)
    requires Ready(P, G) && b < |G.buckets|
    requires forall i :: 0 <= i < |out| ==> out[i] < P.nArcs
    ensures list == OpenArcs(P, G, dir, b, out)
  {
    list := [];
    for i := 0 to |out|
      invariant list == OpenArcs(P, G, dir, b, out[..i])
    {
      var a := out[i];
      assert out[..i + 1][..i] == out[..i];
      assert P.top.Head(dir, a) < P.nVertices;
      if Open(P, G, dir, b, a) {
        list := list + [BucketArc(Target(P, G, dir, b, a), a)];
      }
    }
    assert out[..|out|] == out;
  }

  // ----- Where extensions land -----

  function Boost(dir: Direction, q: Vec, jump: Bucket): Vec {
    if dir.Forward? then Vec(Max(q.x, jump.lb.x), Max(q.y, jump.lb.y))
        else Vec(Min(q.x, jump.ub.x), Min(q.y, jump.ub.y))
  }

  lemma ArrivalMonotone<S>(P: Problem<S>, dir: Direction, q: Vec, r: Vec, a: nat)
    requires Ahead(dir, q, r)
    ensures Ahead(dir, Arrival(P, dir, q, a), Arrival(P, dir, r, a))
    ensures InWindow(P, dir, P.top.Head(dir, a), Arrival(P, dir, r, a)) ==>
              InWindow(P, dir, P.top.Head(dir, a), Arrival(P, dir, q, a))
    ensures Anchored(P, dir, P.top.Head(dir, a), Arrival(P, dir, r, a))
  {
  }

  /** A label extended from bucket c lands in the target of the bucket arc or beyond it. */
  lemma LandsBeyond<S>(P: Problem<S>, G: Grid, dir: Direction, c: nat, n: Node<S>, a: nat, base: Vec)
    requires Ready(P, G) && c < |G.buckets| && a < P.nArcs
    requires Ahead(dir, Corner(dir, G.buckets[c]), base)
    requires Extend(P, dir, n, a, base).Some?
    ensures Open(P, G, dir, c, a)
    ensures var m := Extend(P, dir, n, a, base).value;
            && m.vertex < P.nVertices && Anchored(P, dir, m.vertex, m.q)
            && G.width(m.vertex).x > 0.0 && G.width(m.vertex).y > 0.0
            && Beyond(P, G, dir, Target(P, G, dir, c, a), BucketIndex(P, G, m.vertex, m.q))
  {
    ArrivalMonotone(P, dir, Corner(dir, G.buckets[c]), base, a);
    var v := P.top.Head(dir, a);
    BucketMonotone(P, G, dir, v, Arrival(P, dir, Corner(dir, G.buckets[c]), a), Arrival(P, dir, base, a));
  }

  /** Arc targets move with their source bucket. */
  lemma TargetMonotone<S>(P: Problem<S>, G: Grid, dir: Direction, b: nat, c: nat, a: nat)
    requires Ready(P, G) && Beyond(P, G, dir, b, c) && a < P.nArcs && Open(P, G, dir, c, a)
    ensures P.top.Head(dir, a) < P.nVertices
    ensures Open(P, G, dir, b, a)
    ensures Beyond(P, G, dir, Target(P, G, dir, b, a), Target(P, G, dir, c, a))
  {
    CornerMonotone(P, G, dir, b, c);
    ArrivalMonotone(P, dir, Corner(dir, G.buckets[b]), Corner(dir, G.buckets[c]), a);
    var v := P.top.Head(dir, a);
    BucketMonotone(P, G, dir, v, Arrival(P, dir, Corner(dir, G.buckets[b]), a),
          Arrival(P, dir, Corner(dir, G.buckets[c]), a));
  }

  lemma CornerMonotone<S>(P: Problem<S>, G: Grid, dir: Direction, b: nat, c: nat)
    requires ValidGrid(P, G) && Beyond(P, G, dir, b, c)
    ensures Ahead(dir, Corner(dir, G.buckets[b]), Corner(dir, G.buckets[c]))
  {
    BucketFacts(P, G, b);
    BucketFacts(P, G, c);
    var v := G.buckets[b].vertex;
    var w := G.width(v);
    var (lo, hi) := if dir.Forward? then (b, c) else (c, b);
    CellBoundsMonotone(P.lb(v).x, P.ub(v).x, w.x, Kx(G, lo), Kx(G, hi));
    CellBoundsMonotone(P.lb(v).y, P.ub(v).y, w.y, Ky(G, lo), Ky(G, hi));
  }

  // ----- What a bucket arc means -----

  /** A label with resources q can go over arc a and be at its head with resources r, inside the window. */
  predicate CanArrive<S>(P: Problem<S>, dir: Direction, q: Vec, a: nat, r: Vec) {
    var v, d := P.top.Head(dir, a), P.consumption(a);
    && P.lb(v).x <= r.x <= P.ub(v).x && P.lb(v).y <= r.y <= P.ub(v).y
    && (if dir.Forward? then q.x + d.x <= r.x && q.y + d.y <= r.y else r.x + d.x <= q.x && r.y + d.y <= q.y)
  }

  /** r is where it arrives if it wastes nothing. */
  ghost predicate FirstArrival<S>(P: Problem<S>, dir: Direction, q: Vec, a: nat, r: Vec) {
    CanArrive(P, dir, q, a, r) && forall s :: CanArrive(P, dir, q, a, s) ==> Ahead(dir, r, s)
  }

  /** The window test on the arrival decides whether there is a way to arrive, and the arrival is the first one. */
  lemma ArrivalIsFirst<S>(P: Problem<S>, dir: Direction, q: Vec, a: nat)
    ensures InWindow(P, dir, P.top.Head(dir, a), Arrival(P, dir, q, a)) <==> exists r :: CanArrive(P, dir, q, a, r)
    ensures InWindow(P, dir, P.top.Head(dir, a), Arrival(P, dir, q, a)) ==>
              FirstArrival(P, dir, q, a, Arrival(P, dir, q, a))
  {
    if InWindow(P, dir, P.top.Head(dir, a), Arrival(P, dir, q, a)) {
      assert CanArrive(P, dir, q, a, Arrival(P, dir, q, a));
    }
  }

  /**
   * A bucket has an arc exactly if some label in it, that is with resources not before its corner, can take it; and the
   * bucket arc leads to the bucket where a label on the corner first arrives.
   */
  lemma BucketArcMeaning<S>(P: Problem<S>, G: Grid, dir: Direction, b: nat, a: nat)
    requires Ready(P, G) && b < |G.buckets| && a < P.nArcs && P.top.Tail(dir, a) == G.buckets[b].vertex
    ensures (exists e :: e in FullArcs(P, G, dir, b) && e.arc == a) <==>
              exists q, r :: Ahead(dir, Corner(dir, G.buckets[b]), q) && CanArrive(P, dir, q, a, r)
    ensures forall e <- FullArcs(P, G, dir, b) :: e.arc == a ==>
              exists r :: FirstArrival(P, dir, Corner(dir, G.buckets[b]), a, r)
                          && InBucket(P, G, P.top.Head(dir, a), r, e.toBucket)
  {
    hide CanArrive, FirstArrival, InWindow, FullArcs, GridUpTo, BucketIndex;
    FullArcsMembers(P, G, dir, b);
    var corner := Corner(dir, G.buckets[b]);
    ArrivalIsFirst(P, dir, corner, a);
    forall q, r | Ahead(dir, corner, q) && CanArrive(P, dir, q, a, r) ensures CanArrive(P, dir, corner, a, r) {
      ArrivesEarlier(P, dir, corner, q, a, r);
    }
    BeyondItself(dir, corner);
    if InWindow(P, dir, P.top.Head(dir, a), Arrival(P, dir, corner, a)) {
      ArrivesInside(P, dir, corner, a, Arrival(P, dir, corner, a));
      forall e | e in FullArcs(P, G, dir, b) && e.arc == a
        ensures InBucket(P, G, P.top.Head(dir, a), Arrival(P, dir, corner, a), e.toBucket)
      {
        BucketIsUnique(P, G, P.top.Head(dir, a), Arrival(P, dir, corner, a), e.toBucket);
      }
    }
  }

  lemma BeyondItself(dir: Direction, q: Vec)
    ensures Ahead(dir, q, q)
  {
  }

  lemma ArrivesInside<S>(P: Problem<S>, dir: Direction, q: Vec, a: nat, r: Vec)
    requires FirstArrival(P, dir, q, a, r)
    ensures CanArrive(P, dir, q, a, r)
    ensures P.lb(P.top.Head(dir, a)).AtMost(r) && r.AtMost(P.ub(P.top.Head(dir, a)))
  {
  }

  lemma ArrivesEarlier<S>(P: Problem<S>, dir: Direction, p: Vec, q: Vec, a: nat, r: Vec)
    requires Ahead(dir, p, q) && CanArrive(P, dir, q, a, r)
    ensures CanArrive(P, dir, p, a, r)
  {
  }
}
