/** The order in which buckets are processed: components of the bucket graph (compute_sccs). */
module BucketOrder {
  import opened Types
  import opened Problems
  import opened Grids
  import opened BucketArcs
  import opened Sccs

  function Targets(arcs: seq<BucketArc>): (r: seq<nat>)
    ensures |r| == |arcs| && forall i :: 0 <= i < |arcs| ==> r[i] == arcs[i].toBucket
  {
    if arcs == [] then [] else [arcs[0].toBucket] + Targets(arcs[1..])
  }

  /** The neighbours of a bucket at its own vertex, one cell further on. */
  function SideEdges<S>(P: Problem<S>, G: Grid, dir: Direction, b: nat): seq<nat>
    requires ValidGrid(P, G) && b < |G.buckets|
  {
    BucketFacts(P, G, b);
    var v := G.buckets[b].vertex;
    var kx: nat, ky: nat := Kx(G, b), Ky(G, b);
    if dir.Forward? then
      (if kx + 1 < G.nx[v] then [CellIndex(G, v, kx + 1, ky)] else [])
        + (if ky + 1 < G.ny[v] then [CellIndex(G, v, kx, ky + 1)] else [])
    else
      (if kx > 0 then [CellIndex(G, v, kx - 1, ky)] else [])
        + (if ky > 0 then [CellIndex(G, v, kx, ky - 1)] else [])
  }

  lemma SideEdgesFacts<S>(P: Problem<S>, G: Grid, dir: Direction, b: nat)
    requires ValidGrid(P, G) && b < |G.buckets|
    ensures forall c <- SideEdges(P, G, dir, b) :: c < |G.buckets| && Beyond(P, G, dir, b, c)
  {
    BucketFacts(P, G, b);
    var v := G.buckets[b].vertex;
    var kx, ky := Kx(G, b), Ky(G, b);
    BeyondOrder(P, G, dir, b, b, b);
    if dir.Forward? {
      if kx + 1 < G.nx[v] { IndexFacts(P, G, v, kx + 1, ky); SideEdge(P, G, dir, b, CellIndex(G, v, kx + 1, ky)); }
      if ky + 1 < G.ny[v] { IndexFacts(P, G, v, kx, ky + 1); SideEdge(P, G, dir, b, CellIndex(G, v, kx, ky + 1)); }
    } else {
      if kx > 0 { IndexFacts(P, G, v, kx - 1, ky); SideEdge(P, G, dir, b, CellIndex(G, v, kx - 1, ky)); }
      if ky > 0 { IndexFacts(P, G, v, kx, ky - 1); SideEdge(P, G, dir, b, CellIndex(G, v, kx, ky - 1)); }
    }
  }

  lemma SideEdge<S>(P: Problem<S>, G: Grid, dir: Direction, b: nat, c: nat)
    requires ValidGrid(P, G) && b < |G.buckets| && c < |G.buckets| && G.buckets[b].vertex == G.buckets[c].vertex
    requires BucketOk(P, G, P.nVertices, b)
    requires G.buckets[c].vertex < P.nVertices && G.ny[G.buckets[c].vertex] >= 1
    requires if dir.Forward? then Kx(G, b) <= Kx(G, c) && Ky(G, b) <= Ky(G, c)
             else Kx(G, c) <= Kx(G, b) && Ky(G, c) <= Ky(G, b)
    ensures Beyond(P, G, dir, b, c)
  {
    assert BucketOk(P, G, P.nVertices, c);
  }

  ghost predicate ValidTargets(G: Grid, arcs: seq<seq<BucketArc>>) {
    && |arcs| == |G.buckets|
    && (forall b: nat, i: nat :: b < |arcs| && i < |arcs[b]| ==> arcs[b][i].toBucket < |G.buckets|)
  }

  /** The adjacency lists compute_sccs works on: bucket arcs, then the same-vertex neighbours. */
  ghost predicate IsBucketGraph<S>(P: Problem<S>, G: Grid, dir: Direction, arcs: seq<seq<BucketArc>>, adj: Graph)
    requires ValidGrid(P, G) && |arcs| == |G.buckets|
  {
    && |adj| == |G.buckets|
    && (forall b: nat :: b < |adj| ==> adj[b] == Targets(arcs[b]) + SideEdges(P, G, dir, b))
  }

  /**
   * compute_sccs. Component s of the result holds the buckets with id s in increasing order,
   * and the components are processed from the highest id to the lowest.
   */
  method ComputeSccs<S>(P: Problem<S>, G: Grid, dir: Direction, arcs: seq<seq<BucketArc>>)
    returns (ghost adj: Graph, id: seq<int>, count: nat, groups: seq<seq<nat>>)
    requires ValidGrid(P, G) && ValidTargets(G, arcs)
    ensures IsBucketGraph(P, G, dir, arcs, adj) && Components(adj, id, count)
    ensures Grouped(id, count, groups)
  {
    var n := |G.buckets|;
    var lists: Graph := [];
    for b := 0 to n
      invariant |lists| == b && forall c: nat :: c < b ==> lists[c] == Targets(arcs[c])
    {
      lists := lists + [Targets(arcs[b])];
    }
    for b := 0 to n
      invariant |lists| == n
      invariant forall c: nat :: c < n ==> lists[c] == Targets(arcs[c]) + if c < b then SideEdges(P, G, dir, c) else []
    {
      lists := lists[b := lists[b] + SideEdges(P, G, dir, b)];
    }
    adj := lists;
    BucketGraphIsGraph(P, G, dir, arcs, adj);
    id, count := StrongComponents(lists);
    groups := GroupById(id, count);
  }

  lemma BucketGraphIsGraph<S>(P: Problem<S>, G: Grid, dir: Direction, arcs: seq<seq<BucketArc>>, adj: Graph)
    requires ValidGrid(P, G) && ValidTargets(G, arcs) && IsBucketGraph(P, G, dir, arcs, adj)
    ensures IsGraph(adj)
  {
    forall b: nat, i: nat | b < |adj| && i < |adj[b]| ensures adj[b][i] < |adj| {
      SideEdgesFacts(P, G, dir, b);
      if i >= |arcs[b]| {
        assert adj[b][i] == SideEdges(P, G, dir, b)[i - |arcs[b]|];
        assert adj[b][i] in SideEdges(P, G, dir, b);
      }
    }
  }

  ghost predicate Grouped(id: seq<int>, count: nat, groups: seq<seq<nat>>) {
    && |groups| == count
    && (forall s: nat, b: nat {:trigger b in groups[s]} :: s < count ==> (b in groups[s] <==> b < |id| && id[b] == s))
    && (forall s: nat, i: nat, j: nat :: s < count && i < j < |groups[s]| ==> groups[s][i] < groups[s][j])
  }

  /** scc_buckets. */
  method GroupById(id: seq<int>, count: nat) returns (groups: seq<seq<nat>>)
    requires forall b: nat :: b < |id| ==> 0 <= id[b] < count
    ensures Grouped(id, count, groups)
  {
    groups := seq(count, i => []);
    for b := 0 to |id|
      invariant |groups| == count
      invariant forall s: nat, c: nat :: s < count ==> (c in groups[s] <==> c < b && id[c] == s)
      invariant forall s: nat, i: nat :: s < count && i < |groups[s]| ==> groups[s][i] < b
      invariant forall s: nat, i: nat, j: nat :: s < count && i < j < |groups[s]| ==> groups[s][i] < groups[s][j]
    {
      groups := groups[id[b] := groups[id[b]] + [b]];
    }
  }

  // ----- The order is topological for everything labels can do -----

  /** Bucket arcs and moves to better-supplied buckets of the same vertex never go to a component processed earlier. */
  ghost predicate TopoOrder<S>(P: Problem<S>, G: Grid, dir: Direction, id: seq<int>, count: nat)
    requires Ready(P, G)
  {
    && |id| == |G.buckets|
    && (forall b: nat :: b < |id| ==> 0 <= id[b] < count)
    && (forall b: nat, e: BucketArc ::
      b < |id| && e in FullArcs(P, G, dir, b) ==> e.toBucket < |id| && id[e.toBucket] <= id[b])
    && (forall b: nat, c: nat :: Beyond(P, G, dir, b, c) ==> id[c] <= id[b])
  }

  function Gap(G: Grid, dir: Direction, b: nat, c: nat): int
    requires b < |G.buckets| && G.buckets[b].vertex < |G.start| && G.buckets[b].vertex < |G.ny|
             && G.ny[G.buckets[b].vertex] >= 1
    requires c < |G.buckets| && G.buckets[c].vertex < |G.start| && G.buckets[c].vertex < |G.ny|
             && G.ny[G.buckets[c].vertex] >= 1
  {
    if dir.Forward? then Kx(G, c) + Ky(G, c) - Kx(G, b) - Ky(G, b) else Kx(G, b) + Ky(G, b) - Kx(G, c) - Ky(G, c)
  }

  /** One side edge towards c. */
  lemma SideStep<S>(P: Problem<S>, G: Grid, dir: Direction, b: nat, c: nat) returns (d: nat)
    requires ValidGrid(P, G) && Beyond(P, G, dir, b, c) && Gap(G, dir, b, c) > 0
    ensures d in SideEdges(P, G, dir, b) && Beyond(P, G, dir, d, c) && Gap(G, dir, d, c) == Gap(G, dir, b, c) - 1
  {
    BucketFacts(P, G, b);
    BucketFacts(P, G, c);
    var v, kx, ky := G.buckets[b].vertex, Kx(G, b), Ky(G, b);
    if dir.Forward? {
      if kx < Kx(G, c) {
        IndexFacts(P, G, v, kx + 1, ky);
        d := CellIndex(G, v, kx + 1, ky);
      } else {
        IndexFacts(P, G, v, kx, ky + 1);
        d := CellIndex(G, v, kx, ky + 1);
      }
    } else {
      if Kx(G, c) < kx {
        IndexFacts(P, G, v, kx - 1, ky);
        d := CellIndex(G, v, kx - 1, ky);
      } else {
        IndexFacts(P, G, v, kx, ky - 1);
        d := CellIndex(G, v, kx, ky - 1);
      }
    }
    assert BucketOk(P, G, P.nVertices, d);
  }

  lemma {:induction false} BeyondOrdered<S>(P: Problem<S>, G: Grid, dir: Direction, id: seq<int>, b: nat, c: nat)
    requires ValidGrid(P, G) && |id| == |G.buckets|
    requires forall x: nat, y: nat :: x < |id| && y < |id| && y in SideEdges(P, G, dir, x) ==> id[y] <= id[x]
    requires Beyond(P, G, dir, b, c)
    ensures id[c] <= id[b]
    decreases Gap(G, dir, b, c)
  {
    BucketFacts(P, G, b);
    BucketFacts(P, G, c);
    if Gap(G, dir, b, c) > 0 {
      var d := SideStep(P, G, dir, b, c);
      BeyondOrdered(P, G, dir, id, d, c);
    }
  }

  lemma ComponentsAreTopological<S>(P: Problem<S>, G: Grid, dir: Direction, arcs: seq<seq<BucketArc>>,
                                    adj: Graph, id: seq<int>, count: nat)
    requires Ready(P, G) && ValidTargets(G, arcs)
    requires forall b: nat :: b < |arcs| ==> arcs[b] == FullArcs(P, G, dir, b)
    requires IsBucketGraph(P, G, dir, arcs, adj) && Components(adj, id, count)
    ensures TopoOrder(P, G, dir, id, count)
  {
    forall b: nat, e: BucketArc | b < |id| && e in FullArcs(P, G, dir, b)
      ensures e.toBucket < |id| && id[e.toBucket] <= id[b]
    {
      var i :| 0 <= i < |arcs[b]| && arcs[b][i] == e;
      assert Targets(arcs[b])[i] == e.toBucket;
      assert e.toBucket in adj[b];
    }
    forall x: nat, y: nat | x < |id| && y < |id| && y in SideEdges(P, G, dir, x) ensures id[y] <= id[x] {
      assert y in adj[x];
    }
    forall b: nat, c: nat | Beyond(P, G, dir, b, c) ensures id[c] <= id[b] {
      BeyondOrdered(P, G, dir, id, b, c);
    }
  }

  /** An extension, ordinary or over a jump arc, never lands in a component processed earlier. */
  lemma LandsLater<S>(P: Problem<S>, G: Grid, dir: Direction, id: seq<int>, count: nat, b: nat, c: nat,
                      n: Node<S>, a: nat, base: Vec)
    requires Ready(P, G) && TopoOrder(P, G, dir, id, count)
    requires Beyond(P, G, dir, b, c) && a < P.nArcs && P.top.Tail(dir, a) == G.buckets[c].vertex
    requires Ahead(dir, Corner(dir, G.buckets[c]), base)
    requires Extend(P, dir, n, a, base).Some?
    ensures var m := Extend(P, dir, n, a, base).value;
            && m.vertex < P.nVertices && Anchored(P, dir, m.vertex, m.q)
            && G.width(m.vertex).x > 0.0 && G.width(m.vertex).y > 0.0
            && BucketIndex(P, G, m.vertex, m.q) < |id|
            && id[BucketIndex(P, G, m.vertex, m.q)] <= id[b]
  {
    LandsBeyond(P, G, dir, c, n, a, base);
    FullArcsMembers(P, G, dir, c);
    var e :| e in FullArcs(P, G, dir, c) && e.arc == a;
    assert id[e.toBucket] <= id[c] <= id[b];
  }
}
