/**
 * What the bidirectional solve does between labeling and concatenation (prune_bw_incompatible, recompute_bw_c_best).
 */
module Pruning {
  import opened Types
  import opened Resources
  import opened Problems
  import opened Grids
  import opened BucketArcs
  import opened BucketOrder
  import opened LabelStores
  import opened LabelingSpec
  import opened LabelingSteps
  import opened CBests
  import opened Concat

  /** vertex_min_fw_arrival_. */
  method MinArrivals<S>(P: Problem<S>, vertexMin: seq<Bound>) returns (arrival: seq<Bound>)
    requires WellFormed(P) && |vertexMin| == P.nVertices
    ensures |arrival| == P.nVertices
    ensures forall a: nat :: a < P.nArcs ==> arrival[P.top.to(a)].AtMost(vertexMin[P.top.from(a)].Add(P.cost(a)))
    ensures forall v: nat :: v < P.nVertices && arrival[v].Fin? ==>
              exists a: nat :: a < P.nArcs && P.top.to(a) == v && arrival[v] == vertexMin[P.top.from(a)].Add(P.cost(a))
  {
    arrival := seq(P.nVertices, v => Inf);
    for a := 0 to P.nArcs
      invariant |arrival| == P.nVertices
      invariant forall e: nat :: e < a ==> arrival[P.top.to(e)].AtMost(vertexMin[P.top.from(e)].Add(P.cost(e)))
      invariant forall v: nat :: v < P.nVertices && arrival[v].Fin? ==>
                  exists e: nat :: e < a && P.top.to(e) == v && arrival[v] == vertexMin[P.top.from(e)].Add(P.cost(e))
    {
      var j := P.top.to(a);
      arrival := arrival[j := MinBound(arrival[j], vertexMin[P.top.from(a)].Add(P.cost(a)))];
    }
  }

  /** Even the cheapest way to reach the vertex leaves label k at theta or above. */
  ghost predicate Incompatible<S>(C: Setup<S>, s: Store<S>, arrival: seq<Bound>, k: nat)
    requires k < |s.pool|
  {
    var n := s.pool[k].node;
    && n.vertex != C.P.top.source && n.vertex != C.P.top.sink && n.vertex < |arrival|
    && arrival[n.vertex].Add(n.cost + C.P.pack.minDominationCost).AtLeast(C.theta)
  }

  ghost predicate InRow<S>(s: Store<S>, k: nat) {
    k < |s.pool| && s.pool[k].bucket < |s.rows| && k in s.rows[s.pool[k].bucket].ids
  }

  /** marked adds to the flags exactly the stored incompatible labels of the buckets below b. */
  ghost predicate PrunedBelow<S>(C: Setup<S>, s: Store<S>, arrival: seq<Bound>, marked: seq<bool>, b: nat) {
    && |marked| == |s.dominated| == |s.pool|
    && (forall k: nat :: k < |s.pool| ==>
          (marked[k] <==> s.dominated[k] || (InRow(s, k) && s.pool[k].bucket < b && Incompatible(C, s, arrival, k))))
  }

  /** prune_bw_incompatible; the buckets of all vertices in turn are all buckets in turn. */
  method PruneIncompatible<S(!new)>(C: Setup<S>, s: Store<S>, arrival: seq<Bound>) returns (marked: seq<bool>)
    requires SetupOk(C) && StoreOk(C, s) && |arrival| == C.P.nVertices
    ensures PrunedBelow(C, s, arrival, marked, |s.rows|)
  {
    hide TopoOrder, Grouped, Disposable, RowOk, Origin, Ascending;
    marked := s.dominated;
    for b := 0 to |s.rows|
      invariant PrunedBelow(C, s, arrival, marked, b)
    {
      marked := PruneBucket(C, s, arrival, marked, b);
    }
  }

  method PruneBucket<S(!new)>(C: Setup<S>, s: Store<S>, arrival: seq<Bound>, before: seq<bool>, b: nat)
    returns (marked: seq<bool>)
    requires SetupOk(C) && StoreOk(C, s) && |arrival| == C.P.nVertices && b < |s.rows|
             && PrunedBelow(C, s, arrival, before, b)
    ensures PrunedBelow(C, s, arrival, marked, b + 1)
  {
    hide TopoOrder, Grouped, Disposable, RowOk, Origin, Ascending;
    assert RowIn(C, s, b);
    var ids, v := s.rows[b].ids, C.G.buckets[b].vertex;
    marked := before;
    if v == C.P.top.source || v == C.P.top.sink {
      forall k: nat | InRow(s, k) && s.pool[k].bucket == b
        ensures !Incompatible(C, s, arrival, k)
      {
        assert LabelOk(C, s.pool, k);
      }
      return;
    }
    for i := 0 to |ids|
      invariant |marked| == |s.pool|
      invariant forall k: nat ::
                k < |s.pool| ==> (marked[k] <==> before[k] || (k in ids[..i] && Incompatible(C, s, arrival, k)))
    {
      var k := ids[i];
      assert k in ids && ids[..i + 1] == ids[..i] + [k];
      assert LabelOk(C, s.pool, k);
      if marked[k] { continue; }
      if arrival[v].Add(s.pool[k].node.cost + C.P.pack.minDominationCost).AtLeast(C.theta) {
        marked := marked[k := true];
      }
    }
    assert ids[..|ids|] == ids;
  }

  /** compact_labels over all buckets. */
  method CompactRows<S(!new)>(C: Setup<S>, s: Store<S>) returns (rows: seq<Row>)
    requires SetupOk(C) && StoreOk(C, s)
    ensures StoreOk(C, s.(rows := rows))
    ensures forall k: nat :: Alive(s.(rows := rows), k) <==> Alive(s, k)
    ensures forall b: nat, k: nat :: b < |rows| && k in rows[b].ids ==> Alive(s, k)
  {
    hide TopoOrder, Grouped, Disposable, RowOk, LabelOk, Ascending;
    rows := [];
    for b := 0 to |s.rows|
      invariant |rows| == b
      invariant forall c: nat :: c < b ==> CompactOf(C, s, c, rows[c])
    {
      assert RowIn(C, s, b);
      var row := CompactRow(C.P, s.pool, s.dominated, s.rows[b]);
      rows := rows + [row];
    }
    CompactedAll(C, s, rows);
  }

  lemma CompactedAll<S(!new)>(C: Setup<S>, s: Store<S>, rows: seq<Row>)
    requires SetupOk(C) && StoreOk(C, s) && |rows| == |s.rows|
    requires forall b: nat :: b < |rows| ==> CompactOf(C, s, b, rows[b])
    ensures StoreOk(C, s.(rows := rows))
    ensures forall k: nat :: Alive(s.(rows := rows), k) <==> Alive(s, k)
    ensures forall b: nat, k: nat :: b < |rows| && k in rows[b].ids ==> Alive(s, k)
  {
    hide TopoOrder, Grouped, Disposable, RowOk, Ascending, Origin;
    var t := s.(rows := rows);
    forall b: nat, k: nat | b < |rows| && k in rows[b].ids
      ensures Alive(s, k)
    {
      assert RowIn(C, s, b) && CompactOf(C, s, b, rows[b]);
    }
    forall b: nat | b < |t.rows| ensures RowIn(C, t, b) && RowTidy(C, t, b) {
      assert RowIn(C, s, b) && RowTidy(C, s, b) && CompactOf(C, s, b, rows[b]);
      StillTidy(C, s, t, b);
    }
    forall i: nat | i < |t.pool| ensures LabelOk(C, t.pool, i) { assert LabelOk(C, s.pool, i); }
    forall k: nat ensures Alive(t, k) <==> Alive(s, k) {
      if k < |s.pool| {
        assert LabelOk(C, s.pool, k);
        assert CompactOf(C, s, s.pool[k].bucket, rows[s.pool[k].bucket]);
      }
    }
  }

  /** The same run with all buckets in one component. */
  function Flat<S>(C: Setup<S>): Setup<S> {
    C.(id := seq(|C.id|, b => 0), count := 1, groups := [seq(|C.id|, b => b)])
  }

  lemma FlatOk<S(!new)>(C: Setup<S>)
    requires SetupOk(C)
    ensures SetupOk(Flat(C))
  {
    var D := Flat(C);
    forall s: nat, b: nat | s < D.count ensures b in D.groups[s] <==> b < |D.id| && D.id[b] == s {
      if b < |D.id| { assert D.groups[0][b] == b; }
    }
    assert Grouped(D.id, D.count, D.groups);
    forall b: nat, e: BucketArc | b < |D.id| && e in FullArcs(D.P, D.G, D.dir, b)
      ensures e.toBucket < |D.id| && D.id[e.toBucket] <= D.id[b]
    {
    }
    forall b: nat, c: nat | Beyond(D.P, D.G, D.dir, b, c) ensures D.id[c] <= D.id[b] {}
    assert TopoOrder(D.P, D.G, D.dir, D.id, D.count);
    forall b: nat, e: BucketArc | b < |D.arcs| && e in D.arcs[b] ensures ArcOk(D, b, e) { assert ArcOk(C, b, e); }
    forall b: nat, j: JumpArc | b < |D.jumps| && j in D.jumps[b] ensures JumpOk(D, b, j) { assert JumpOk(C, b, j); }
  }

  /** recompute_bw_c_best: the bounds of update_c_best, computed over all buckets at once. */
  method RecomputeBounds<S(!new)>(C: Setup<S>, s: Store<S>) returns (best: seq<Bound>, least: seq<Bound>)
    requires SetupOk(C) && StoreOk(C, s)
    ensures AllBounds(C, s, best, least)
  {
    hide SetupOk, StoreOk, BoundsOk, VertexMin;
    FlatOk(C);
    SetupReady(C);
    AllRowsOk(C, s);
    StoreSizes(C, s);
    best, least := seq(|C.G.buckets|, b => Inf), seq(C.P.nVertices, v => Inf);
    Unset(C, s, best, least);
    best, least := UpdateCBest(Flat(C), s.pool, s.rows, best, least, 0);
    BoundsOfFlat(C, s, best, least);
  }

  lemma Unset<S(!new)>(C: Setup<S>, s: Store<S>, best: seq<Bound>, least: seq<Bound>)
    requires SetupOk(C) && SetupOk(Flat(C)) && |s.rows| == |best| == |C.G.buckets| && |least| == C.P.nVertices
    requires (forall b: nat :: b < |best| ==> best[b] == Inf) && forall v: nat :: v < |least| ==> least[v] == Inf
    ensures BoundsOk(Flat(C), s.pool, s.rows, best, least, 1)
  {
  }

  /** c_best is the exact prefix minimum of every bucket and the vertex minima are exact. */
  ghost predicate AllBounds<S(!new)>(C: Setup<S>, s: Store<S>, best: seq<Bound>, least: seq<Bound>)
    requires SetupOk(C)
  {
    && |s.rows| == |best| == |C.G.buckets| && |least| == C.P.nVertices
    && (forall b: nat :: b < |best| ==> PrefixMin(C, s.pool, s.rows, b, best[b]))
    && (forall v: nat :: v < |least| ==> VertexMin(C.G, best, v, least[v]))
  }

  lemma BoundsOfFlat<S(!new)>(C: Setup<S>, s: Store<S>, best: seq<Bound>, least: seq<Bound>)
    requires SetupOk(C) && SetupOk(Flat(C)) && BoundsOk(Flat(C), s.pool, s.rows, best, least, 0)
    ensures AllBounds(C, s, best, least)
  {
    hide TopoOrder, Grouped, Disposable, VertexMin;
    var D := Flat(C);
    forall b: nat | b < |best| ensures PrefixMin(C, s.pool, s.rows, b, best[b]) {
      assert PrefixMin(D, s.pool, s.rows, b, best[b]);
      if best[b].Fin? { assert AttainedUpTo(D, s.pool, s.rows, b, best[b].val); }
    }
  }

  lemma BoundsOfRun<S(!new)>(C: Setup<S>, s: Store<S>, best: seq<Bound>, least: seq<Bound>)
    requires SetupOk(C) && BoundsOk(C, s.pool, s.rows, best, least, 0)
    ensures AllBounds(C, s, best, least)
  {
    hide Grouped, Disposable, VertexMin, PrefixMin;
  }

  /** Stored labels with exact bounds are what the join reads. */
  lemma ReadySide<S(!new)>(C: Setup<S>, v: Side<S>)
    requires SetupOk(C) && StoreOk(C, v.store) && AllBounds(C, v.store, v.cBest, v.vertexMin)
    ensures SideReady(C.P, C.G, v)
  {
    hide TopoOrder, Grouped, Disposable, RowOk, Ascending, Origin;
    forall b: nat | b < |v.store.rows| ensures RowReady(C.P, C.G, v, b) {
      assert RowIn(C, v.store, b);
      forall k: nat | k in v.store.rows[b].ids ensures Stored(C.G, v, b, k) { StoredBelow(C, v, b, k); }
    }
    forall k: nat | Alive(v.store, k)
      ensures v.store.pool[k].node.vertex < C.P.nVertices
    {
      assert LabelOk(C, v.store.pool, k);
    }
  }

  lemma StoredBelow<S(!new)>(C: Setup<S>, v: Side<S>, b: nat, k: nat)
    requires SetupOk(C) && StoreOk(C, v.store) && AllBounds(C, v.store, v.cBest, v.vertexMin)
    requires b < |v.store.rows| && k in v.store.rows[b].ids
    ensures Stored(C.G, v, b, k)
  {
    hide TopoOrder, Grouped, Disposable, RowOk, Ascending, Origin;
    assert RowIn(C, v.store, b) && LabelOk(C, v.store.pool, k);
    BeyondOrder(C.P, C.G, C.dir, b, b, b);
    assert PrefixMin(C, v.store.pool, v.store.rows, b, v.cBest[b]);
    assert LowerAt(v.store.pool, v.store.rows[b], v.cBest[b]);
    var u := C.G.buckets[b].vertex;
    assert VertexMin(C.G, v.cBest, u, v.vertexMin[u]);
  }
}
