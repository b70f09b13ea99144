/**
 * What the check of adjacent buckets guarantees in the end: labels that were extended had no better one before them.
 */
module Clearances {
  import opened Types
  import opened Resources
  import opened Problems
  import opened Grids
  import opened BucketOrder
  import opened LabelStores
  import opened LabelingSpec
  import opened LabelingSteps
  import opened CBests

  /** No label left in a bucket that comes before b, in a component processed earlier, dominates n. */
  ghost predicate ClearOf<S(!new)>(C: Setup<S>, s: Store<S>, b: nat, n: Node<S>)
    requires SetupOk(C) && |s.dominated| == |s.pool|
  {
    forall o: nat :: Beyond(C.P, C.G, C.dir, o, b) && o < |s.rows| && o < |C.id| && b < |C.id| && C.id[o] > C.id[b] ==>
      !DominatedIn(C.P, C.dir, s.pool, s.dominated, s.rows[o], n)
  }

  /** So it is for every label that has been extended, which are all in components from level on. */
  ghost predicate AllClear<S(!new)>(C: Setup<S>, s: Store<S>, level: int)
    requires SetupOk(C)
  {
    && |s.dominated| == |s.extended| == |s.pool|
    && (forall k: nat :: k < |s.pool| && s.extended[k] ==>
        s.pool[k].bucket < |C.id| && C.id[s.pool[k].bucket] >= level && ClearOf(C, s, s.pool[k].bucket, s.pool[k].node))
  }

  /** The bounds of components processed before level are below what these hold. */
  ghost predicate BoundsBelow<S>(C: Setup<S>, s: Store<S>, cBest: seq<Bound>, level: int) {
    && |cBest| == |s.rows| == |C.id|
    && (forall o: nat :: o < |cBest| && C.id[o] > level ==> LowerAt(s.pool, s.rows[o], cBest[o]))
  }

  /** What ProcessLabel relies on and keeps while component level is processed. */
  ghost predicate Orderly<S(!new)>(C: Setup<S>, s: Store<S>, cBest: seq<Bound>, level: int)
    requires SetupOk(C)
  {
    AllClear(C, s, level) && BoundsBelow(C, s, cBest, level)
  }

  lemma ClearOne<S(!new)>(C: Setup<S>, s: Store<S>, t: Store<S>, level: int, b: nat, n: Node<S>)
    requires SetupOk(C) && StoreOk(C, s) && Progress(C, s, t, level) && b < |C.id| && C.id[b] >= level
    requires ClearOf(C, s, b, n)
    ensures ClearOf(C, t, b, n)
  {
    hide TopoOrder, Grouped, Disposable, Dominates, Covered, LabelOk, RowTidy, GridUpTo, BucketOk;
    forall o: nat | Beyond(C.P, C.G, C.dir, o, b) && o < |t.rows| && o < |C.id| && C.id[o] > C.id[b]
      ensures !DominatedIn(C.P, C.dir, t.pool, t.dominated, t.rows[o], n)
    {
      assert RowKept(C, s, t, level, o) && RowIn(C, s, o);
      assert !DominatedIn(C.P, C.dir, s.pool, s.dominated, s.rows[o], n);
      forall i: nat | i < |t.rows[o].ids| ensures !DominatesAt(C.P, C.dir, t.pool, t.dominated, t.rows[o], i, n) {
        var k := s.rows[o].ids[i];
        assert k in s.rows[o].ids && SameLabel(s, t, k);
        assert !DominatesAt(C.P, C.dir, s.pool, s.dominated, s.rows[o], i, n);
      }
    }
  }

  /** A step that flags no label keeps this. */
  lemma OrderlyKept<S(!new)>(C: Setup<S>, s: Store<S>, t: Store<S>, cBest: seq<Bound>, level: int)
    requires SetupOk(C) && StoreOk(C, s) && Progress(C, s, t, level) && Orderly(C, s, cBest, level)
    requires forall k: nat :: k < |t.pool| && k < |t.extended| && t.extended[k] ==> k < |s.pool| && s.extended[k]
    ensures Orderly(C, t, cBest, level)
  {
    hide TopoOrder, Grouped, Disposable, Dominates, Covered, LabelOk, RowTidy, ClearOf, CoverKept;
    forall k: nat | k < |t.pool| && t.extended[k]
      ensures t.pool[k].bucket < |C.id| && C.id[t.pool[k].bucket] >= level
              && ClearOf(C, t, t.pool[k].bucket, t.pool[k].node)
    {
      assert SameLabel(s, t, k);
      ClearOne(C, s, t, level, s.pool[k].bucket, s.pool[k].node);
    }
    forall o: nat | o < |cBest| && C.id[o] > level ensures LowerAt(t.pool, t.rows[o], cBest[o]) {
      assert RowKept(C, s, t, level, o) && RowIn(C, s, o) && LowerAt(s.pool, s.rows[o], cBest[o]);
      forall k: nat | k in t.rows[o].ids ensures cBest[o].AtMost(Fin(t.pool[k].node.cost)) {
        assert SameLabel(s, t, k);
      }
    }
  }

  lemma OrderlyFlagged<S(!new)>(C: Setup<S>, t: Store<S>, u: Store<S>, cBest: seq<Bound>, level: int, k: nat)
    requires SetupOk(C) && Orderly(C, t, cBest, level) && k < |t.pool| && t.pool[k].bucket < |C.id|
    requires C.id[t.pool[k].bucket] >= level && ClearOf(C, t, t.pool[k].bucket, t.pool[k].node)
    requires u == t.(extended := t.extended[k := true])
    ensures Orderly(C, u, cBest, level)
  {
    hide SetupOk, DominatedIn;
    forall h: nat | h < |u.pool| && u.extended[h] ensures ClearOf(C, u, u.pool[h].bucket, u.pool[h].node) {
      assert ClearOf(C, t, t.pool[h].bucket, t.pool[h].node);
    }
  }

  lemma OrderlyGrows<S(!new)>(C: Setup<S>, s: Store<S>, t: Store<S>, cBest: seq<Bound>, level: int)
    requires SetupOk(C) && StoreOk(C, s) && Grows(C, s, t, level) && Orderly(C, s, cBest, level)
    requires t.extended == s.extended || Appends(s, t)
    ensures Orderly(C, t, cBest, level)
  {
    GrowsProgress(C, s, t, level);
    hide Grows, Progress, SetupOk, StoreOk, AllClear, BoundsBelow;
    OrderlySizes(C, s, cBest, level);
    OrderlyKept(C, s, t, cBest, level);
  }

  lemma OrderlySizes<S(!new)>(C: Setup<S>, s: Store<S>, cBest: seq<Bound>, level: int)
    requires SetupOk(C) && Orderly(C, s, cBest, level)
    ensures |s.extended| == |s.dominated| == |s.pool|
  {
  }

  lemma OrderlyBounds<S(!new)>(C: Setup<S>, s: Store<S>, cBest: seq<Bound>, level: int)
    requires SetupOk(C)
    ensures Orderly(C, s, cBest, level) <==> AllClear(C, s, level) && BoundsBelow(C, s, cBest, level)
  {
  }

  /** A label without a better one before it has been extended and is flagged. */
  lemma OrderlyExpanded<S(!new)>(C: Setup<S>, s: Store<S>, t: Store<S>, u: Store<S>, cBest: seq<Bound>, b: nat, k: nat)
    requires SetupOk(C) && StoreOk(C, s) && b < |C.id| && Grows(C, s, t, C.id[b]) && Orderly(C, s, cBest, C.id[b])
    requires Appends(s, t) && k < |s.pool| && s.pool[k].bucket == b
    requires forall o: nat :: Beyond(C.P, C.G, C.dir, o, b) ==> !AdjacentHit(C, s, cBest, b, o, s.pool[k].node)
    requires |t.extended| == |t.pool| && u == t.(extended := t.extended[k := true])
    ensures Orderly(C, u, cBest, C.id[b])
  {
    hide Grows, Progress, SetupOk, StoreOk, ClearOf, Orderly, AdjacentHit, Beyond, Appends;
    OrderlyBounds(C, s, cBest, C.id[b]);
    NoHitIsClear(C, s, cBest, b, s.pool[k].node);
    OrderlyGrows(C, s, t, cBest, C.id[b]);
    GrowsProgress(C, s, t, C.id[b]);
    LabelKept(C, s, t, C.id[b], k);
    OrderlySizes(C, t, cBest, C.id[b]);
    ClearOne(C, s, t, C.id[b], b, s.pool[k].node);
    OrderlyFlagged(C, t, u, cBest, C.id[b], k);
  }

  /** Nothing is lost by the buckets that their bound lets the check skip. */
  lemma NoHitIsClear<S(!new)>(C: Setup<S>, s: Store<S>, cBest: seq<Bound>, b: nat, n: Node<S>)
    requires SetupOk(C) && StoreOk(C, s) && b < |C.id| && BoundsBelow(C, s, cBest, C.id[b])
    requires forall o: nat :: Beyond(C.P, C.G, C.dir, o, b) ==> !AdjacentHit(C, s, cBest, b, o, n)
    ensures ClearOf(C, s, b, n)
  {
    hide TopoOrder, Grouped, Dominates, LabelOk, RowTidy, RowIn, GridUpTo, BucketOk;
    forall o: nat | Beyond(C.P, C.G, C.dir, o, b) && o < |s.rows| && o < |C.id| && C.id[o] > C.id[b]
      ensures !DominatedIn(C.P, C.dir, s.pool, s.dominated, s.rows[o], n)
    {
      if DominatedIn(C.P, C.dir, s.pool, s.dominated, s.rows[o], n) {
        HitBelow(C, s, cBest, b, o, n);
        assert false;
      }
    }
  }

  /** The bound of a bucket with a dominating label does not exclude it. */
  lemma HitBelow<S(!new)>(C: Setup<S>, s: Store<S>, cBest: seq<Bound>, b: nat, o: nat, n: Node<S>)
    requires SetupOk(C) && StoreOk(C, s) && o < |s.rows| == |cBest| && LowerAt(s.pool, s.rows[o], cBest[o]) && o != b
    requires DominatedIn(C.P, C.dir, s.pool, s.dominated, s.rows[o], n)
    ensures AdjacentHit(C, s, cBest, b, o, n)
  {
    hide TopoOrder, Grouped, Dominates, LabelOk, RowTidy, RowIn;
    var i: nat :| i < |s.rows[o].ids| && DominatesAt(C.P, C.dir, s.pool, s.dominated, s.rows[o], i, n);
    var k := s.rows[o].ids[i];
    assert k in s.rows[o].ids;
    DominatesIff(C.P, C.dir, s.pool[k].node, n);
  }

  lemma BoundsAreLower<S(!new)>(C: Setup<S>, s: Store<S>, cBest: seq<Bound>, vertexMin: seq<Bound>, level: int)
    requires SetupOk(C) && StoreOk(C, s) && BoundsOk(C, s.pool, s.rows, cBest, vertexMin, level + 1)
    ensures BoundsBelow(C, s, cBest, level)
  {
    hide Grouped, Disposable, VertexMin, RowIn, RowTidy, LabelOk, BucketOk, RangeOk;
    forall o: nat | o < |cBest| && C.id[o] > level ensures LowerAt(s.pool, s.rows[o], cBest[o]) {
      BeyondOrder(C.P, C.G, C.dir, o, o, o);
      assert PrefixMin(C, s.pool, s.rows, o, cBest[o]);
    }
  }

  lemma LaterClear<S(!new)>(C: Setup<S>, s: Store<S>, level: int)
    requires SetupOk(C) && AllClear(C, s, level + 1)
    ensures AllClear(C, s, level)
  {
    hide SetupOk, ClearOf;
  }

  lemma RootClear<S(!new)>(C: Setup<S>, s: Store<S>)
    requires SetupOk(C) && |s.dominated| == |s.extended| == |s.pool| && forall k: nat :: k < |s.pool| ==> !s.extended[k]
    ensures AllClear(C, s, C.count)
  {
  }

  // ----- What is left of a finished run -----

  /**
   * If j dominates k, both are left in the same bucket at the same cost, or j's component was not processed before k's,
   * or k has not been extended because it is past the midpoint or its bucket is fixed.
   */
  ghost predicate Unbeaten<S>(C: Setup<S>, s: Store<S>, j: nat, k: nat)
    requires j < |s.pool| && k < |s.pool| && s.pool[j].bucket < |C.id| && s.pool[k].bucket < |C.id|
  {
    var b, c := s.pool[j].bucket, s.pool[k].bucket;
    Dominates(C.P, C.dir, s.pool[j].node, s.pool[k].node) ==>
      && (b == c ==> s.pool[j].node.cost == s.pool[k].node.cost)
      && (C.id[b] > C.id[c] ==> c in C.fixed || PastMid(C, s.pool[k].node.q))
  }

  ghost predicate StoredAt<S>(C: Setup<S>, s: Store<S>, k: nat) {
    Alive(s, k) && s.pool[k].bucket < |C.id|
  }

  /**
   * Dominance has been carried out: of the labels left in a bucket one dominates another only at the same cost, and
   * none that was to be extended is dominated from a bucket of a component processed earlier. Nothing is stored that
   * the filter past the midpoint rejects.
   */
  ghost predicate Tight<S(!new)>(C: Setup<S>, s: Store<S>)
    requires SetupOk(C)
  {
    && (forall k: nat :: Alive(s, k) ==> s.pool[k].bucket < |C.id| && Admitted(C, s, k))
    && (forall j: nat, k: nat :: StoredAt(C, s, j) && StoredAt(C, s, k) && j != k ==> Unbeaten(C, s, j, k))
  }

  lemma TightPair<S(!new)>(C: Setup<S>, s: Store<S>, j: nat, k: nat)
    requires SetupOk(C) && StoreOk(C, s) && AllClear(C, s, 0) && StoredAt(C, s, j) && StoredAt(C, s, k) && j != k
    requires s.pool[k].bucket !in C.fixed && s.pool[k].bucket < |s.rows| ==> Settled(C, s, s.pool[k].bucket)
    ensures Unbeaten(C, s, j, k)
  {
    hide TopoOrder, Grouped, Disposable, GridUpTo, BucketOk, RowIn, BucketIndex;
    var b, c := s.pool[j].bucket, s.pool[k].bucket;
    var m, n := s.pool[j].node, s.pool[k].node;
    if Dominates(C.P, C.dir, m, n) {
      if b == c {
        assert RowTidy(C, s, b) && NotBeaten(C, s, j, k);
      } else if C.id[b] > C.id[c] && c !in C.fixed && !PastMid(C, n.q) {
        assert Handled(C, s, k) && s.extended[k];
        assert LabelOk(C, s.pool, j) && LabelOk(C, s.pool, k);
        DominatesAhead(C.P, C.dir, m, n);
        BucketMonotone(C.P, C.G, C.dir, n.vertex, m.q, n.q);
        assert ClearOf(C, s, c, n);
        FoundInRow(C, s, j, n);
        assert false;
      }
    }
  }

  lemma FoundInRow<S>(C: Setup<S>, s: Store<S>, j: nat, n: Node<S>)
    requires Alive(s, j) && |s.dominated| == |s.pool| && Dominates(C.P, C.dir, s.pool[j].node, n)
    ensures DominatedIn(C.P, C.dir, s.pool, s.dominated, s.rows[s.pool[j].bucket], n)
  {
    hide Dominates;
    var row := s.rows[s.pool[j].bucket];
    var i :| 0 <= i < |row.ids| && row.ids[i] == j;
    assert DominatesAt(C.P, C.dir, s.pool, s.dominated, row, i, n);
  }

  lemma DominatesAhead<S>(P: Problem<S>, dir: Direction, m: Node<S>, n: Node<S>)
    requires Dominates(P, dir, m, n)
    ensures m.vertex == n.vertex && Ahead(dir, m.q, n.q)
  {
  }

  lemma FinishedTight<S(!new)>(C: Setup<S>, s: Store<S>)
    requires SetupOk(C) && StoreOk(C, s) && AllClear(C, s, 0)
    requires forall b: nat :: b < |s.rows| && b !in C.fixed ==> Settled(C, s, b)
    ensures Tight(C, s)
  {
    hide TopoOrder, Grouped, Disposable, Unbeaten, ClearOf, Settled, Kept, Dominates;
    forall k: nat | Alive(s, k) ensures s.pool[k].bucket < |C.id| && Admitted(C, s, k) {
      assert RowTidy(C, s, s.pool[k].bucket);
    }
    forall j: nat, k: nat | StoredAt(C, s, j) && StoredAt(C, s, k) && j != k ensures Unbeaten(C, s, j, k) {
      TightPair(C, s, j, k);
    }
  }

  // ----- Equal costs -----

  /** Whichever order they come in: the first two labels of a batch cost the same, the second dominates the first. */
  function Tie(): Problem<()> {
    Problem(2, 0, Topology((a: nat) => 0, (a: nat) => 1, 0, 1), (a: nat) => 0.0, (a: nat) => 0.0,
            (a: nat) => Vec(0.0, 0.0), (v: nat) => Vec(0.0, 0.0), (v: nat) => Vec(9.0, 9.0), false, false,
            NoResource.AsResource())
  }

  /**
   * Step 1 of batch_try_insert compares each label with later ones only, in order of cost. Of two labels that cost the
   * same the later may dominate the earlier, and both are left.
   */
  method TieIsKept() returns (pool: seq<Label<()>>, dead: seq<bool>)
    ensures |pool| == |dead| == 2 && pool[0].node.cost == pool[1].node.cost && dead == [false, false]
    ensures Dominates(Tie(), Forward, pool[1].node, pool[0].node)
  {
    EmptyDisposable(Tie().top);
    EmptyCosts(Forward, (), 0, 1, ());
    pool := [Label(Node(1, 0.0, 0.0, Vec(2.0, 0.0), ()), 0, -1, 0),
          Label(Node(1, 0.0, 0.0, Vec(1.0, 0.0), ()), 0, -1, 0)];
    dead := ThinBatch(Tie(), Forward, pool, [false, false], [0, 1], {0, 1});
    assert [0, 1][0] == 0 && [0, 1][1] == 1;
    assert dead == [false, false];
  }
}
