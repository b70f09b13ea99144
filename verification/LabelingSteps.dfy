/** Facts about single steps of the labeling loop, as the loop of Labeling.dfy uses them. */
module LabelingSteps {
  import opened Types
  import opened Resources
  import opened Problems
  import opened Grids
  import opened BucketArcs
  import opened BucketOrder
  import opened Sorting
  import opened LabelStores
  import opened LabelingSpec

  /** A new label that may be inserted without disturbing components processed earlier. */
  ghost predicate Born<S>(C: Setup<S>, s: Store<S>, k: nat, level: int) {
    Fresh(s, k) && s.pool[k].bucket < |C.id| && C.id[s.pool[k].bucket] <= level
  }

  /** One that has passed the filter. */
  ghost predicate Offered<S(!new)>(C: Setup<S>, s: Store<S>, k: nat, level: int)
    requires SetupOk(C)
  {
    Born(C, s, k, level) && Kept(C, s.pool[k].node)
  }

  lemma StoreSizes<S(!new)>(C: Setup<S>, s: Store<S>)
    requires SetupOk(C) && StoreOk(C, s)
    ensures Sizes(C, s)
  {
  }

  lemma OfferFacts<S(!new)>(C: Setup<S>, s: Store<S>, k: nat, level: int)
    requires SetupOk(C) && Offered(C, s, k, level)
    ensures k < |s.pool| && s.pool[k].bucket < |s.rows|
  {
  }

  /** Once offered to an open bucket, a label is covered. */
  ghost predicate Settles<S(!new)>(C: Setup<S>, s: Store<S>, k: nat) {
    k < |s.pool| && (s.pool[k].bucket !in C.fixed ==> Covered(C, s, s.pool[k].node))
  }

  /** Only bucket b's row, and flags of its labels, may differ. */
  ghost predicate FrameOf<S>(C: Setup<S>, s: Store<S>, t: Store<S>, b: nat) {
    && t.pool == s.pool && t.extended == s.extended && |t.rows| == |s.rows| && |t.dominated| == |s.dominated|
    && (forall c: nat :: c < |s.rows| && c != b ==> t.rows[c] == s.rows[c])
    && (forall k: nat ::
      k < |s.pool| && k < |s.dominated| && s.pool[k].bucket != b ==> t.dominated[k] == s.dominated[k])
  }

  lemma StoreFacts<S(!new)>(C: Setup<S>, s: Store<S>, k: nat)
    requires SetupOk(C) && StoreOk(C, s) && k < |s.pool|
    ensures s.pool[k].bucket < |s.rows| && s.pool[k].node.vertex < C.P.nVertices
            && s.pool[k].bucket == BucketOf(C, s.pool[k].node)
    ensures RowOk(C.P, s.pool, s.rows[s.pool[k].bucket]) && Ascending(s.rows[s.pool[k].bucket].costs)
    ensures Filters(C.P.pack)
  {
    assert LabelOk(C, s.pool, k) && RowIn(C, s, s.pool[k].bucket);
  }

  lemma FrameSelf<S>(C: Setup<S>, s: Store<S>, b: nat)
    ensures FrameOf(C, s, s, b)
  {
  }

  lemma Inserted<S(!new)>(C: Setup<S>, s: Store<S>, b: nat, row: Row, marked: seq<bool>, k: nat, level: int)
    requires SetupOk(C) && StoreOk(C, s) && Fresh(s, k) && b == s.pool[k].bucket && b < |s.rows| && |marked| == |s.pool|
    requires C.id[b] <= level && b !in C.fixed
    requires Kept(C, s.pool[k].node) && |s.dominated| == |s.pool|
             && !DominatedIn(C.P, C.dir, s.pool, s.dominated, s.rows[b], s.pool[k].node)
    requires RowOk(C.P, s.pool, row) && Ascending(row.costs)
    requires |s.rows[b].ids| <= |row.ids| && forall i: nat :: i in row.ids <==> i == k || i in s.rows[b].ids
    requires forall i: nat :: i < |s.pool| ==>
      (marked[i] <==> s.dominated[i] || (i in s.rows[b].ids && Dominates(C.P, C.dir, s.pool[k].node, s.pool[i].node)))
    ensures var t := s.(rows := s.rows[b := row], dominated := marked);
            StoreOk(C, t) && Grows(C, s, t, level) && Covered(C, t, s.pool[k].node) && FrameOf(C, s, t, b)
  {
    hide Dominates, Grows, Kept, RowTidy, DominatedIn;
    var t := s.(rows := s.rows[b := row], dominated := marked);
    assert RowIn(C, s, b) && RowTidy(C, s, b);
    TidyWithOne(C, s, t, b, k);
    forall i: nat | i < |s.pool| && marked[i] && !s.dominated[i] ensures KilledInRow(C, s, b, row, marked, i) {
      assert k in row.ids && !marked[k];
    }
    RowReplaced(C, s, t, b, row, marked, level);
    DominatesOrder(C.P, C.dir, s.pool[k].node, s.pool[k].node, s.pool[k].node);
    assert Alive(t, k);
  }

  /** A label that no label of the row dominates joins it, and those that it dominates are marked. */
  lemma TidyWithOne<S(!new)>(C: Setup<S>, s: Store<S>, t: Store<S>, b: nat, k: nat)
    requires SetupOk(C) && b < |s.rows| && b < |t.rows| && RowTidy(C, s, b) && k < |s.pool| && t.pool == s.pool
    requires |s.dominated| == |t.dominated| == |s.pool| && Kept(C, s.pool[k].node)
    requires !DominatedIn(C.P, C.dir, s.pool, s.dominated, s.rows[b], s.pool[k].node)
    requires forall i: nat :: i in t.rows[b].ids <==> i == k || i in s.rows[b].ids
    requires forall i: nat :: i in s.rows[b].ids ==> i < |s.pool|
    requires forall i: nat :: i < |s.pool| ==>
      (t.dominated[i] <==>
            s.dominated[i] || (i in s.rows[b].ids && Dominates(C.P, C.dir, s.pool[k].node, s.pool[i].node)))
    ensures RowTidy(C, t, b)
  {
    hide Dominates, Kept, SetupOk;
    forall i: nat, j: nat | i in t.rows[b].ids && j in t.rows[b].ids && i != j ensures NotBeaten(C, t, i, j) {
      if i != k && j != k {
        assert NotBeaten(C, s, i, j);
      } else if j == k {
        var h :| 0 <= h < |s.rows[b].ids| && s.rows[b].ids[h] == i;
        assert !DominatesAt(C.P, C.dir, s.pool, s.dominated, s.rows[b], h, s.pool[k].node);
      }
    }
    forall i: nat | i in t.rows[b].ids ensures Admitted(C, t, i) {
      if i != k { assert Admitted(C, s, i); }
    }
  }

  /** A group joins a row when nothing left of either is in the way of the other. */
  lemma TidyWithGroup<S(!new)>(C: Setup<S>, s: Store<S>, t: Store<S>, b: nat, group: seq<nat>)
    requires SetupOk(C) && b < |s.rows| && b < |t.rows| && RowTidy(C, s, b) && t.pool == s.pool
    requires |s.dominated| == |t.dominated| == |s.pool|
    requires forall i: nat :: i < |group| ==> group[i] < |s.pool| && Kept(C, s.pool[group[i]].node)
    requires forall i: nat :: i in t.rows[b].ids ==> i in s.rows[b].ids || i in group
    requires forall i: nat :: i in s.rows[b].ids ==> i < |s.pool|
    requires forall i: nat :: i < |s.pool| && s.dominated[i] ==> t.dominated[i]
    requires forall h, i :: h in s.rows[b].ids && i in group ==>
      Apart(C.P, C.dir, s.pool, t.dominated, h, i) && Apart(C.P, C.dir, s.pool, t.dominated, i, h)
    requires forall i: nat, j: nat :: i in group && j in group && i != j ==> NotBeaten(C, t, i, j)
    ensures RowTidy(C, t, b)
  {
    hide Dominates, Kept, SetupOk;
    forall i: nat, j: nat | i in t.rows[b].ids && j in t.rows[b].ids && i != j ensures NotBeaten(C, t, i, j) {
      if i in s.rows[b].ids && j in s.rows[b].ids {
        assert NotBeaten(C, s, i, j);
      } else if i in s.rows[b].ids {
        assert Apart(C.P, C.dir, s.pool, t.dominated, i, j);
      } else if j in s.rows[b].ids {
        assert Apart(C.P, C.dir, s.pool, t.dominated, i, j);
      }
    }
    forall i: nat | i in t.rows[b].ids ensures Admitted(C, t, i) {
      if i in s.rows[b].ids {
        assert Admitted(C, s, i);
      } else {
        var h :| 0 <= h < |group| && group[h] == i;
      }
    }
  }

  /** The members of a batch sorted by cost that are left dominate each other only at the same cost. */
  lemma BatchNotBeaten<S(!new)>(C: Setup<S>, s: Store<S>, t: Store<S>, group: seq<nat>, batch: seq<nat>)
    requires Disposable(C.P.pack, C.P.top) && multiset(batch) == multiset(group) && t.pool == s.pool
    requires BatchApart(C.P, C.dir, s.pool, t.dominated, batch)
    ensures forall i: nat, j: nat :: i in group && j in group && i != j ==> NotBeaten(C, t, i, j)
  {
    hide Dominates;
    forall i: nat, j: nat | i in group && j in group && i != j ensures NotBeaten(C, t, i, j) {
      assert i in multiset(batch) && j in multiset(batch);
      var x :| 0 <= x < |batch| && batch[x] == i;
      var y :| 0 <= y < |batch| && batch[y] == j;
      if x < y {
        assert ApartInOrder(C.P, C.dir, s.pool, t.dominated, batch[x], batch[y]);
      } else {
        assert ApartInOrder(C.P, C.dir, s.pool, t.dominated, batch[y], batch[x]);
        DominatesIff(C.P, C.dir, s.pool[i].node, s.pool[j].node);
      }
    }
  }

  lemma SortedOffers<S(!new)>(C: Setup<S>, s: Store<S>, buf: seq<nat>, sorted: seq<nat>, level: int)
    requires SetupOk(C) && multiset(sorted) == multiset(buf) && Distinct(buf)
    requires forall i: nat :: i < |buf| ==> Offered(C, s, buf[i], level)
    requires SortedBy(BucketKey(s.pool), sorted)
    ensures Distinct(sorted) && forall k :: k in buf ==> k in sorted
    ensures forall i: nat :: i < |sorted| ==> sorted[i] < |s.pool| && Offered(C, s, sorted[i], level)
    ensures forall i: nat, j: nat :: i < j < |sorted| ==> s.pool[sorted[i]].bucket <= s.pool[sorted[j]].bucket
  {
    hide SetupOk, Kept;
    PermutationFacts(sorted, buf);
    forall i: nat | i < |sorted| ensures sorted[i] < |s.pool| && Offered(C, s, sorted[i], level) {
      assert sorted[i] in sorted;
      var j :| 0 <= j < |buf| && buf[j] == sorted[i];
    }
    forall i: nat, j: nat | i < j < |sorted| ensures s.pool[sorted[i]].bucket <= s.pool[sorted[j]].bucket {
      assert BucketKey(s.pool)(sorted[i]) <= BucketKey(s.pool)(sorted[j]);
    }
  }

  function BucketKey<S>(pool: seq<Label<S>>): nat -> real {
    (k: nat) => if k < |pool| then pool[k].bucket as real else 0.0
  }

  lemma AfterGroup<S(!new)>(C: Setup<S>, s: Store<S>, t: Store<S>, u: Store<S>, sorted: seq<nat>, start: nat,
                            end: nat, b: nat, level: int)
    requires SetupOk(C) && StoreOk(C, s) && Grows(C, s, t, level) && Grows(C, t, u, level) && FrameOf(C, t, u, b)
    requires start < end <= |sorted|
    requires forall i: nat :: i < start ==> Settles(C, t, sorted[i])
    requires forall i: nat :: start <= i < end ==> Settles(C, u, sorted[i])
    requires forall i: nat :: start <= i < |sorted| ==> Offered(C, t, sorted[i], level)
    requires forall i: nat, j: nat ::
             i < j < |sorted| ==>
               sorted[i] < |t.pool| && sorted[j] < |t.pool| && t.pool[sorted[i]].bucket <= t.pool[sorted[j]].bucket
    requires sorted[start] < |t.pool| && t.pool[sorted[start]].bucket == b
    requires end < |sorted| ==> t.pool[sorted[end]].bucket != b
    ensures Grows(C, s, u, level)
    ensures forall i: nat :: i < end ==> Settles(C, u, sorted[i])
    ensures forall i: nat :: end <= i < |sorted| ==> Offered(C, u, sorted[i], level)
  {
    hide Dominates, Covered, Kept;
    RowMembers(C, s);
    GrowsTrans(C, s, t, u, level);
    forall i: nat | end <= i < |sorted| ensures Offered(C, u, sorted[i], level) {
      assert t.pool[sorted[start]].bucket <= t.pool[sorted[end]].bucket;
      assert end < i ==> t.pool[sorted[end]].bucket <= t.pool[sorted[i]].bucket;
      assert Offered(C, t, sorted[i], level);
    }
  }

  lemma RowMembers<S(!new)>(C: Setup<S>, s: Store<S>)
    requires SetupOk(C) && StoreOk(C, s)
    ensures forall b: nat, k: nat :: b < |s.rows| && k in s.rows[b].ids ==> k < |s.pool|
  {
    forall b: nat, k: nat | b < |s.rows| && k in s.rows[b].ids ensures k < |s.pool| { assert RowIn(C, s, b); }
  }

  lemma GroupFacts<S(!new)>(C: Setup<S>, s: Store<S>, group: seq<nat>, b: nat)
    requires SetupOk(C) && StoreOk(C, s) && b < |s.rows|
    requires forall i: nat :: i < |group| ==> Fresh(s, group[i]) && s.pool[group[i]].bucket == b
    ensures RowOk(C.P, s.pool, s.rows[b]) && Ascending(s.rows[b].costs)
    ensures forall i: nat :: i < |group| ==> group[i] < |s.pool| && group[i] !in s.rows[b].ids && !s.dominated[group[i]]
  {
    assert RowIn(C, s, b);
  }

  lemma InsertedGroup<S(!new)>(C: Setup<S>, s: Store<S>, b: nat, row: Row, marked: seq<bool>, group: seq<nat>,
                               level: int)
    requires SetupOk(C) && StoreOk(C, s) && b < |s.rows| && |marked| == |s.pool| && C.id[b] <= level
             && b !in C.fixed
    requires forall i: nat :: i < |group| ==> Fresh(s, group[i]) && s.pool[group[i]].bucket == b
    requires RowOk(C.P, s.pool, row) && Ascending(row.costs)
    requires KillsCovered(C.P, C.dir, s.pool, Universe(s.rows[b], group), s.dominated, marked)
    requires |s.rows[b].ids| <= |row.ids|
    requires forall k: nat :: k in row.ids <==> k in s.rows[b].ids || (k in group && k < |marked| && !marked[k])
    requires RowTidy(C, s.(rows := s.rows[b := row], dominated := marked), b)
    ensures var t := s.(rows := s.rows[b := row], dominated := marked);
            && StoreOk(C, t) && Grows(C, s, t, level) && FrameOf(C, s, t, b)
            && forall i: nat :: i < |group| ==> group[i] < |s.pool| && Covered(C, t, s.pool[group[i]].node)
  {
    hide Dominates, Grows, RowTidy;
    var t := s.(rows := s.rows[b := row], dominated := marked);
    assert RowIn(C, s, b);
    var all := Universe(s.rows[b], group);
    forall k: nat | k < |s.pool| && marked[k] && !s.dominated[k] ensures KilledInRow(C, s, b, row, marked, k) {
      GroupKill(C, s, b, row, marked, group, k);
    }
    RowReplaced(C, s, t, b, row, marked, level);
    forall i: nat | i < |group| ensures Covered(C, t, s.pool[group[i]].node) {
      var k := group[i];
      assert Fresh(s, k);
      if marked[k] {
        GroupKill(C, s, b, row, marked, group, k);
        var j: nat :| j in row.ids && j < |s.pool| && !marked[j]
            && Dominates(C.P, C.dir, s.pool[j].node, s.pool[k].node);
        assert Alive(t, j);
      } else {
        DominatesOrder(C.P, C.dir, s.pool[k].node, s.pool[k].node, s.pool[k].node);
        assert Alive(t, k);
      }
    }
  }

  /** What holds by position in the sorted batch holds for every member of the group. */
  lemma AllApart<S(!new)>(C: Setup<S>, s: Store<S>, b: nat, marked: seq<bool>, group: seq<nat>, batch: seq<nat>)
    requires b < |s.rows| && multiset(batch) == multiset(group)
    requires RowApart(C.P, C.dir, s.pool, marked, s.rows[b].ids, batch)
    ensures forall h, i ::
            h in s.rows[b].ids && i in group ==>
              Apart(C.P, C.dir, s.pool, marked, h, i) && Apart(C.P, C.dir, s.pool, marked, i, h)
  {
    hide Apart;
    forall h, i | h in s.rows[b].ids && i in group
      ensures Apart(C.P, C.dir, s.pool, marked, h, i) && Apart(C.P, C.dir, s.pool, marked, i, h)
    {
      assert i in multiset(batch);
      var x :| 0 <= x < |s.rows[b].ids| && s.rows[b].ids[x] == h;
      var y :| 0 <= y < |batch| && batch[y] == i;
    }
  }

  /** What batch_try_insert has done to a row leaves it tidy. */
  lemma TidyAfterBatch<S(!new)>(C: Setup<S>, s: Store<S>, b: nat, row: Row, marked: seq<bool>, group: seq<nat>,
                                batch: seq<nat>)
    requires SetupOk(C) && StoreOk(C, s) && b < |s.rows| && |marked| == |s.pool| && multiset(batch) == multiset(group)
    requires forall i: nat :: i < |group| ==>
      Fresh(s, group[i]) && s.pool[group[i]].bucket == b && Kept(C, s.pool[group[i]].node)
    requires KillsCovered(C.P, C.dir, s.pool, Universe(s.rows[b], group), s.dominated, marked)
    requires forall k: nat :: k in row.ids <==> k in s.rows[b].ids || (k in group && k < |marked| && !marked[k])
    requires RowApart(C.P, C.dir, s.pool, marked, s.rows[b].ids, batch)
    requires BatchApart(C.P, C.dir, s.pool, marked, batch)
    ensures RowTidy(C, s.(rows := s.rows[b := row], dominated := marked), b)
    ensures forall h, i :: h in s.rows[b].ids && i in group ==>
              Apart(C.P, C.dir, s.pool, marked, h, i) && Apart(C.P, C.dir, s.pool, marked, i, h)
  {
    hide Dominates, Apart, RowApart, BatchApart, RowTidy, Kept, LabelOk, TopoOrder, Grouped;
    var t := s.(rows := s.rows[b := row], dominated := marked);
    assert RowIn(C, s, b) && RowTidy(C, s, b);
    AllApart(C, s, b, marked, group, batch);
    BatchNotBeaten(C, s, t, group, batch);
    TidyWithGroup(C, s, t, b, group);
  }

  lemma GroupKill<S(!new)>(C: Setup<S>, s: Store<S>, b: nat, row: Row, marked: seq<bool>, group: seq<nat>, k: nat)
    requires SetupOk(C) && StoreOk(C, s) && b < |s.rows| && |marked| == |s.pool|
    requires forall i: nat :: i < |group| ==> Fresh(s, group[i]) && s.pool[group[i]].bucket == b
    requires KillsCovered(C.P, C.dir, s.pool, Universe(s.rows[b], group), s.dominated, marked)
    requires forall k: nat :: k in row.ids <==> k in s.rows[b].ids || (k in group && k < |marked| && !marked[k])
    requires k < |s.pool| && marked[k] && !s.dominated[k]
    ensures KilledInRow(C, s, b, row, marked, k)
  {
    hide Dominates;
    assert RowIn(C, s, b);
    var all := Universe(s.rows[b], group);
    assert KillerOf(C.P, C.dir, s.pool, all, marked, k);
    var j: nat :| j in all && j < |s.pool| && !marked[j] && Dominates(C.P, C.dir, s.pool[j].node, s.pool[k].node);
    assert j in row.ids;
  }

  lemma CoveredByRow<S(!new)>(C: Setup<S>, s: Store<S>, b: nat, n: Node<S>)
    requires SetupOk(C) && StoreOk(C, s) && b < |s.rows|
    requires DominatedIn(C.P, C.dir, s.pool, s.dominated, s.rows[b], n)
    ensures Covered(C, s, n)
  {
    hide Dominates;
    var i: nat :| i < |s.rows[b].ids| && DominatesAt(C.P, C.dir, s.pool, s.dominated, s.rows[b], i, n);
    assert RowIn(C, s, b);
    assert s.rows[b].ids[i] in s.rows[b].ids;
    assert Alive(s, s.rows[b].ids[i]);
  }

  // ----- Extending one label -----

  /** base is what label n of bucket b may be extended from along arc a: its own resources, or the boosted ones. */
  ghost predicate Move<S(!new)>(C: Setup<S>, b: nat, n: Node<S>, a: nat, base: Vec)
    requires SetupOk(C) && b < |C.G.buckets|
  {
    && a < C.P.nArcs && C.P.top.Tail(C.dir, a) == n.vertex && !PastMid(C, n.q)
    && Ahead(C.dir, n.q, base) && (NoJumps(C) ==> base == n.q) && Offers(C, b, a, n.q, base)
    && exists c: nat :: Beyond(C.P, C.G, C.dir, b, c) && Ahead(C.dir, Corner(C.dir, C.G.buckets[c]), base)
  }

  lemma ArcMove<S(!new)>(C: Setup<S>, s: Store<S>, k: nat, e: BucketArc)
    requires SetupOk(C) && StoreOk(C, s) && k < |s.pool| && s.pool[k].bucket < |C.arcs|
    requires e in C.arcs[s.pool[k].bucket] && !PastMid(C, s.pool[k].node.q) && s.pool[k].bucket !in C.fixed
    ensures Move(C, s.pool[k].bucket, s.pool[k].node, e.arc, s.pool[k].node.q)
  {
    var L := s.pool[k];
    assert LabelOk(C, s.pool, k) && ArcOk(C, L.bucket, e);
    FullArcsMembers(C.P, C.G, C.dir, L.bucket);
    BucketHolds(C.P, C.G, C.dir, L.node.vertex, L.node.q);
    BeyondOrder(C.P, C.G, C.dir, L.bucket, L.bucket, L.bucket);
  }

  lemma JumpMove<S(!new)>(C: Setup<S>, s: Store<S>, k: nat, j: JumpArc)
    requires SetupOk(C) && StoreOk(C, s) && k < |s.pool| && s.pool[k].bucket < |C.jumps|
    requires j in C.jumps[s.pool[k].bucket] && !PastMid(C, s.pool[k].node.q) && s.pool[k].bucket !in C.fixed
    ensures j.jumpBucket < |C.G.buckets|
    ensures Move(C, s.pool[k].bucket, s.pool[k].node, j.arc, Boost(C.dir, s.pool[k].node.q, C.G.buckets[j.jumpBucket]))
  {
    var L := s.pool[k];
    assert LabelOk(C, s.pool, k) && JumpOk(C, L.bucket, j);
    var base := Boost(C.dir, L.node.q, C.G.buckets[j.jumpBucket]);
    assert Ahead(C.dir, L.node.q, base) && Ahead(C.dir, Corner(C.dir, C.G.buckets[j.jumpBucket]), base);
    assert JumpsOver(C, L.bucket, j.arc, j.jumpBucket);
  }

  /** What extend_label builds is a proper label of a component processed no earlier. */
  lemma ChildOk<S(!new)>(C: Setup<S>, s: Store<S>, k: nat, a: nat, base: Vec, L: Label<S>)
    requires SetupOk(C) && StoreOk(C, s) && k < |s.pool| && s.pool[k].bucket < |C.id|
    requires Move(C, s.pool[k].bucket, s.pool[k].node, a, base)
    requires Extend(C.P, C.dir, s.pool[k].node, a, base) == Some(L.node) && L.parent == k && L.arc == a
    ensures L.node.vertex < C.P.nVertices
    ensures L.bucket == BucketOf(C, L.node) ==>
              LabelOk(C, s.pool + [L], |s.pool|) && L.bucket < |C.id| && C.id[L.bucket] <= C.id[s.pool[k].bucket]
  {
    var b, n := s.pool[k].bucket, s.pool[k].node;
    assert LabelOk(C, s.pool, k);
    var c: nat :| Beyond(C.P, C.G, C.dir, b, c) && Ahead(C.dir, Corner(C.dir, C.G.buckets[c]), base);
    LandsLater(C.P, C.G, C.dir, C.id, C.count, b, c, n, a, base);
    BucketIndexFacts(C.P, C.G, L.node.vertex, L.node.q);
    var all := s.pool + [L];
    assert ExtendsFrom(C, all[k].bucket, all[k].node, a, base, L.node);
  }

  /** The child of n along a is covered, or waits in the buffer, or is of no use. */
  ghost predicate ChildPending<S(!new)>(C: Setup<S>, s: Store<S>, buf: seq<nat>, n: Node<S>, a: nat, base: Vec)
    requires SetupOk(C)
  {
    ChildDone(C, s, n, a, base) || InBuffer(C, s, buf, Extend(C.P, C.dir, n, a, base))
  }

  ghost predicate InBuffer<S(!new)>(C: Setup<S>, s: Store<S>, buf: seq<nat>, m: Option<Node<S>>)
    requires SetupOk(C)
  {
    m.Some? && exists i: nat :: i < |buf| && IsLabel(C, s, buf[i], m.value)
  }

  ghost predicate IsLabel<S(!new)>(C: Setup<S>, s: Store<S>, k: nat, m: Node<S>)
    requires SetupOk(C)
  {
    k < |s.pool| && s.pool[k].node == m && m.vertex < C.P.nVertices && s.pool[k].bucket == BucketOf(C, m)
  }

  lemma ChildDoneGrows<S(!new)>(C: Setup<S>, s: Store<S>, t: Store<S>, level: int, n: Node<S>, a: nat, base: Vec)
    requires SetupOk(C) && Grows(C, s, t, level) && ChildDone(C, s, n, a, base)
    ensures ChildDone(C, t, n, a, base)
  {
    hide Covered, Kept;
  }

  lemma PendingGrows<S(!new)>(C: Setup<S>, s: Store<S>, t: Store<S>, level: int, buf: seq<nat>, more: seq<nat>,
                              n: Node<S>, a: nat, base: Vec)
    requires SetupOk(C) && Grows(C, s, t, level) && ChildPending(C, s, buf, n, a, base)
    ensures ChildPending(C, t, buf + more, n, a, base)
  {
    if ChildDone(C, s, n, a, base) {
      ChildDoneGrows(C, s, t, level, n, a, base);
    } else {
      var m := Extend(C.P, C.dir, n, a, base);
      var i: nat :| i < |buf| && IsLabel(C, s, buf[i], m.value);
      assert SameLabel(s, t, buf[i]);
      var all := buf + more;
      assert all[i] == buf[i] && IsLabel(C, t, all[i], m.value);
    }
  }

  /** Once the buffer has been inserted nothing is pending. */
  lemma Flushed<S(!new)>(C: Setup<S>, s: Store<S>, t: Store<S>, level: int, buf: seq<nat>, n: Node<S>, a: nat,
                         base: Vec)
    requires SetupOk(C) && Grows(C, s, t, level) && ChildPending(C, s, buf, n, a, base)
    requires forall i: nat :: i < |buf| ==> Settles(C, t, buf[i])
    ensures ChildDone(C, t, n, a, base)
  {
    if ChildDone(C, s, n, a, base) {
      ChildDoneGrows(C, s, t, level, n, a, base);
    } else {
      var m := Extend(C.P, C.dir, n, a, base);
      var i: nat :| i < |buf| && IsLabel(C, s, buf[i], m.value);
      assert SameLabel(s, t, buf[i]) && Settles(C, t, buf[i]);
    }
  }

  // ----- All children of one label -----

  /** The pool has only been appended to and no flag `extended` of an old label has changed. */
  ghost predicate Appends<S>(s: Store<S>, t: Store<S>) {
    && |s.pool| <= |t.pool| && |s.extended| <= |t.extended|
    && (forall h: nat :: h < |s.extended| ==> t.extended[h] == s.extended[h])
    && (forall h: nat :: |s.extended| <= h < |t.extended| ==> !t.extended[h])
  }

  lemma AppendsTrans<S>(s: Store<S>, t: Store<S>, u: Store<S>)
    requires Appends(s, t) && Appends(t, u)
    ensures Appends(s, u)
  {
  }

  /** The children along the first i bucket arcs and the first j jump arcs of bucket b. */
  ghost predicate Pending<S(!new)>(C: Setup<S>, s: Store<S>, buf: seq<nat>, n: Node<S>, b: nat, i: nat, j: nat)
    requires SetupOk(C) && b < |C.arcs| && i <= |C.arcs[b]| && j <= |C.jumps[b]|
  {
    && (forall h: nat :: h < i ==> ChildPending(C, s, buf, n, C.arcs[b][h].arc, n.q))
    && (forall h: nat :: h < j ==> JumpPending(C, s, buf, n, C.jumps[b][h]))
  }

  ghost predicate JumpPending<S(!new)>(C: Setup<S>, s: Store<S>, buf: seq<nat>, n: Node<S>, e: JumpArc)
    requires SetupOk(C)
  {
    e.jumpBucket < |C.G.buckets| && ChildPending(C, s, buf, n, e.arc, Boost(C.dir, n.q, C.G.buckets[e.jumpBucket]))
  }

  /** buf became more: either it only gained labels or it was inserted as a whole. */
  ghost predicate BufferStep<S(!new)>(C: Setup<S>, t: Store<S>, buf: seq<nat>, more: seq<nat>) {
    buf <= more || (more == [] && forall i: nat :: i < |buf| ==> Settles(C, t, buf[i]))
  }

  lemma ChildPendingStep<S(!new)>(C: Setup<S>, s: Store<S>, t: Store<S>, level: int, buf: seq<nat>, more: seq<nat>,
                                  n: Node<S>, a: nat, base: Vec)
    requires SetupOk(C) && Grows(C, s, t, level) && BufferStep(C, t, buf, more)
    requires ChildPending(C, s, buf, n, a, base)
    ensures ChildPending(C, t, more, n, a, base)
  {
    hide ChildPending, Grows, Settles;
    if buf <= more {
      assert more == buf + more[|buf|..];
      PendingGrows(C, s, t, level, buf, more[|buf|..], n, a, base);
    } else {
      Flushed(C, s, t, level, buf, n, a, base);
      DoneIsPending(C, t, more, n, a, base);
    }
  }

  lemma DoneIsPending<S(!new)>(C: Setup<S>, s: Store<S>, buf: seq<nat>, n: Node<S>, a: nat, base: Vec)
    requires SetupOk(C)
    ensures ChildDone(C, s, n, a, base) ==> ChildPending(C, s, buf, n, a, base)
    ensures ChildPending(C, s, [], n, a, base) ==> ChildDone(C, s, n, a, base)
  {
  }

  lemma PendingStep<S(!new)>(C: Setup<S>, s: Store<S>, t: Store<S>, level: int, buf: seq<nat>, more: seq<nat>,
                             n: Node<S>, b: nat, i: nat, j: nat)
    requires SetupOk(C) && b < |C.arcs| && i <= |C.arcs[b]| && j <= |C.jumps[b]|
    requires Grows(C, s, t, level) && BufferStep(C, t, buf, more)
    requires Pending(C, s, buf, n, b, i, j)
    ensures Pending(C, t, more, n, b, i, j)
  {
    hide ChildPending, Grows, BufferStep;
    forall h: nat | h < i ensures ChildPending(C, t, more, n, C.arcs[b][h].arc, n.q) {
      ChildPendingStep(C, s, t, level, buf, more, n, C.arcs[b][h].arc, n.q);
    }
    forall h: nat | h < j ensures JumpPending(C, t, more, n, C.jumps[b][h]) {
      assert JumpPending(C, s, buf, n, C.jumps[b][h]);
      ChildPendingStep(C, s, t, level, buf, more, n, C.jumps[b][h].arc,
            Boost(C.dir, n.q, C.G.buckets[C.jumps[b][h].jumpBucket]));
    }
  }

  lemma NothingPending<S(!new)>(C: Setup<S>, s: Store<S>, k: nat, b: nat)
    requires SetupOk(C) && k < |s.pool| && b == s.pool[k].bucket && b < |C.arcs|
    requires Pending(C, s, [], s.pool[k].node, b, |C.arcs[b]|, |C.jumps[b]|)
    ensures Expanded(C, s, k)
  {
    hide ChildPending;
    var n := s.pool[k].node;
    forall e | e in C.arcs[b] ensures ChildDone(C, s, n, e.arc, n.q) {
      var h :| 0 <= h < |C.arcs[b]| && C.arcs[b][h] == e;
      DoneIsPending(C, s, [], n, e.arc, n.q);
    }
    forall j | j in C.jumps[b] && j.jumpBucket < |C.G.buckets|
      ensures ChildDone(C, s, n, j.arc, Boost(C.dir, n.q, C.G.buckets[j.jumpBucket]))
    {
      var h :| 0 <= h < |C.jumps[b]| && C.jumps[b][h] == j;
      assert JumpPending(C, s, [], n, C.jumps[b][h]);
      DoneIsPending(C, s, [], n, j.arc, Boost(C.dir, n.q, C.G.buckets[j.jumpBucket]));
    }
  }

  lemma LabelKept<S(!new)>(C: Setup<S>, s: Store<S>, t: Store<S>, level: int, k: nat)
    requires SetupOk(C) && StoreOk(C, s) && Grows(C, s, t, level) && k < |s.pool|
    ensures k < |t.pool| && t.pool[k] == s.pool[k] && s.pool[k].bucket < |C.G.buckets|
  {
    assert SameLabel(s, t, k) && LabelOk(C, s.pool, k);
  }

  lemma AfterChild<S(!new)>(C: Setup<S>, s: Store<S>, t: Store<S>, u: Store<S>, level: int, k: nat, buf: seq<nat>,
                            more: seq<nat>, i: nat, j: nat)
    requires SetupOk(C) && StoreOk(C, s) && StoreOk(C, t) && Grows(C, s, t, level) && Grows(C, t, u, level)
             && BufferStep(C, u, buf, more)
    requires k < |t.pool| && t.pool[k].bucket < |C.arcs| && i <= |C.arcs[t.pool[k].bucket]|
             && j <= |C.jumps[t.pool[k].bucket]|
    requires Pending(C, t, buf, t.pool[k].node, t.pool[k].bucket, i, j)
    ensures Grows(C, s, u, level) && k < |u.pool| && u.pool[k] == t.pool[k]
    ensures Pending(C, u, more, t.pool[k].node, t.pool[k].bucket, i, j)
  {
    hide Grows, ChildPending, JumpPending, BufferStep;
    RowMembers(C, s);
    GrowsTrans(C, s, t, u, level);
    LabelKept(C, t, u, level, k);
    PendingStep(C, t, u, level, buf, more, t.pool[k].node, t.pool[k].bucket, i, j);
  }

  lemma ArcPending<S(!new)>(C: Setup<S>, s: Store<S>, buf: seq<nat>, n: Node<S>, b: nat, i: nat)
    requires SetupOk(C) && b < |C.arcs| && i < |C.arcs[b]|
    requires Pending(C, s, buf, n, b, i, 0) && ChildPending(C, s, buf, n, C.arcs[b][i].arc, n.q)
    ensures Pending(C, s, buf, n, b, i + 1, 0)
  {
    hide ChildPending, JumpPending;
  }

  lemma JumpIsPending<S(!new)>(C: Setup<S>, s: Store<S>, buf: seq<nat>, n: Node<S>, e: JumpArc)
    requires SetupOk(C) && e.jumpBucket < |C.G.buckets|
    requires ChildPending(C, s, buf, n, e.arc, Boost(C.dir, n.q, C.G.buckets[e.jumpBucket]))
    ensures JumpPending(C, s, buf, n, e)
  {
  }

  lemma AllFlushed<S(!new)>(C: Setup<S>, s: Store<S>, buf: seq<nat>)
    requires forall i: nat :: i < |buf| ==> Settles(C, s, buf[i])
    ensures BufferStep(C, s, buf, [])
  {
  }

  lemma StartPending<S(!new)>(C: Setup<S>, s: Store<S>, k: nat, b: nat)
    requires SetupOk(C) && k < |s.pool| && b < |C.arcs|
    ensures Pending(C, s, [], s.pool[k].node, b, 0, 0)
  {
  }

  // ----- Dominance from other buckets of the vertex -----

  /** Bucket other is looked at and holds a label that dominates n. */
  ghost predicate AdjacentHit<S(!new)>(C: Setup<S>, s: Store<S>, cBest: seq<Bound>, b: nat, other: nat, n: Node<S>)
    requires |s.dominated| == |s.pool|
  {
    && other != b && other < |s.rows| && other < |cBest|
    && !cBest[other].Add(C.P.pack.minDominationCost).Above(n.cost)
    && DominatedIn(C.P, C.dir, s.pool, s.dominated, s.rows[other], n)
  }

  lemma AdjacentKiller<S(!new)>(C: Setup<S>, s: Store<S>, cBest: seq<Bound>, b: nat, other: nat, k: nat)
    requires SetupOk(C) && StoreOk(C, s) && k < |s.pool| && s.pool[k].bucket == b
    requires AdjacentHit(C, s, cBest, b, other, s.pool[k].node)
    ensures exists j: nat :: j != k && Alive(s, j) && Dominates(C.P, C.dir, s.pool[j].node, s.pool[k].node)
  {
    hide Dominates;
    var n := s.pool[k].node;
    var i: nat :| i < |s.rows[other].ids| && DominatesAt(C.P, C.dir, s.pool, s.dominated, s.rows[other], i, n);
    var j := s.rows[other].ids[i];
    assert RowIn(C, s, other) && j in s.rows[other].ids;
    assert Alive(s, j) && j != k;
  }

  lemma RowFacts<S(!new)>(C: Setup<S>, s: Store<S>, b: nat)
    requires SetupOk(C) && StoreOk(C, s) && b < |s.rows|
    ensures RowOk(C.P, s.pool, s.rows[b]) && Ascending(s.rows[b].costs) && Filters(C.P.pack)
            && |s.dominated| == |s.pool|
  {
    assert RowIn(C, s, b);
  }

  lemma CellsBefore<S(!new)>(P: Problem<S>, G: Grid, dir: Direction, b: nat, other: nat)
    requires ValidGrid(P, G) && Beyond(P, G, dir, other, b)
    ensures var v := G.buckets[b].vertex;
            && v < P.nVertices && G.ny[v] >= 1 && other == CellIndex(G, v, Kx(G, other), Ky(G, other))
            && 0 <= Kx(G, other) < G.nx[v] && 0 <= Ky(G, other) < G.ny[v]
            && 0 <= Kx(G, b) < G.nx[v] && 0 <= Ky(G, b) < G.ny[v]
            && (if dir.Forward? then Kx(G, other) <= Kx(G, b) && Ky(G, other) <= Ky(G, b)
                else Kx(G, b) <= Kx(G, other) && Ky(G, b) <= Ky(G, other))
  {
    BucketFacts(P, G, other);
    BucketFacts(P, G, b);
  }

  lemma CellIsBefore<S(!new)>(P: Problem<S>, G: Grid, dir: Direction, b: nat, kx: nat, ky: nat)
    requires ValidGrid(P, G) && b < |G.buckets|
    requires G.buckets[b].vertex < P.nVertices && G.ny[G.buckets[b].vertex] >= 1
    requires kx < G.nx[G.buckets[b].vertex] && ky < G.ny[G.buckets[b].vertex]
    requires if dir.Forward? then kx <= Kx(G, b) && ky <= Ky(G, b) else Kx(G, b) <= kx && Ky(G, b) <= ky
    ensures Beyond(P, G, dir, CellIndex(G, G.buckets[b].vertex, kx, ky), b)
  {
    BucketFacts(P, G, b);
    IndexFacts(P, G, G.buckets[b].vertex, kx, ky);
    assert BucketOk(P, G, P.nVertices, CellIndex(G, G.buckets[b].vertex, kx, ky)) && BucketOk(P, G, P.nVertices, b);
  }

  // ----- All labels -----

  /** Labels that were expanded stay expanded, and k has joined them. */
  lemma ExpandedKept<S(!new)>(C: Setup<S>, s: Store<S>, t: Store<S>, level: int)
    requires SetupOk(C) && StoreOk(C, s) && StoreOk(C, t) && Grows(C, s, t, level) && AllExpanded(C, s)
    requires Appends(s, t)
    ensures AllExpanded(C, t)
  {
    hide Covered, ChildDone, Expanded;
    forall k: nat | k < |t.pool| && t.extended[k] ensures LabelOk(C, t.pool, k) && Expanded(C, t, k) {
      assert k < |s.pool| && SameLabel(s, t, k);
      assert LabelOk(C, s.pool, k) && Expanded(C, s, k);
      ExpandedGrows(C, s, t, level, k);
    }
  }

  lemma ExpandedFlagged<S(!new)>(C: Setup<S>, s: Store<S>, t: Store<S>, level: int, k: nat)
    requires SetupOk(C) && StoreOk(C, s) && StoreOk(C, t) && Grows(C, s, t, level) && AllExpanded(C, s)
    requires k < |s.pool| && s.pool[k].bucket < |C.G.buckets| && Expanded(C, s, k)
    requires t.pool == s.pool && t.extended == s.extended[k := true]
    ensures AllExpanded(C, t)
  {
    hide Covered, ChildDone, Expanded;
    forall h: nat | h < |t.pool| && t.extended[h] ensures LabelOk(C, t.pool, h) && Expanded(C, t, h) {
      assert LabelOk(C, s.pool, h) && Expanded(C, s, h);
      ExpandedGrows(C, s, t, level, h);
    }
  }

  lemma ExpandedMarked<S(!new)>(C: Setup<S>, s: Store<S>, t: Store<S>, level: int)
    requires SetupOk(C) && StoreOk(C, s) && StoreOk(C, t) && Grows(C, s, t, level) && AllExpanded(C, s)
    requires t.pool == s.pool && t.extended == s.extended
    ensures AllExpanded(C, t)
  {
    hide Covered, ChildDone, Expanded;
    forall h: nat | h < |t.pool| && t.extended[h] ensures LabelOk(C, t.pool, h) && Expanded(C, t, h) {
      assert LabelOk(C, s.pool, h) && Expanded(C, s, h);
      ExpandedGrows(C, s, t, level, h);
    }
  }

  lemma HandledGrows<S(!new)>(C: Setup<S>, s: Store<S>, t: Store<S>, level: int, k: nat)
    requires Grows(C, s, t, level) && Handled(C, s, k)
    ensures Handled(C, t, k)
  {
    hide Covered;
    assert SameLabel(s, t, k);
  }

  // ----- One component -----

  lemma NotFixedSettled<S(!new)>(C: Setup<S>, s: Store<S>, b: nat)
    requires SetupOk(C) && StoreOk(C, s) && b < |s.rows|
    requires forall i: nat :: i < |s.rows[b].ids| ==> Handled(C, s, s.rows[b].ids[i])
    ensures Settled(C, s, b)
  {
    forall k: nat | k in s.rows[b].ids ensures Handled(C, s, k) {
      var i :| 0 <= i < |s.rows[b].ids| && s.rows[b].ids[i] == k;
    }
  }

  /** row is what compaction leaves of bucket b's row. */
  ghost predicate CompactOf<S>(C: Setup<S>, s: Store<S>, b: nat, row: Row)
    requires b < |s.rows|
  {
    && RowOk(C.P, s.pool, row) && Ascending(row.costs)
    && (forall k: nat :: k in row.ids <==> k in s.rows[b].ids && k < |s.dominated| && !s.dominated[k])
  }

  /** Compacting a row loses no label. */
  lemma Compacted<S(!new)>(C: Setup<S>, s: Store<S>, b: nat, row: Row, level: int)
    requires SetupOk(C) && StoreOk(C, s) && b < |s.rows| && C.id[b] <= level && CompactOf(C, s, b, row)
    ensures var t := s.(rows := s.rows[b := row]);
            && StoreOk(C, t) && Progress(C, s, t, level)
            && (AllExpanded(C, s) ==> AllExpanded(C, t))
            && (Settled(C, s, b) ==> Closed(C, t, b))
            && forall c: nat :: c < |s.rows| && c != b && Closed(C, s, c) ==> Closed(C, t, c)
  {
    hide Dominates, Expanded, TopoOrder, Grouped, Disposable, RowTidy;
    var t := s.(rows := s.rows[b := row]);
    forall c: nat | c < |t.rows| ensures RowIn(C, t, c) && RowTidy(C, t, c) {
      assert RowIn(C, s, c) && RowTidy(C, s, c);
      StillTidy(C, s, t, c);
    }
    forall i: nat | i < |t.pool| ensures LabelOk(C, t.pool, i) { assert LabelOk(C, s.pool, i); }
    forall k: nat | k < |s.pool| ensures SameLabel(s, t, k) {}
    forall c: nat | c < |s.rows| ensures RowKept(C, s, t, level, c) {}
    forall n: Node<S> | Covered(C, s, n) ensures Covered(C, t, n) {
      var k: nat :| Alive(s, k) && Dominates(C.P, C.dir, s.pool[k].node, n);
      assert LabelOk(C, s.pool, k);
      assert Alive(t, k);
    }
    if AllExpanded(C, s) {
      forall k: nat | k < |t.pool| && t.extended[k] ensures LabelOk(C, t.pool, k) && Expanded(C, t, k) {
        assert LabelOk(C, s.pool, k) && Expanded(C, s, k);
        ExpandedProgress(C, s, t, level, k);
      }
    }
    if Settled(C, s, b) {
      forall k: nat | k in t.rows[b].ids ensures Handled(C, t, k) && k < |t.dominated| && !t.dominated[k] {
        assert Handled(C, s, k);
      }
    }
    forall c: nat | c < |s.rows| && c != b && Closed(C, s, c) ensures Closed(C, t, c) {
      forall k: nat | k in t.rows[c].ids ensures Handled(C, t, k) { assert Handled(C, s, k); }
    }
  }

  lemma ExpandedProgress<S(!new)>(C: Setup<S>, s: Store<S>, t: Store<S>, level: int, k: nat)
    requires SetupOk(C) && Progress(C, s, t, level)
    requires k < |s.pool| && s.pool[k].bucket < |C.G.buckets| && Expanded(C, s, k)
    ensures t.pool[k] == s.pool[k] && Expanded(C, t, k)
  {
    hide Covered, Kept;
    assert SameLabel(s, t, k);
    var L := s.pool[k];
    forall e | e in C.arcs[L.bucket] ensures ChildDone(C, t, L.node, e.arc, L.node.q) {
      assert ChildDone(C, s, L.node, e.arc, L.node.q);
    }
    forall j | j in C.jumps[L.bucket] && j.jumpBucket < |C.G.buckets|
      ensures ChildDone(C, t, L.node, j.arc, Boost(C.dir, L.node.q, C.G.buckets[j.jumpBucket]))
    {
      assert ChildDone(C, s, L.node, j.arc, Boost(C.dir, L.node.q, C.G.buckets[j.jumpBucket]));
    }
  }

  lemma BucketBound<S(!new)>(C: Setup<S>, s: Store<S>, k: nat)
    requires SetupOk(C) && StoreOk(C, s) && k < |s.pool|
    ensures s.pool[k].bucket < |C.G.buckets| && |C.arcs| == |C.jumps| == |C.id| == |C.G.buckets|
  {
    assert LabelOk(C, s.pool, k);
  }

  lemma BucketMember<S(!new)>(C: Setup<S>, s: Store<S>, b: nat, i: nat)
    requires SetupOk(C) && StoreOk(C, s) && b < |s.rows| && i < |s.rows[b].ids|
    ensures s.rows[b].ids[i] < |s.pool| && s.pool[s.rows[b].ids[i]].bucket == b
  {
    assert RowIn(C, s, b) && s.rows[b].ids[i] in s.rows[b].ids;
  }

  lemma RowLonger<S(!new)>(C: Setup<S>, s: Store<S>, t: Store<S>, level: int, b: nat)
    requires Grows(C, s, t, level) && b < |s.rows|
    ensures b < |t.rows| && |s.rows[b].ids| <= |t.rows[b].ids|
  {
    hide Covered;
    assert RowGrows(C, s, t, level, b);
  }

  lemma SettledKept<S(!new)>(C: Setup<S>, s: Store<S>, t: Store<S>, level: int, b: nat)
    requires Grows(C, s, t, level) && b < |s.rows| && b < |t.rows| && t.rows[b] == s.rows[b] && Settled(C, s, b)
    ensures Settled(C, t, b)
  {
    hide Covered, Grows;
    forall k: nat | k in t.rows[b].ids ensures Handled(C, t, k) { HandledGrows(C, s, t, level, k); }
  }

  lemma SettledSame<S>(C: Setup<S>, s: Store<S>, t: Store<S>, b: nat)
    requires b < |s.rows| && b < |t.rows| && t.rows[b] == s.rows[b] && Settled(C, s, b)
    requires t.pool == s.pool && t.dominated == s.dominated && t.extended == s.extended
    ensures Settled(C, t, b)
  {
    forall k: nat | k in t.rows[b].ids ensures Handled(C, t, k) { assert Handled(C, s, k); }
  }

  lemma AllRowsOk<S(!new)>(C: Setup<S>, s: Store<S>)
    requires SetupOk(C) && StoreOk(C, s)
    ensures forall b: nat :: b < |s.rows| ==> RowOk(C.P, s.pool, s.rows[b])
  {
    forall b: nat | b < |s.rows| ensures RowOk(C.P, s.pool, s.rows[b]) { assert RowIn(C, s, b); }
  }

  // ----- A whole run -----

  /** The row that holds just the initial label. */
  function RootRow<S>(P: Problem<S>, n: Node<S>): Row { InsertRow(P, EMPTY_ROW, 0, 0, n) }

  lemma Rooted<S(!new)>(C: Setup<S>, s: Store<S>, n: Node<S>, b: nat)
    requires SetupOk(C) && s.pool == [] && |s.rows| == |C.id|
             && forall c: nat :: c < |s.rows| ==> s.rows[c] == EMPTY_ROW
    requires InitialNode(C.P, C.dir) == Some(n) && n.vertex < C.P.nVertices && b == BucketOf(C, n)
    ensures b < |s.rows|
    ensures var t := Store([Label(n, b, -1, 0)], [false], [false], s.rows[b := RootRow(C.P, n)]);
            StoreOk(C, t) && AllExpanded(C, t) && Covered(C, t, n)
  {
    hide TopoOrder, Grouped, Dominates;
    BucketIndexFacts(C.P, C.G, n.vertex, n.q);
    var L := Label(n, b, -1, 0);
    var t := Store([L], [false], [false], s.rows[b := RootRow(C.P, n)]);
    assert LabelOk(C, t.pool, 0);
    forall c: nat | c < |t.rows| ensures RowIn(C, t, c) {
      if c == b { assert Entry(C.P, t.pool, t.rows[b], 0); }
    }
    forall c: nat | c < |t.rows| ensures RowTidy(C, t, c) {}
    DominatesOrder(C.P, C.dir, n, n, n);
    assert t.rows[b].ids[0] == 0 && Alive(t, 0);
  }

  lemma ClosedAllKept<S(!new)>(C: Setup<S>, s: Store<S>, t: Store<S>, scc: nat)
    requires SetupOk(C) && StoreOk(C, s) && Progress(C, s, t, scc) && StoreOk(C, t)
    requires forall b: nat :: b < |s.rows| && C.id[b] > scc && b !in C.fixed ==> Closed(C, s, b)
    ensures forall b: nat :: b < |t.rows| && C.id[b] > scc && b !in C.fixed ==> Closed(C, t, b)
  {
    hide Covered, Progress, Closed;
    forall b: nat | b < |t.rows| && C.id[b] > scc && b !in C.fixed
      ensures Closed(C, t, b)
    {
      ClosedKept(C, s, t, scc, b);
    }
  }

  lemma CoverProgress<S(!new)>(C: Setup<S>, s: Store<S>, t: Store<S>, level: int, n: Node<S>)
    requires Progress(C, s, t, level) && Covered(C, s, n)
    ensures Covered(C, t, n)
  {
    hide Covered;
  }
}
