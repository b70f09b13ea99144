/** The state of one labeling run and what its steps keep (the data of bucket_graph.h's labeling loop). */
module LabelingSpec {
  import opened Types
  import opened Resources
  import opened Problems
  import opened Grids
  import opened BucketArcs
  import opened BucketOrder
  import opened LabelStores

  /**
   * What a run reads. mid is the midpoint (Inf in a mono-directional solve) and opposite holds
   * vertex_min_bw_c_best_ when forward labels past it are pruned against the backward ones.
   */
  datatype Setup<!S> = Setup(
    P: Problem<S>, G: Grid, dir: Direction,
    out: seq<seq<nat>>,
    arcs: seq<seq<BucketArc>>, jumps: seq<seq<JumpArc>>, fixed: set<nat>,
    id: seq<int>, count: nat, groups: seq<seq<nat>>,
    mid: Bound, opposite: Option<seq<Bound>>, theta: real)

  ghost predicate ArcOk<S>(C: Setup<S>, b: nat, e: BucketArc)
    requires Ready(C.P, C.G) && b < |C.G.buckets|
  {
    e in FullArcs(C.P, C.G, C.dir, b)
  }

  ghost predicate JumpOk<S>(C: Setup<S>, b: nat, j: JumpArc)
    requires Ready(C.P, C.G) && b < |C.G.buckets|
  {
    && j.jumpBucket < |C.G.buckets| && Beyond(C.P, C.G, C.dir, b, j.jumpBucket)
    && j.arc < C.P.nArcs && C.P.top.Tail(C.dir, j.arc) == C.G.buckets[b].vertex
  }

  /** The bucket graph fits the problem; its arcs may be fewer than it was built with. */
  ghost predicate Layout<S>(C: Setup<S>) {
    && Ready(C.P, C.G)
    && |C.arcs| == |C.jumps| == |C.id| == |C.G.buckets|
    && (forall b: nat, e: BucketArc :: b < |C.arcs| && e in C.arcs[b] ==> ArcOk(C, b, e))
    && (forall b: nat, j: JumpArc :: b < |C.jumps| && j in C.jumps[b] ==> JumpOk(C, b, j))
    && TopoOrder(C.P, C.G, C.dir, C.id, C.count) && Grouped(C.id, C.count, C.groups)
    && |C.out| == C.P.nVertices && (forall v: nat ::
      v < C.P.nVertices ==> C.out[v] == ArcsAt(C.P, Forward, v, C.P.nArcs))
    && (C.opposite.Some? ==> |C.opposite.value| == C.P.nVertices && C.dir.Forward?)
  }

  ghost predicate SetupOk<S(!new)>(C: Setup<S>) {
    Layout(C) && Disposable(C.P.pack, C.P.top)
  }

  function BucketOf<S>(C: Setup<S>, n: Node<S>): nat
    requires Ready(C.P, C.G) && n.vertex < C.P.nVertices
  {
    BucketIndex(C.P, C.G, n.vertex, n.q)
  }

  /** Labels on the far side of the midpoint are kept but not extended. */
  predicate PastMid<S>(C: Setup<S>, q: Vec) {
    if C.dir.Forward? then C.mid.Fin? && q.x > C.mid.val else C.mid.Inf? || q.x < C.mid.val
  }

  predicate OppositeThrough<S>(C: Setup<S>, n: Node<S>, a: nat)
    requires C.opposite.Some? && C.P.top.to(a) < |C.opposite.value|
  {
    C.opposite.value[C.P.top.to(a)].Add(n.cost + C.P.cost(a) + C.P.pack.minDominationCost).Less(Fin(C.theta))
  }

  /** Some backward label may complete n below theta, by cost alone. */
  ghost predicate HasOpposite<S>(C: Setup<S>, n: Node<S>)
    requires C.opposite.Some? && |C.opposite.value| == C.P.nVertices && WellFormed(C.P)
  {
    || n.vertex == C.P.top.source || n.vertex == C.P.top.sink
    || exists a: nat :: a < C.P.nArcs && C.P.top.from(a) == n.vertex && OppositeThrough(C, n, a)
  }

  /** The pre-filter on freshly extended labels. */
  ghost predicate Kept<S(!new)>(C: Setup<S>, n: Node<S>)
    requires SetupOk(C)
  {
    C.opposite.Some? && PastMid(C, n.q) ==> HasOpposite(C, n)
  }

  // ----- The store -----

  datatype Store<S> = Store(pool: seq<Label<S>>, dominated: seq<bool>, extended: seq<bool>, rows: seq<Row>)

  /**
   * A label is the initial one or was extended from an earlier label not past the midpoint, possibly over a jump arc.
   */
  ghost predicate Origin<S>(C: Setup<S>, pool: seq<Label<S>>, i: nat)
    requires i < |pool|
  {
    var L := pool[i];
    if L.parent < 0 then InitialNode(C.P, C.dir) == Some(L.node) else
      && L.parent < i
      && L.arc < C.P.nArcs && C.P.top.Tail(C.dir, L.arc) == pool[L.parent].node.vertex
      && !PastMid(C, pool[L.parent].node.q)
      && exists base :: ExtendsFrom(C, pool[L.parent].bucket, pool[L.parent].node, L.arc, base, L.node)
  }

  ghost predicate ExtendsFrom<S>(C: Setup<S>, b: nat, n: Node<S>, a: nat, base: Vec, m: Node<S>) {
    && Extend(C.P, C.dir, n, a, base) == Some(m)
    && Ahead(C.dir, n.q, base) && (NoJumps(C) ==> base == n.q)
    && Offers(C, b, a, n.q, base)
  }

  ghost predicate HasArc<S>(C: Setup<S>, b: nat, a: nat)
    requires b < |C.arcs|
  {
    exists e :: e in C.arcs[b] && e.arc == a
  }

  /** Open bucket b lets labels with resources q leave over arc a from base: over its bucket arc, or over a jump arc. */
  ghost predicate Offers<S>(C: Setup<S>, b: nat, a: nat, q: Vec, base: Vec) {
    && b !in C.fixed && b < |C.arcs| && b < |C.jumps|
    && (|| (base == q && HasArc(C, b, a))
        || (exists d: nat :: JumpsOver(C, b, a, d) && base == Boost(C.dir, q, C.G.buckets[d])))
  }

  ghost predicate JumpsOver<S>(C: Setup<S>, b: nat, a: nat, d: nat) {
    b < |C.jumps| && d < |C.G.buckets| && JumpArc(d, a) in C.jumps[b]
  }

  ghost predicate NoJumps<S>(C: Setup<S>) {
    forall b: nat :: b < |C.jumps| ==> C.jumps[b] == []
  }

  ghost predicate LabelOk<S>(C: Setup<S>, pool: seq<Label<S>>, i: nat)
    requires Ready(C.P, C.G) && i < |pool|
  {
    && pool[i].node.vertex < C.P.nVertices
    && Anchored(C.P, C.dir, pool[i].node.vertex, pool[i].node.q)
    && pool[i].bucket < |C.G.buckets| && pool[i].bucket == BucketOf(C, pool[i].node)
    && C.G.buckets[pool[i].bucket].vertex == pool[i].node.vertex
    && Origin(C, pool, i)
  }

  ghost predicate RowIn<S>(C: Setup<S>, s: Store<S>, b: nat)
    requires b < |s.rows|
  {
    && RowOk(C.P, s.pool, s.rows[b]) && Ascending(s.rows[b].costs)
    && (forall k: nat :: k in s.rows[b].ids ==> k < |s.pool| && s.pool[k].bucket == b)
    && (b in C.fixed ==> forall k: nat :: k in s.rows[b].ids && k < |s.pool| ==> s.pool[k].parent < 0)
  }

  ghost predicate StoreOk<S(!new)>(C: Setup<S>, s: Store<S>)
    requires SetupOk(C)
  {
    && |s.dominated| == |s.extended| == |s.pool| && |s.rows| == |C.G.buckets|
    && (forall i: nat :: i < |s.pool| ==> LabelOk(C, s.pool, i))
    && (forall b: nat :: b < |s.rows| ==> RowIn(C, s, b))
    && (forall b: nat :: b < |s.rows| ==> RowTidy(C, s, b))
  }

  /** Of two labels left in a row one dominates the other only at the same cost, and none was to be filtered. */
  ghost predicate RowTidy<S(!new)>(C: Setup<S>, s: Store<S>, b: nat)
    requires SetupOk(C) && b < |s.rows|
  {
    && (forall j: nat, k: nat :: j in s.rows[b].ids && k in s.rows[b].ids && j != k ==> NotBeaten(C, s, j, k))
    && (forall k: nat :: k in s.rows[b].ids ==> Admitted(C, s, k))
  }

  ghost predicate NotBeaten<S>(C: Setup<S>, s: Store<S>, j: nat, k: nat) {
    j < |s.pool| && k < |s.pool| && j < |s.dominated| && k < |s.dominated| && !s.dominated[j] && !s.dominated[k] ==>
      (Dominates(C.P, C.dir, s.pool[j].node, s.pool[k].node) ==> s.pool[j].node.cost == s.pool[k].node.cost)
  }

  /** The first label, or one that has passed the filter on labels past the midpoint. */
  ghost predicate Admitted<S(!new)>(C: Setup<S>, s: Store<S>, k: nat)
    requires SetupOk(C)
  {
    k < |s.pool| && (s.pool[k].parent < 0 || Kept(C, s.pool[k].node))
  }

  /** Rows that lose labels, of which more are marked, stay tidy. */
  lemma StillTidy<S(!new)>(C: Setup<S>, s: Store<S>, t: Store<S>, b: nat)
    requires SetupOk(C) && b < |s.rows| && b < |t.rows| && RowTidy(C, s, b)
    requires forall k: nat :: k in t.rows[b].ids ==> k in s.rows[b].ids
    requires forall k: nat :: k in s.rows[b].ids ==> k < |s.pool| <= |t.pool| && t.pool[k] == s.pool[k]
    requires forall k: nat :: k in s.rows[b].ids && k < |t.dominated| && !t.dominated[k] ==>
      k < |s.dominated| && !s.dominated[k]
    ensures RowTidy(C, t, b)
  {
    hide SetupOk, Kept, Dominates;
    forall j: nat, k: nat | j in t.rows[b].ids && k in t.rows[b].ids && j != k ensures NotBeaten(C, t, j, k) {
      assert NotBeaten(C, s, j, k);
    }
    forall k: nat | k in t.rows[b].ids ensures Admitted(C, t, k) { assert Admitted(C, s, k); }
  }

  ghost predicate Alive<S>(s: Store<S>, k: nat) {
    && k < |s.pool| && k < |s.dominated| && !s.dominated[k]
    && s.pool[k].bucket < |s.rows| && k in s.rows[s.pool[k].bucket].ids
  }

  /** Some stored undominated label is at least as good as n. */
  ghost predicate Covered<S>(C: Setup<S>, s: Store<S>, n: Node<S>) {
    exists k: nat :: Alive(s, k) && Dominates(C.P, C.dir, s.pool[k].node, n)
  }

  /** An allocated label that is not stored yet. */
  ghost predicate Fresh<S>(s: Store<S>, k: nat) {
    && k < |s.pool| && k < |s.dominated| && k < |s.extended| && !s.dominated[k] && !s.extended[k]
    && s.pool[k].bucket < |s.rows| && k !in s.rows[s.pool[k].bucket].ids
  }

  // ----- What a step keeps -----

  ghost predicate SameLabel<S>(s: Store<S>, t: Store<S>, k: nat)
    requires k < |s.pool| && k < |t.pool| && k < |s.dominated| && k < |t.dominated| && k < |s.extended|
             && k < |t.extended|
  {
    t.pool[k] == s.pool[k] && (s.dominated[k] ==> t.dominated[k]) && (s.extended[k] ==> t.extended[k])
  }

  /** Rows only gain labels, and rows of components processed earlier do not change at all. */
  ghost predicate RowGrows<S>(C: Setup<S>, s: Store<S>, t: Store<S>, level: int, b: nat)
    requires b < |s.rows| && b < |t.rows| && b < |C.id|
  {
    && |s.rows[b].ids| <= |t.rows[b].ids|
    && (forall k: nat :: k in s.rows[b].ids ==> k in t.rows[b].ids)
    && (C.id[b] > level ==> t.rows[b] == s.rows[b])
    && (C.id[b] > level ==>
          forall k: nat ::
              k in s.rows[b].ids && k < |s.dominated| && k < |t.dominated| ==> t.dominated[k] == s.dominated[k])
  }

  ghost predicate Sizes<S>(C: Setup<S>, s: Store<S>) {
    |s.dominated| == |s.extended| == |s.pool| && |s.rows| == |C.id|
  }

  /** No label is lost: what was covered stays covered, though its cover may be another label. */
  ghost predicate Grows<S(!new)>(C: Setup<S>, s: Store<S>, t: Store<S>, level: int) {
    && Sizes(C, s) && Sizes(C, t) && |s.pool| <= |t.pool|
    && (forall k: nat :: k < |s.pool| ==> SameLabel(s, t, k))
    && (forall b: nat :: b < |s.rows| ==> RowGrows(C, s, t, level, b))
    && CoverKept(C, s, t)
  }

  ghost predicate CoverKept<S(!new)>(C: Setup<S>, s: Store<S>, t: Store<S>) {
    forall n: Node<S> :: Covered(C, s, n) ==> Covered(C, t, n)
  }

  lemma GrowsSelf<S(!new)>(C: Setup<S>, s: Store<S>, level: int)
    requires Sizes(C, s)
    ensures Grows(C, s, s, level)
  {
  }

  lemma GrowsTrans<S(!new)>(C: Setup<S>, s: Store<S>, t: Store<S>, u: Store<S>, level: int)
    requires Grows(C, s, t, level) && Grows(C, t, u, level)
    requires forall b: nat, k: nat :: b < |s.rows| && k in s.rows[b].ids ==> k < |s.pool|
    ensures Grows(C, s, u, level)
  {
    hide Covered;
    forall k: nat | k < |s.pool| ensures SameLabel(s, u, k) {
      assert SameLabel(s, t, k) && SameLabel(t, u, k);
    }
    forall b: nat | b < |s.rows| ensures RowGrows(C, s, u, level, b) {
      assert RowGrows(C, s, t, level, b) && RowGrows(C, t, u, level, b);
    }
  }

  /** Extension of n along a is done once what it gives, if kept, is covered. */
  ghost predicate ChildDone<S(!new)>(C: Setup<S>, s: Store<S>, n: Node<S>, a: nat, base: Vec)
    requires SetupOk(C)
  {
    var m := Extend(C.P, C.dir, n, a, base);
    m.Some? ==>
      (m.value.vertex < C.P.nVertices && (BucketOf(C, m.value) !in C.fixed && Kept(C, m.value) ==>
              Covered(C, s, m.value)))
  }

  ghost predicate Expanded<S(!new)>(C: Setup<S>, s: Store<S>, k: nat)
    requires SetupOk(C) && k < |s.pool| && s.pool[k].bucket < |C.G.buckets|
  {
    var L := s.pool[k];
    && (forall e :: e in C.arcs[L.bucket] ==> ChildDone(C, s, L.node, e.arc, L.node.q))
    && (forall j :: j in C.jumps[L.bucket] && j.jumpBucket < |C.G.buckets| ==>
          ChildDone(C, s, L.node, j.arc, Boost(C.dir, L.node.q, C.G.buckets[j.jumpBucket])))
  }

  ghost predicate AllExpanded<S(!new)>(C: Setup<S>, s: Store<S>)
    requires SetupOk(C) && StoreOk(C, s)
  {
    forall k: nat :: k < |s.pool| && s.extended[k] ==> LabelOk(C, s.pool, k) && Expanded(C, s, k)
  }

  lemma ExpandedGrows<S(!new)>(C: Setup<S>, s: Store<S>, t: Store<S>, level: int, k: nat)
    requires SetupOk(C) && Grows(C, s, t, level)
    requires k < |s.pool| && s.pool[k].bucket < |C.G.buckets| && Expanded(C, s, k)
    ensures t.pool[k] == s.pool[k] && Expanded(C, t, k)
  {
    hide Covered, Kept;
    assert SameLabel(s, t, k);
    var L := s.pool[k];
    forall e | e in C.arcs[L.bucket] ensures ChildDone(C, t, L.node, e.arc, L.node.q) {
      assert ChildDone(C, s, L.node, e.arc, L.node.q);
    }
    forall j | j in C.jumps[L.bucket] && j.jumpBucket < |C.G.buckets|
      ensures ChildDone(C, t, L.node, j.arc, Boost(C.dir, L.node.q, C.G.buckets[j.jumpBucket]))
    {
      assert ChildDone(C, s, L.node, j.arc, Boost(C.dir, L.node.q, C.G.buckets[j.jumpBucket]));
    }
  }

  /** Label k needs no extension any more. */
  ghost predicate Handled<S>(C: Setup<S>, s: Store<S>, k: nat) {
    && k < |s.pool| && k < |s.dominated| && k < |s.extended|
    && (s.dominated[k] || s.extended[k] || PastMid(C, s.pool[k].node.q))
  }

  /** Nothing in bucket b is left to extend. */
  ghost predicate Settled<S>(C: Setup<S>, s: Store<S>, b: nat)
    requires b < |s.rows|
  {
    forall k: nat :: k in s.rows[b].ids ==> Handled(C, s, k)
  }

  /** A settled bucket that has been compacted. */
  ghost predicate Closed<S>(C: Setup<S>, s: Store<S>, b: nat)
    requires b < |s.rows|
  {
    Settled(C, s, b) && forall k: nat :: k in s.rows[b].ids ==> k < |s.dominated| && !s.dominated[k]
  }

  /** What growth and compaction have in common. */
  ghost predicate Progress<S(!new)>(C: Setup<S>, s: Store<S>, t: Store<S>, level: int) {
    && Sizes(C, s) && Sizes(C, t) && |s.pool| <= |t.pool|
    && (forall k: nat :: k < |s.pool| ==> SameLabel(s, t, k))
    && (forall b: nat :: b < |s.rows| ==> RowKept(C, s, t, level, b))
    && CoverKept(C, s, t)
  }

  ghost predicate RowKept<S>(C: Setup<S>, s: Store<S>, t: Store<S>, level: int, b: nat)
    requires b < |s.rows| && b < |t.rows| && b < |C.id|
  {
    && (C.id[b] > level ==> t.rows[b] == s.rows[b])
    && (C.id[b] > level ==>
          forall k: nat ::
              k in s.rows[b].ids && k < |s.dominated| && k < |t.dominated| ==> t.dominated[k] == s.dominated[k])
  }

  lemma GrowsProgress<S(!new)>(C: Setup<S>, s: Store<S>, t: Store<S>, level: int)
    requires Grows(C, s, t, level)
    ensures Progress(C, s, t, level)
  {
    hide Covered;
    forall b: nat | b < |s.rows| ensures RowKept(C, s, t, level, b) { assert RowGrows(C, s, t, level, b); }
  }

  lemma ProgressTrans<S(!new)>(C: Setup<S>, s: Store<S>, t: Store<S>, u: Store<S>, low: int, level: int)
    requires Progress(C, s, t, level) && Progress(C, t, u, low) && low <= level
    requires forall b: nat, k: nat :: b < |s.rows| && k in s.rows[b].ids ==> k < |s.pool|
    ensures Progress(C, s, u, level)
  {
    hide Covered;
    forall k: nat | k < |s.pool| ensures SameLabel(s, u, k) {
      assert SameLabel(s, t, k) && SameLabel(t, u, k);
    }
    forall b: nat | b < |s.rows| ensures RowKept(C, s, u, level, b) {
      assert RowKept(C, s, t, level, b) && RowKept(C, t, u, low, b);
    }
  }

  lemma ClosedKept<S(!new)>(C: Setup<S>, s: Store<S>, t: Store<S>, level: int, b: nat)
    requires Progress(C, s, t, level) && b < |s.rows| && C.id[b] > level && Closed(C, s, b)
    ensures Closed(C, t, b)
  {
    hide Covered;
    assert RowKept(C, s, t, level, b);
    forall k: nat | k in t.rows[b].ids
      ensures Handled(C, t, k) && !t.dominated[k]
    {
      assert Handled(C, s, k) && SameLabel(s, t, k);
    }
  }

  // ----- The steps -----

  ghost predicate KilledInRow<S(!new)>(C: Setup<S>, s: Store<S>, b: nat, row: Row, marked: seq<bool>, k: nat)
    requires k < |s.pool| && |marked| == |s.pool|
  {
    s.pool[k].bucket == b
    && exists j: nat ::
    j in row.ids && j < |s.pool| && !marked[j] && Dominates(C.P, C.dir, s.pool[j].node, s.pool[k].node)
  }

  /** Row b is replaced by a longer one, with kills that the new row accounts for. */
  ghost predicate Replaces<S(!new)>(C: Setup<S>, s: Store<S>, t: Store<S>, b: nat, row: Row, marked: seq<bool>)
    requires SetupOk(C) && StoreOk(C, s) && b < |s.rows|
  {
    && |marked| == |s.pool| && t == s.(rows := s.rows[b := row], dominated := marked)
    && RowOk(C.P, s.pool, row) && Ascending(row.costs)
    && (forall k: nat :: k in row.ids ==> k < |s.pool| && s.pool[k].bucket == b)
    && |s.rows[b].ids| <= |row.ids| && (forall k: nat :: k in s.rows[b].ids ==> k in row.ids)
    && (forall k: nat :: k < |s.pool| && s.dominated[k] ==> marked[k])
    && (forall k: nat :: k < |s.pool| && marked[k] && !s.dominated[k] ==> KilledInRow(C, s, b, row, marked, k))
  }

  lemma ReplacedOk<S(!new)>(C: Setup<S>, s: Store<S>, t: Store<S>, b: nat, row: Row, marked: seq<bool>)
    requires SetupOk(C) && StoreOk(C, s) && b < |s.rows| && Replaces(C, s, t, b, row, marked)
    requires b !in C.fixed && RowTidy(C, t, b)
    ensures StoreOk(C, t)
  {
    hide Dominates, RowTidy, KilledInRow, Disposable;
    forall c: nat | c < |t.rows| ensures RowIn(C, t, c) { assert RowIn(C, s, c); }
    forall c: nat | c < |t.rows| ensures RowTidy(C, t, c) {
      assert RowIn(C, s, c) && RowTidy(C, s, c);
      if c != b { StillTidy(C, s, t, c); }
    }
    forall i: nat | i < |t.pool| ensures LabelOk(C, t.pool, i) { assert LabelOk(C, s.pool, i); }
  }

  lemma ReplacedCovers<S(!new)>(C: Setup<S>, s: Store<S>, t: Store<S>, b: nat, row: Row, marked: seq<bool>)
    requires SetupOk(C) && StoreOk(C, s) && b < |s.rows| && Replaces(C, s, t, b, row, marked)
    ensures CoverKept(C, s, t)
  {
    hide Dominates, RowTidy, RowIn, TopoOrder, Grouped;
    forall n: Node<S> | Covered(C, s, n) ensures Covered(C, t, n) {
      var k: nat :| Alive(s, k) && Dominates(C.P, C.dir, s.pool[k].node, n);
      assert LabelOk(C, s.pool, k);
      if marked[k] {
        assert KilledInRow(C, s, b, row, marked, k);
        var j: nat :| j in row.ids && j < |s.pool| && !marked[j]
            && Dominates(C.P, C.dir, s.pool[j].node, s.pool[k].node);
        DominatesOrder(C.P, C.dir, s.pool[j].node, s.pool[k].node, n);
        assert Alive(t, j);
      } else {
        assert Alive(t, k);
      }
    }
  }

  /** Replacing one row, with kills that the new row accounts for, loses no label. */
  lemma RowReplaced<S(!new)>(C: Setup<S>, s: Store<S>, t: Store<S>, b: nat, row: Row, marked: seq<bool>, level: int)
    requires SetupOk(C) && StoreOk(C, s) && b < |s.rows| && Replaces(C, s, t, b, row, marked)
    requires C.id[b] <= level && b !in C.fixed && RowTidy(C, t, b)
    ensures StoreOk(C, t) && Grows(C, s, t, level)
  {
    ReplacedOk(C, s, t, b, row, marked);
    ReplacedCovers(C, s, t, b, row, marked);
    hide Dominates, RowTidy, LabelOk, Disposable, TopoOrder, Grouped;
    forall k: nat | k < |s.pool| ensures SameLabel(s, t, k) {}
    forall c: nat | c < |s.rows| ensures RowGrows(C, s, t, level, c) {
      assert RowIn(C, s, c);
      if C.id[c] > level {
        forall k: nat | k in s.rows[c].ids && k < |s.dominated| && k < |t.dominated|
          ensures t.dominated[k] == s.dominated[k]
        {
          assert !(marked[k] && !s.dominated[k]);
        }
      }
    }
  }

  /** extend_label allocates its label in the pool. */
  lemma Allocated<S(!new)>(C: Setup<S>, s: Store<S>, t: Store<S>, L: Label<S>, level: int)
    requires SetupOk(C) && StoreOk(C, s)
    requires t == s.(pool := s.pool + [L], dominated := s.dominated + [false], extended := s.extended + [false])
    requires LabelOk(C, t.pool, |s.pool|)
    ensures StoreOk(C, t) && Grows(C, s, t, level) && Fresh(t, |s.pool|)
  {
    hide Dominates, RowTidy;
    forall i: nat | i < |t.pool| ensures LabelOk(C, t.pool, i) {
      if i < |s.pool| { assert LabelOk(C, s.pool, i); OriginGrows(C, s.pool, t.pool, i); }
    }
    forall b: nat | b < |t.rows| ensures RowIn(C, t, b) && RowTidy(C, t, b) {
      assert RowIn(C, s, b) && RowTidy(C, s, b);
      RowOkGrows(C.P, s.pool, [L], s.rows[b]);
      StillTidy(C, s, t, b);
    }
    forall k: nat | k < |s.pool| ensures SameLabel(s, t, k) {}
    forall b: nat | b < |s.rows| ensures RowGrows(C, s, t, level, b) { assert RowIn(C, s, b); }
    forall n: Node<S> | Covered(C, s, n) ensures Covered(C, t, n) {
      var k: nat :| Alive(s, k) && Dominates(C.P, C.dir, s.pool[k].node, n);
      assert Alive(t, k);
    }
    assert RowIn(C, s, L.bucket);
  }

  lemma OriginGrows<S>(C: Setup<S>, pool: seq<Label<S>>, more: seq<Label<S>>, i: nat)
    requires Ready(C.P, C.G) && i < |pool| <= |more| && LabelOk(C, pool, i)
    requires forall k: nat :: k < |pool| ==> more[k] == pool[k]
    ensures LabelOk(C, more, i)
  {
    var L := pool[i];
    if L.parent >= 0 {
      var base :| ExtendsFrom(C, pool[L.parent].bucket, pool[L.parent].node, L.arc, base, L.node);
      assert ExtendsFrom(C, more[L.parent].bucket, more[L.parent].node, L.arc, base, L.node);
    }
  }

  /** Label k is flagged as extended, or marked because another one dominates it. */
  ghost predicate Flags<S(!new)>(C: Setup<S>, s: Store<S>, t: Store<S>, k: nat)
    requires k < |s.pool| && |s.dominated| == |s.extended| == |s.pool|
  {
    || t == s.(extended := s.extended[k := true])
    || (t == s.(dominated := s.dominated[k := true]) && exists j: nat ::
        j != k && Alive(s, j) && Dominates(C.P, C.dir, s.pool[j].node, s.pool[k].node))
  }

  lemma FlagsCover<S(!new)>(C: Setup<S>, s: Store<S>, t: Store<S>, k: nat)
    requires SetupOk(C) && StoreOk(C, s) && k < |s.pool| && Flags(C, s, t, k)
    ensures CoverKept(C, s, t)
  {
    hide Dominates, RowIn, RowTidy, LabelOk, TopoOrder, Grouped;
    forall n: Node<S> | Covered(C, s, n) ensures Covered(C, t, n) {
      var i: nat :| Alive(s, i) && Dominates(C.P, C.dir, s.pool[i].node, n);
      if Alive(t, i) {
      } else {
        var j: nat :| j != k && Alive(s, j) && Dominates(C.P, C.dir, s.pool[j].node, s.pool[k].node);
        DominatesOrder(C.P, C.dir, s.pool[j].node, s.pool[k].node, n);
        assert Alive(t, j);
      }
    }
  }

  /** Marking a label that another one dominates, or flagging it as extended, loses no label. */
  lemma Flagged<S(!new)>(C: Setup<S>, s: Store<S>, t: Store<S>, k: nat, level: int)
    requires SetupOk(C) && StoreOk(C, s) && k < |s.pool|
    requires s.pool[k].bucket < |C.id| && C.id[s.pool[k].bucket] <= level
    requires Flags(C, s, t, k)
    ensures StoreOk(C, t) && Grows(C, s, t, level)
  {
    FlagsCover(C, s, t, k);
    hide Dominates, RowTidy, CoverKept, TopoOrder, Grouped, Disposable;
    forall b: nat | b < |t.rows| ensures RowIn(C, t, b) && RowTidy(C, t, b) {
      assert RowIn(C, s, b) && RowTidy(C, s, b);
      StillTidy(C, s, t, b);
    }
    forall i: nat | i < |t.pool| ensures LabelOk(C, t.pool, i) { assert LabelOk(C, s.pool, i); }
    forall i: nat | i < |s.pool| ensures SameLabel(s, t, i) {}
    forall b: nat | b < |s.rows| ensures RowGrows(C, s, t, level, b) { assert RowIn(C, s, b); }
  }
}
