/** The state of an enumeration run: each stored label a different partial path (the Enumerate stage). */
module EnumerationSpec {
  import opened Types
  import opened Problems
  import opened Grids
  import opened BucketArcs
  import opened BucketOrder
  import opened Sorting
  import opened LabelStores
  import opened LabelingSpec
  import opened Exactness

  /** Rows are not sorted and nothing is dominated, so a row is the list of its labels. */
  datatype Trail<S> = Trail(pool: seq<Label<S>>, extended: seq<bool>, lists: seq<seq<nat>>)

  ghost predicate Listed<S>(T: Trail<S>, k: nat) {
    k < |T.pool| && k < |T.extended| && T.pool[k].bucket < |T.lists| && k in T.lists[T.pool[k].bucket]
  }

  ghost predicate ListOk<S>(T: Trail<S>, b: nat)
    requires b < |T.lists|
  {
    Distinct(T.lists[b]) && forall k: nat :: k in T.lists[b] ==> k < |T.pool| && T.pool[k].bucket == b
  }

  ghost predicate TrailOk<S>(C: Setup<S>, T: Trail<S>)
    requires Layout(C)
  {
    && |T.extended| == |T.pool| && |T.lists| == |C.G.buckets| && PoolOk(C, T.pool)
    && (forall b: nat :: b < |T.lists| ==> ListOk(T, b))
  }

  /** What enumeration needs of the instance. */
  ghost predicate Countable<S>(C: Setup<S>) {
    && Layout(C) && Unlimited(C) && JumpsLack(C)
    && (forall b: nat :: b < |C.arcs| ==> ArcOrder(C.arcs[b]))
  }

  /** The completion bound of bucket b leaves nothing below theta for n. */
  predicate Pruned<S>(C: Setup<S>, comp: seq<Bound>, b: nat, n: Node<S>) {
    b < |comp| && comp[b].Fin? && n.cost + comp[b].val >= C.theta
  }

  // ----- Each partial path once -----

  /** Label k has come over an arc of its parent's bucket, not over a jump arc. */
  ghost predicate OverArc<S>(C: Setup<S>, T: Trail<S>, k: nat) {
    && k < |T.pool| && 0 <= T.pool[k].parent < |T.pool|
    && T.pool[T.pool[k].parent].bucket < |C.arcs| && HasArc(C, T.pool[T.pool[k].parent].bucket, T.pool[k].arc)
  }

  ghost predicate Undelayed<S>(C: Setup<S>, T: Trail<S>, k: nat)
    requires k < |T.pool| && 0 <= T.pool[k].parent < |T.pool|
  {
    var n := T.pool[T.pool[k].parent].node;
    && (OverArc(C, T, k) ==> Extend(C.P, C.dir, n, T.pool[k].arc, n.q) == Some(T.pool[k].node))
    && (NoJumps(C) ==> OverArc(C, T, k))
  }

  /**
   * A stored label is the root, or child of a stored label that has been, or is just being, extended. Its bound has
   * not pruned it, nor its parent.
   */
  ghost predicate LinkOk<S>(C: Setup<S>, comp: seq<Bound>, T: Trail<S>, cur: int, k: nat)
    requires k < |T.pool|
  {
    var p := T.pool[k].parent;
    if p < 0 then k == 0 else
      && Listed(T, p) && (T.extended[p] || p == cur) && Undelayed(C, T, k)
      && !Pruned(C, comp, T.pool[p].bucket, T.pool[p].node) && !Pruned(C, comp, T.pool[k].bucket, T.pool[k].node)
  }

  ghost predicate Twins<S>(C: Setup<S>, T: Trail<S>, j: nat, k: nat)
    requires j < |T.pool| && k < |T.pool|
  {
    T.pool[j].parent >= 0 && T.pool[j].parent == T.pool[k].parent && T.pool[j].arc == T.pool[k].arc && OverArc(C, T, k)
  }

  ghost predicate Linked<S>(C: Setup<S>, comp: seq<Bound>, T: Trail<S>, cur: int) {
    && (forall k: nat :: Listed(T, k) ==> LinkOk(C, comp, T, cur, k))
    && (forall j: nat, k: nat :: Listed(T, j) && Listed(T, k) && Twins(C, T, j, k) ==> j == k)
  }

  /**
   * Either there are no jump arcs, or p begins a walk of cost at most theta, continued by t, and what it needs is
   * there.
   */
  ghost predicate Straight<S(!new)>(C: Setup<S>, p: seq<nat>, t: seq<nat>)
    requires Layout(C)
  {
    NoJumps(C) || (KeepsAll(C) && InitialNode(C.P, C.dir).Some?
          && Finishes(C, C.theta, InitialNode(C.P, C.dir).value, p + t))
  }

  lemma ParentTrace<S>(T: Trail<S>, k: nat)
    requires k < |T.pool| && 0 <= T.pool[k].parent < k
    ensures Trace(T.pool, k) == Trace(T.pool, T.pool[k].parent) + [T.pool[k].arc]
    ensures var s := Trace(T.pool, T.pool[k].parent);
            Trace(T.pool, k) != [] && s == Trace(T.pool, k)[..|Trace(T.pool, k)| - 1]
            && T.pool[k].arc == Trace(T.pool, k)[|s|]
  {
  }

  lemma WalkGoesOn<S(!new)>(C: Setup<S>, s: seq<nat>, n: Node<S>, a: nat, t: seq<nat>)
    requires Layout(C) && KeepsAll(C) && TrueLabel(C, s, n, n)
             && Finishes(C, C.theta, InitialNode(C.P, C.dir).value, s + [a] + t)
    ensures n.vertex < C.P.nVertices && BucketOf(C, n) < |C.arcs| && HasArc(C, BucketOf(C, n), a)
  {
    hide Layout, Step;
    assert s + [a] + t == s + ([a] + t);
    RunAppend(C.P, C.dir, InitialNode(C.P, C.dir).value, s, [a] + t);
    assert Finishes(C, C.theta, n, [a] + t);
    assert KeepsStep(C, n, [a] + t);
    assert ([a] + t)[0] == a;
  }

  lemma {:induction false} StraightParent<S(!new)>(C: Setup<S>, T: Trail<S>, k: nat, t: seq<nat>)
    requires Layout(C) && k < |T.pool| && 0 <= T.pool[k].parent < k && Straight(C, Trace(T.pool, k), t)
    ensures Straight(C, Trace(T.pool, T.pool[k].parent), [T.pool[k].arc] + t)
  {
    hide Layout, NoJumps, KeepsAll, Run;
    ParentTrace(T, k);
    assert Trace(T.pool, k) + t == Trace(T.pool, T.pool[k].parent) + ([T.pool[k].arc] + t);
  }

  /** The next arc of such a walk is an arc of the bucket, so a stored label that took it has come over no jump arc. */
  lemma StraightArc<S(!new)>(C: Setup<S>, comp: seq<Bound>, T: Trail<S>, cur: int, k: nat, t: seq<nat>)
    requires Layout(C) && PoolOk(C, T.pool) && Linked(C, comp, T, cur) && Listed(T, k) && 0 <= T.pool[k].parent < k
    requires Straight(C, Trace(T.pool, k), t)
    requires var p := T.pool[k].parent; TrueLabel(C, Trace(T.pool, p), T.pool[p].node, T.pool[p].node)
    ensures OverArc(C, T, k)
  {
    hide TopoOrder, Grouped, FullArcs, Extend, GridUpTo, NoJumps, Pruned, KeepsAll, Run, BucketIndex, HasArc,
         TrueLabel, Finishes;
    ParentTrace(T, k);
    assert LinkOk(C, comp, T, cur, k) && LabelOk(C, T.pool, T.pool[k].parent);
    if !NoJumps(C) { WalkGoesOn(C, Trace(T.pool, T.pool[k].parent), T.pool[T.pool[k].parent].node, T.pool[k].arc, t); }
  }

  /**
   * Two stored labels never stand for the same partial path, if it can be finished in time or there are no jump
   * arcs; and the one that stands for it has spent nothing without need.
   */
  lemma {:induction false} TraceUnique<S(!new)>(C: Setup<S>, comp: seq<Bound>, T: Trail<S>, cur: int, j: nat, k: nat,
                                                t: seq<nat>)
    requires Layout(C) && PoolOk(C, T.pool) && Linked(C, comp, T, cur)
    requires Listed(T, j) && Listed(T, k) && Trace(T.pool, j) == Trace(T.pool, k) && Straight(C, Trace(T.pool, j), t)
    ensures j == k && TrueLabel(C, Trace(T.pool, j), T.pool[j].node, T.pool[j].node)
    decreases j
  {
    hide TopoOrder, Grouped, FullArcs, Extend, GridUpTo, Straight, Pruned, TrueLabel, HasArc, BucketIndex;
    assert LinkOk(C, comp, T, cur, j) && LinkOk(C, comp, T, cur, k);
    assert LabelOk(C, T.pool, j) && LabelOk(C, T.pool, k);
    var p, q := T.pool[j].parent, T.pool[k].parent;
    if p >= 0 { ParentTrace(T, j); }
    if q >= 0 { ParentTrace(T, k); }
    if p >= 0 && q >= 0 {
      StraightParent(C, T, j, t);
      TraceUnique(C, comp, T, cur, p, q, [T.pool[j].arc] + t);
      StraightArc(C, comp, T, cur, k, t);
      StraightArc(C, comp, T, cur, j, t);
      assert Twins(C, T, j, k);
      TrueStep(C, Trace(T.pool, p), T.pool[p].node, T.pool[p].node, T.pool[j].arc, T.pool[p].node.q);
    } else {
      RootTrue(C, T.pool[j].node);
    }
  }

  lemma RootTrue<S>(C: Setup<S>, n: Node<S>)
    requires InitialNode(C.P, C.dir) == Some(n)
    ensures TrueLabel(C, [], n, n)
  {
  }

  // ----- Every child -----

  ghost predicate HasChild<S>(T: Trail<S>, k: nat, a: nat, m: Node<S>) {
    exists j: nat :: Listed(T, j) && T.pool[j].parent == k && T.pool[j].arc == a && T.pool[j].node == m
  }

  /** The child of k along a, taken from base, is stored unless its bucket is fixed or its bound prunes it. */
  ghost predicate ChildServed<S>(C: Setup<S>, comp: seq<Bound>, T: Trail<S>, k: nat, a: nat, base: Vec)
    requires Layout(C) && k < |T.pool|
  {
    var m := Extend(C.P, C.dir, T.pool[k].node, a, base);
    m.Some? ==>
      (m.value.vertex < C.P.nVertices
       && (BucketOf(C, m.value) in C.fixed || Pruned(C, comp, BucketOf(C, m.value), m.value)
         || HasChild(T, k, a, m.value)))
  }

  ghost predicate ArcServed<S>(C: Setup<S>, comp: seq<Bound>, T: Trail<S>, k: nat, e: BucketArc)
    requires Layout(C) && k < |T.pool|
  {
    ChildServed(C, comp, T, k, e.arc, T.pool[k].node.q)
  }

  ghost predicate JumpServed<S>(C: Setup<S>, comp: seq<Bound>, T: Trail<S>, k: nat, j: JumpArc)
    requires Layout(C) && k < |T.pool|
  {
    j.jumpBucket < |C.G.buckets| ==>
          ChildServed(C, comp, T, k, j.arc, Boost(C.dir, T.pool[k].node.q, C.G.buckets[j.jumpBucket]))
  }

  ghost predicate Served<S>(C: Setup<S>, comp: seq<Bound>, T: Trail<S>, k: nat)
    requires Layout(C) && k < |T.pool| && T.pool[k].bucket < |C.arcs|
  {
    var b := T.pool[k].bucket;
    || Pruned(C, comp, b, T.pool[k].node)
    || ((forall e :: e in C.arcs[b] ==> ArcServed(C, comp, T, k, e))
      && (forall j :: j in C.jumps[b] ==> JumpServed(C, comp, T, k, j)))
  }

  ghost predicate AllServed<S>(C: Setup<S>, comp: seq<Bound>, T: Trail<S>)
    requires Layout(C)
  {
    forall k: nat :: Listed(T, k) && T.extended[k] ==> T.pool[k].bucket < |C.arcs| && Served(C, comp, T, k)
  }

  // ----- Growth -----

  /** Labels are only appended, and only to buckets of components not processed earlier. */
  ghost predicate Longer<S>(C: Setup<S>, T: Trail<S>, U: Trail<S>, level: int) {
    && |T.pool| <= |U.pool| && |T.extended| <= |U.extended| && |T.lists| == |U.lists| == |C.id|
    && (forall k: nat :: k < |T.pool| ==> U.pool[k] == T.pool[k])
    && (forall k: nat :: k < |T.extended| && T.extended[k] ==> U.extended[k])
    && (forall b: nat :: b < |T.lists| ==> T.lists[b] <= U.lists[b])
    && (forall b: nat :: b < |T.lists| && C.id[b] > level ==> U.lists[b] == T.lists[b])
  }

  lemma LongerSelf<S>(C: Setup<S>, T: Trail<S>, level: int)
    requires |T.lists| == |C.id|
    ensures Longer(C, T, T, level)
  {
  }

  lemma LongerTrans<S>(C: Setup<S>, T: Trail<S>, U: Trail<S>, V: Trail<S>, level: int)
    requires Longer(C, T, U, level) && Longer(C, U, V, level)
    ensures Longer(C, T, V, level)
  {
  }

  lemma ListedStill<S>(C: Setup<S>, T: Trail<S>, U: Trail<S>, level: int, k: nat)
    requires Longer(C, T, U, level) && Listed(T, k)
    ensures Listed(U, k)
  {
    var b := T.pool[k].bucket;
    assert T.lists[b] <= U.lists[b];
    var i :| 0 <= i < |T.lists[b]| && T.lists[b][i] == k;
    assert U.lists[b][i] == k;
  }

  lemma ServedStill<S>(C: Setup<S>, comp: seq<Bound>, T: Trail<S>, U: Trail<S>, level: int, k: nat, a: nat, base: Vec)
    requires Layout(C) && Longer(C, T, U, level) && k < |T.pool| && ChildServed(C, comp, T, k, a, base)
    ensures k < |U.pool| && U.pool[k] == T.pool[k] && ChildServed(C, comp, U, k, a, base)
  {
    hide Layout, Extend, Pruned;
    var m := Extend(C.P, C.dir, T.pool[k].node, a, base);
    if m.Some? && HasChild(T, k, a, m.value) {
      var j: nat :| Listed(T, j) && T.pool[j].parent == k && T.pool[j].arc == a && T.pool[j].node == m.value;
      ListedStill(C, T, U, level, j);
    }
  }

  /** Appending labels that are not extended yet leaves all extended ones served. */
  lemma AllServedStill<S>(C: Setup<S>, comp: seq<Bound>, T: Trail<S>, U: Trail<S>, level: int)
    requires Layout(C) && Longer(C, T, U, level) && AllServed(C, comp, T) && |T.extended| == |T.pool|
    requires forall k: nat :: Listed(U, k) && U.extended[k] ==> Listed(T, k) && T.extended[k]
    ensures AllServed(C, comp, U)
  {
    hide Layout, Extend, Pruned, ChildServed;
    forall k: nat | Listed(U, k) && U.extended[k] ensures U.pool[k].bucket < |C.arcs| && Served(C, comp, U, k) {
      assert Served(C, comp, T, k);
      ServedStillAll(C, comp, T, U, level, k);
    }
  }

  lemma ServedStillAll<S>(C: Setup<S>, comp: seq<Bound>, T: Trail<S>, U: Trail<S>, level: int, k: nat)
    requires Layout(C) && Longer(C, T, U, level) && k < |T.pool| && T.pool[k].bucket < |C.arcs| && Served(C, comp, T, k)
    ensures k < |U.pool| && U.pool[k] == T.pool[k] && Served(C, comp, U, k)
  {
    hide Extend, ChildServed, TopoOrder, Grouped, FullArcs, GridUpTo;
    var b, q := T.pool[k].bucket, T.pool[k].node.q;
    if !Pruned(C, comp, b, T.pool[k].node) {
      forall e | e in C.arcs[b] ensures ArcServed(C, comp, U, k, e) {
        assert ArcServed(C, comp, T, k, e);
        ServedStill(C, comp, T, U, level, k, e.arc, q);
      }
      forall j | j in C.jumps[b] ensures JumpServed(C, comp, U, k, j) { JumpServedStill(C, comp, T, U, level, k, j); }
    }
  }

  lemma JumpServedStill<S>(C: Setup<S>, comp: seq<Bound>, T: Trail<S>, U: Trail<S>, level: int, k: nat, j: JumpArc)
    requires Layout(C) && Longer(C, T, U, level) && k < |T.pool| && JumpServed(C, comp, T, k, j)
    ensures k < |U.pool| && U.pool[k] == T.pool[k] && JumpServed(C, comp, U, k, j)
  {
    hide Layout, Extend, ChildServed;
    if j.jumpBucket < |C.G.buckets| {
      ServedStill(C, comp, T, U, level, k, j.arc, Boost(C.dir, T.pool[k].node.q, C.G.buckets[j.jumpBucket]));
    }
  }

  // ----- Extending one label -----

  /** Label k of bucket b is being extended; the first i arcs and the first h jump arcs are done. */
  ghost predicate Extending<S>(C: Setup<S>, comp: seq<Bound>, T: Trail<S>, k: nat, b: nat, i: nat, h: nat)
    requires Countable(C) && b < |C.arcs|
  {
    && TrailOk(C, T) && Linked(C, comp, T, k) && AllServed(C, comp, T)
    && Listed(T, k) && !T.extended[k] && T.pool[k].bucket == b && i <= |C.arcs[b]| && h <= |C.jumps[b]|
    && !Pruned(C, comp, b, T.pool[k].node) && b !in C.fixed
    && (forall j: nat ::
      Listed(T, j) && T.pool[j].parent == k ==> Lacks(C, b, T.pool[j].arc) || AmongArcs(C.arcs[b], i, T.pool[j].arc))
    && (forall g: nat :: g < i ==> ArcServed(C, comp, T, k, C.arcs[b][g]))
    && (forall g: nat :: g < h ==> JumpServed(C, comp, T, k, C.jumps[b][g]))
  }

  lemma StartExtending<S>(C: Setup<S>, comp: seq<Bound>, T: Trail<S>, k: nat, b: nat)
    requires Countable(C) && b < |C.arcs| && TrailOk(C, T) && Linked(C, comp, T, -1) && AllServed(C, comp, T)
    requires Listed(T, k) && !T.extended[k] && T.pool[k].bucket == b && !Pruned(C, comp, b, T.pool[k].node)
    requires b !in C.fixed
    ensures Extending(C, comp, T, k, b, 0, 0)
  {
    hide PoolOk, ChildServed, Served, Undelayed, OverArc, TopoOrder, Grouped, FullArcs, GridUpTo, JumpsLack, Pruned;
    forall j: nat | Listed(T, j)
      ensures LinkOk(C, comp, T, k, j) && T.pool[j].parent != k
    {
      assert LinkOk(C, comp, T, -1, j);
    }
  }

  /** A move from bucket b over arc a, taken from base: along an arc of b, or over a jump arc to a bucket behind b. */
  ghost predicate FromBucket<S>(C: Setup<S>, b: nat, n: Node<S>, a: nat, base: Vec)
    requires Layout(C)
  {
    && a < C.P.nArcs && C.P.top.Tail(C.dir, a) == n.vertex && Ahead(C.dir, n.q, base) && (NoJumps(C) ==> base == n.q)
    && Offers(C, b, a, n.q, base)
    && exists c: nat :: Beyond(C.P, C.G, C.dir, b, c) && Ahead(C.dir, Corner(C.dir, C.G.buckets[c]), base)
  }

  lemma ArcMove<S>(C: Setup<S>, pool: seq<Label<S>>, k: nat, e: BucketArc)
    requires Layout(C) && PoolOk(C, pool) && k < |pool| && pool[k].bucket < |C.arcs| && e in C.arcs[pool[k].bucket]
    requires pool[k].bucket !in C.fixed
    ensures FromBucket(C, pool[k].bucket, pool[k].node, e.arc, pool[k].node.q) && HasArc(C, pool[k].bucket, e.arc)
  {
    hide TopoOrder, Grouped, Extend, FullArcs;
    var b, n := pool[k].bucket, pool[k].node;
    assert LabelOk(C, pool, k) && ArcOk(C, b, e);
    FullArcsMembers(C.P, C.G, C.dir, b);
    BucketHolds(C.P, C.G, C.dir, n.vertex, n.q);
    BeyondOrder(C.P, C.G, C.dir, b, b, b);
  }

  lemma JumpArcMove<S>(C: Setup<S>, pool: seq<Label<S>>, k: nat, j: JumpArc)
    requires Layout(C) && PoolOk(C, pool) && k < |pool| && pool[k].bucket < |C.jumps| && j in C.jumps[pool[k].bucket]
    requires pool[k].bucket !in C.fixed
    ensures j.jumpBucket < |C.G.buckets|
    ensures FromBucket(C, pool[k].bucket, pool[k].node, j.arc, Boost(C.dir, pool[k].node.q, C.G.buckets[j.jumpBucket]))
  {
    hide TopoOrder, Grouped, Extend, FullArcs, BucketOk, RangeOk;
    var b, n := pool[k].bucket, pool[k].node;
    assert LabelOk(C, pool, k) && JumpOk(C, b, j);
    var base := Boost(C.dir, n.q, C.G.buckets[j.jumpBucket]);
    assert Ahead(C.dir, n.q, base) && Ahead(C.dir, Corner(C.dir, C.G.buckets[j.jumpBucket]), base);
    assert JumpsOver(C, b, j.arc, j.jumpBucket);
  }

  lemma EnumChild<S>(C: Setup<S>, pool: seq<Label<S>>, k: nat, a: nat, base: Vec, L: Label<S>)
    requires Layout(C) && Unlimited(C) && PoolOk(C, pool) && k < |pool| && pool[k].bucket < |C.arcs|
    requires FromBucket(C, pool[k].bucket, pool[k].node, a, base)
    requires Extend(C.P, C.dir, pool[k].node, a, base) == Some(L.node) && L.parent == k && L.arc == a
    ensures L.node.vertex < C.P.nVertices
    ensures L.bucket == BucketOf(C, L.node) ==>
              PoolOk(C, pool + [L]) && L.bucket < |C.id| && C.id[L.bucket] <= C.id[pool[k].bucket]
  {
    hide TopoOrder, Grouped, Extend, FullArcs, GridUpTo, BucketOk;
    var b, n := pool[k].bucket, pool[k].node;
    assert LabelOk(C, pool, k);
    var c: nat :| Beyond(C.P, C.G, C.dir, b, c) && Ahead(C.dir, Corner(C.dir, C.G.buckets[c]), base);
    LandsLater(C.P, C.G, C.dir, C.id, C.count, b, c, n, a, base);
    BucketIndexFacts(C.P, C.G, L.node.vertex, L.node.q);
    var all := pool + [L];
    assert ExtendsFrom(C, all[k].bucket, all[k].node, a, base, L.node);
    if L.bucket == BucketOf(C, L.node) {
      forall i: nat | i < |all| ensures LabelOk(C, all, i) {
        if i < |pool| { assert LabelOk(C, pool, i); OriginGrows(C, pool, all, i); }
      }
    }
  }

  /** The trail after the child L has been allocated and, if kept, listed. */
  function WithChild<S>(T: Trail<S>, L: Label<S>, kept: bool): Trail<S> {
    Trail(T.pool + [L], T.extended + [false],
          if kept && L.bucket < |T.lists| then T.lists[L.bucket := T.lists[L.bucket] + [|T.pool|]] else T.lists)
  }

  lemma WithChildListed<S>(C: Setup<S>, T: Trail<S>, L: Label<S>, kept: bool)
    requires Layout(C) && TrailOk(C, T) && L.bucket < |T.lists|
    ensures var U := WithChild(T, L, kept);
            && (forall j: nat :: Listed(U, j) <==> Listed(T, j) || (kept && j == |T.pool|))
            && (forall b: nat :: b < |U.lists| ==> ListOk(U, b))
  {
    hide PoolOk, Layout;
    var U := WithChild(T, L, kept);
    var n := |T.pool|;
    forall b: nat | b < |U.lists| ensures ListOk(U, b) {
      assert ListOk(T, b);
      if kept && b == L.bucket { assert n !in T.lists[b]; }
    }
    forall j: nat ensures Listed(U, j) <==> Listed(T, j) || (kept && j == n) {
      if j < n && T.pool[j].bucket < |T.lists| {
        assert j in U.lists[T.pool[j].bucket] <==> j in T.lists[T.pool[j].bucket];
      }
      if j == n { assert ListOk(T, L.bucket); assert n !in T.lists[L.bucket]; }
    }
  }

  /** What allocating and storing one child does, whichever way it came. */
  lemma ChildKept<S>(C: Setup<S>, comp: seq<Bound>, T: Trail<S>, k: nat, b: nat, i: nat, h: nat, base: Vec,
                     L: Label<S>, kept: bool)
    requires Countable(C) && b < |C.arcs| && Extending(C, comp, T, k, b, i, h)
    requires FromBucket(C, b, T.pool[k].node, L.arc, base)
             && Extend(C.P, C.dir, T.pool[k].node, L.arc, base) == Some(L.node) && L.parent == k
    requires L.node.vertex < C.P.nVertices && L.bucket == BucketOf(C, L.node)
    requires kept <==> !(L.bucket in C.fixed || Pruned(C, comp, L.bucket, L.node))
    requires HasArc(C, b, L.arc) ==> base == T.pool[k].node.q
    requires NoJumps(C) ==> HasArc(C, b, L.arc)
    requires forall j: nat :: Listed(T, j) && T.pool[j].parent == k && HasArc(C, b, L.arc) ==> T.pool[j].arc != L.arc
    ensures var U := WithChild(T, L, kept);
            && TrailOk(C, U) && Linked(C, comp, U, k) && AllServed(C, comp, U) && Longer(C, T, U, C.id[b])
            && Listed(U, k) && ChildServed(C, comp, U, k, L.arc, base)
            && forall j: nat ::
            Listed(U, j) && U.pool[j].parent == k ==> (Listed(T, j) && T.pool[j] == U.pool[j]) || U.pool[j] == L
  {
    hide Layout, PoolOk, Served, Extend, TrailOk, Pruned, NoJumps, JumpsLack, ArcOrder, FromBucket, HasArc,
         BucketIndex, ChildServed, Linked;
    var U := WithChild(T, L, kept);
    TrailSizes(C, T);
    EnumChild(C, T.pool, k, L.arc, base, L);
    WithChildListed(C, T, L, kept);
    TrailOf(C, U);
    assert Longer(C, T, U, C.id[b]);
    AllServedStill(C, comp, T, U, C.id[b]);
    ChildLinked(C, comp, T, k, b, L, kept);
    ChildIsServed(C, comp, T, k, base, L, kept);
  }

  lemma ChildLinked<S>(C: Setup<S>, comp: seq<Bound>, T: Trail<S>, k: nat, b: nat, L: Label<S>, kept: bool)
    requires Layout(C) && TrailOk(C, T) && Linked(C, comp, T, k) && Listed(T, k) && T.pool[k].bucket == b < |C.arcs|
    requires L.parent == k && L.bucket < |T.lists| && !Pruned(C, comp, b, T.pool[k].node)
             && (kept ==> !Pruned(C, comp, L.bucket, L.node))
    requires HasArc(C, b, L.arc) ==> Extend(C.P, C.dir, T.pool[k].node, L.arc, T.pool[k].node.q) == Some(L.node)
    requires NoJumps(C) ==> HasArc(C, b, L.arc)
    requires forall j: nat :: Listed(T, j) && T.pool[j].parent == k && HasArc(C, b, L.arc) ==> T.pool[j].arc != L.arc
    ensures Linked(C, comp, WithChild(T, L, kept), k)
  {
    hide Layout, PoolOk, Extend, Pruned, NoJumps, HasArc, TrailOk;
    var U, n := WithChild(T, L, kept), |T.pool|;
    WithChildListed(C, T, L, kept);
    forall j: nat | Listed(U, j) ensures LinkOk(C, comp, U, k, j) {
      if j != n {
        assert LinkOk(C, comp, T, k, j);
        if T.pool[j].parent >= 0 { assert Undelayed(C, T, j) && (OverArc(C, U, j) <==> OverArc(C, T, j)); }
      }
    }
    forall x: nat, y: nat | Listed(U, x) && Listed(U, y) && Twins(C, U, x, y) ensures x == y {
      if x != n && y != n {
        assert LinkOk(C, comp, T, k, y);
        assert Twins(C, T, x, y);
      }
    }
  }

  lemma ChildIsServed<S>(C: Setup<S>, comp: seq<Bound>, T: Trail<S>, k: nat, base: Vec, L: Label<S>, kept: bool)
    requires Layout(C) && TrailOk(C, T) && k < |T.pool| && L.parent == k && L.bucket < |T.lists|
    requires Extend(C.P, C.dir, T.pool[k].node, L.arc, base) == Some(L.node) && L.node.vertex < C.P.nVertices
             && L.bucket == BucketOf(C, L.node)
    requires kept <==> !(L.bucket in C.fixed || Pruned(C, comp, L.bucket, L.node))
    ensures ChildServed(C, comp, WithChild(T, L, kept), k, L.arc, base)
  {
    hide Layout, Extend, TrailOk, Pruned;
    var U, n := WithChild(T, L, kept), |T.pool|;
    WithChildListed(C, T, L, kept);
    if kept { assert Listed(U, n) && U.pool[n] == L; assert HasChild(U, k, L.arc, L.node); }
  }

  /** One arc done. */
  lemma ChildStep<S>(C: Setup<S>, comp: seq<Bound>, T: Trail<S>, k: nat, b: nat, i: nat, L: Label<S>, kept: bool)
    requires Countable(C) && b < |C.arcs| && i < |C.arcs[b]| && Extending(C, comp, T, k, b, i, 0)
    requires Extend(C.P, C.dir, T.pool[k].node, C.arcs[b][i].arc, T.pool[k].node.q) == Some(L.node) && L.parent == k
             && L.arc == C.arcs[b][i].arc
    requires L.node.vertex < C.P.nVertices && L.bucket == BucketOf(C, L.node)
    requires kept <==> !(L.bucket in C.fixed || Pruned(C, comp, L.bucket, L.node))
    ensures var U := WithChild(T, L, kept); Extending(C, comp, U, k, b, i + 1, 0) && Longer(C, T, U, C.id[b])
  {
    hide Layout, PoolOk, Served, Extend, TrailOk, Pruned, NoJumps, Linked, FromBucket, BucketIndex, ChildServed,
         JumpsLack, AllServed;
    var U, e := WithChild(T, L, kept), C.arcs[b][i];
    TrailSizes(C, T);
    ArcMove(C, T.pool, k, e);
    forall j: nat | Listed(T, j) && T.pool[j].parent == k
      ensures T.pool[j].arc != L.arc
    {
      NoTwin(C, comp, T, k, b, i, j);
    }
    ChildKept(C, comp, T, k, b, i, 0, T.pool[k].node.q, L, kept);
    forall j: nat | Listed(U, j) && U.pool[j].parent == k
      ensures Lacks(C, b, U.pool[j].arc) || AmongArcs(C.arcs[b], i + 1, U.pool[j].arc)
    {
      MoreArcs(C.arcs[b], i, U.pool[j].arc);
    }
    forall g: nat | g < i + 1 ensures ArcServed(C, comp, U, k, C.arcs[b][g]) {
      if g < i {
        assert ArcServed(C, comp, T, k, C.arcs[b][g]);
        ServedStill(C, comp, T, U, C.id[b], k, C.arcs[b][g].arc, T.pool[k].node.q);
      }
    }
  }

  /** One jump arc done. */
  lemma JumpStep<S>(C: Setup<S>, comp: seq<Bound>, T: Trail<S>, k: nat, b: nat, h: nat, base: Vec, L: Label<S>,
                    kept: bool)
    requires Countable(C) && b < |C.arcs| == |C.jumps| && h < |C.jumps[b]|
             && Extending(C, comp, T, k, b, |C.arcs[b]|, h)
    requires C.jumps[b][h].jumpBucket < |C.G.buckets| && base == Boost(C.dir, T.pool[k].node.q,
               C.G.buckets[C.jumps[b][h].jumpBucket])
    requires Extend(C.P, C.dir, T.pool[k].node, C.jumps[b][h].arc, base) == Some(L.node) && L.parent == k
             && L.arc == C.jumps[b][h].arc
    requires L.node.vertex < C.P.nVertices && L.bucket == BucketOf(C, L.node)
    requires kept <==> !(L.bucket in C.fixed || Pruned(C, comp, L.bucket, L.node))
    ensures var U := WithChild(T, L, kept); Extending(C, comp, U, k, b, |C.arcs[b]|, h + 1) && Longer(C, T, U, C.id[b])
  {
    hide Layout, PoolOk, Served, Extend, TrailOk, Pruned, Linked, FromBucket, BucketIndex, ChildServed, AllServed,
         HasArc;
    var U, e, q := WithChild(T, L, kept), C.jumps[b][h], T.pool[k].node.q;
    TrailSizes(C, T);
    assert e in C.jumps[b];
    assert Lacks(C, b, e.arc);
    JumpArcMove(C, T.pool, k, e);
    ChildKept(C, comp, T, k, b, |C.arcs[b]|, h, base, L, kept);
    forall g: nat | g < |C.arcs[b]| ensures ArcServed(C, comp, U, k, C.arcs[b][g]) {
      assert ArcServed(C, comp, T, k, C.arcs[b][g]);
      ServedStill(C, comp, T, U, C.id[b], k, C.arcs[b][g].arc, q);
    }
    forall g: nat | g < h + 1 ensures JumpServed(C, comp, U, k, C.jumps[b][g]) {
      if g < h { JumpServedStill(C, comp, T, U, C.id[b], k, C.jumps[b][g]); }
    }
  }

  lemma TrailSizes<S>(C: Setup<S>, T: Trail<S>)
    requires Layout(C) && TrailOk(C, T)
    ensures |T.extended| == |T.pool| && |T.lists| == |C.G.buckets| == |C.id| == |C.arcs| && PoolOk(C, T.pool)
    ensures forall b: nat :: b < |T.lists| ==> ListOk(T, b)
  {
  }

  lemma TrailOf<S>(C: Setup<S>, T: Trail<S>)
    requires Layout(C) && |T.extended| == |T.pool| && |T.lists| == |C.G.buckets| && PoolOk(C, T.pool)
    requires forall b: nat :: b < |T.lists| ==> ListOk(T, b)
    ensures TrailOk(C, T)
  {
  }

  /** No stored child of k has come over arc i before. */
  lemma NoTwin<S>(C: Setup<S>, comp: seq<Bound>, T: Trail<S>, k: nat, b: nat, i: nat, j: nat)
    requires Countable(C) && b < |C.arcs| && i < |C.arcs[b]| && Extending(C, comp, T, k, b, i, 0) && Listed(T, j)
             && T.pool[j].parent == k
    ensures T.pool[j].arc != C.arcs[b][i].arc
  {
    hide Layout, PoolOk, AllServed, ChildServed, Linked, JumpsLack, TrailOk, Pruned;
    if AmongArcs(C.arcs[b], i, T.pool[j].arc) {
      var h: nat :| h < i && h < |C.arcs[b]| && C.arcs[b][h].arc == T.pool[j].arc;
      assert ArcOrder(C.arcs[b]);
    } else {
      assert C.arcs[b][i] in C.arcs[b];
      assert Lacks(C, b, T.pool[j].arc);
    }
  }

  lemma NoChildStep<S>(C: Setup<S>, comp: seq<Bound>, T: Trail<S>, k: nat, b: nat, i: nat)
    requires Countable(C) && b < |C.arcs| && i < |C.arcs[b]| && Extending(C, comp, T, k, b, i, 0)
    requires Extend(C.P, C.dir, T.pool[k].node, C.arcs[b][i].arc, T.pool[k].node.q).None?
    ensures Extending(C, comp, T, k, b, i + 1, 0)
  {
    hide Layout, PoolOk, AllServed, Linked, JumpsLack, TrailOk, Pruned, Extend;
    forall j: nat | Listed(T, j) && T.pool[j].parent == k
      ensures Lacks(C, b, T.pool[j].arc) || AmongArcs(C.arcs[b], i + 1, T.pool[j].arc)
    {
      MoreArcs(C.arcs[b], i, T.pool[j].arc);
    }
  }

  lemma NoJumpStep<S>(C: Setup<S>, comp: seq<Bound>, T: Trail<S>, k: nat, b: nat, h: nat)
    requires Countable(C) && b < |C.arcs| == |C.jumps| && h < |C.jumps[b]|
             && Extending(C, comp, T, k, b, |C.arcs[b]|, h)
    requires C.jumps[b][h].jumpBucket < |C.G.buckets|
    requires Extend(C.P, C.dir, T.pool[k].node, C.jumps[b][h].arc,
               Boost(C.dir, T.pool[k].node.q, C.G.buckets[C.jumps[b][h].jumpBucket])).None?
    ensures Extending(C, comp, T, k, b, |C.arcs[b]|, h + 1)
  {
    hide Layout, PoolOk, AllServed, Linked, JumpsLack, TrailOk, Pruned, Extend;
    assert JumpServed(C, comp, T, k, C.jumps[b][h]);
  }

  /** Setting the flag of a served label. */
  lemma FlagStep<S>(C: Setup<S>, comp: seq<Bound>, T: Trail<S>, k: nat, cur: int, level: int)
    requires Layout(C) && TrailOk(C, T) && Linked(C, comp, T, cur) && (cur == k || cur == -1) && AllServed(C, comp, T)
    requires Listed(T, k) && T.pool[k].bucket < |C.arcs| && Served(C, comp, T, k)
    ensures var U := T.(extended := T.extended[k := true]);
            TrailOk(C, U) && Linked(C, comp, U, -1) && AllServed(C, comp, U) && Longer(C, T, U, level)
  {
    hide PoolOk, Served, TopoOrder, Grouped, FullArcs, Pruned, HasArc, Extend, NoJumps;
    var U := T.(extended := T.extended[k := true]);
    assert forall j: nat :: Listed(U, j) <==> Listed(T, j);
    forall b: nat | b < |U.lists| ensures ListOk(U, b) { assert ListOk(T, b); }
    forall j: nat | Listed(U, j) ensures LinkOk(C, comp, U, -1, j) {
      assert LinkOk(C, comp, T, cur, j);
      if T.pool[j].parent >= 0 { assert Undelayed(C, T, j) && (OverArc(C, U, j) <==> OverArc(C, T, j)); }
    }
    forall x: nat, y: nat | Listed(U, x) && Listed(U, y) && Twins(C, U, x, y)
      ensures x == y
    {
      assert Twins(C, T, x, y);
    }
    forall j: nat | Listed(U, j) && U.extended[j] ensures U.pool[j].bucket < |C.arcs| && Served(C, comp, U, j) {
      assert Served(C, comp, T, j);
      ServedStillAll(C, comp, T, U, level, j);
    }
  }

  lemma AllArcsServed<S>(C: Setup<S>, comp: seq<Bound>, T: Trail<S>, k: nat, b: nat)
    requires Countable(C) && b < |C.arcs| == |C.jumps| && Extending(C, comp, T, k, b, |C.arcs[b]|, |C.jumps[b]|)
    ensures Served(C, comp, T, k)
  {
    hide Layout, PoolOk, AllServed, Linked, JumpsLack, TrailOk, ArcServed, JumpServed, Pruned;
    forall e | e in C.arcs[b] ensures ArcServed(C, comp, T, k, e) {
      var h :| 0 <= h < |C.arcs[b]| && C.arcs[b][h] == e;
    }
    forall j | j in C.jumps[b] ensures JumpServed(C, comp, T, k, j) {
      var h :| 0 <= h < |C.jumps[b]| && C.jumps[b][h] == j;
    }
  }

  // ----- Every walk is enumerated -----

  /** Below theta, t leads from n to the end vertex. */
  ghost predicate Completes<S>(C: Setup<S>, n: Node<S>, t: seq<nat>) {
    Finishes(C, C.theta, n, t) && Run(C.P, C.dir, n, t).value.cost < C.theta
  }

  ghost predicate Passes<S>(C: Setup<S>, comp: seq<Bound>, n: Node<S>)
    requires Layout(C)
  {
    n.vertex < C.P.nVertices && !Pruned(C, comp, BucketOf(C, n), n)
  }

  /** The bounds prune no label on the way of a walk below theta. */
  ghost predicate PrunesNothing<S(!new)>(C: Setup<S>, comp: seq<Bound>)
    requires Layout(C)
  {
    forall p, n, t :: TrueLabel(C, p, n, n) && Completes(C, n, t) && (p != [] || t != []) ==> Passes(C, comp, n)
  }

  ghost predicate KeepsAll<S(!new)>(C: Setup<S>)
    requires Layout(C)
  {
    forall p, n, t :: TrueLabel(C, p, n, n) && Finishes(C, C.theta, n, t) ==> KeepsStep(C, n, t)
  }

  ghost predicate KeepsStep<S>(C: Setup<S>, n: Node<S>, t: seq<nat>)
    requires Layout(C)
  {
    && n.vertex < C.P.nVertices && BucketOf(C, n) < |C.arcs| && BucketOf(C, n) !in C.fixed
    && (t != [] ==> HasArc(C, BucketOf(C, n), t[0]))
  }

  /** What a run that has not been cut short ends with. */
  ghost predicate Enumerated<S>(C: Setup<S>, comp: seq<Bound>, T: Trail<S>) {
    && Countable(C) && TrailOk(C, T) && Linked(C, comp, T, -1) && AllServed(C, comp, T)
    && (forall k: nat :: Listed(T, k) && T.pool[k].bucket !in C.fixed ==> T.extended[k])
    && (InitialNode(C.P, C.dir).Some? ==> Listed(T, 0) && T.pool[0].parent < 0)
  }

  ghost predicate Present<S>(T: Trail<S>, p: seq<nat>, n: Node<S>) {
    exists k: nat :: Listed(T, k) && Trace(T.pool, k) == p && T.pool[k].node == n
  }

  lemma RootPresent<S>(C: Setup<S>, comp: seq<Bound>, T: Trail<S>)
    requires Enumerated(C, comp, T) && InitialNode(C.P, C.dir).Some?
    ensures Present(T, [], InitialNode(C.P, C.dir).value)
  {
    hide TopoOrder, Grouped, FullArcs, AllServed, Linked, JumpsLack;
    assert LabelOk(C, T.pool, 0);
    assert Trace(T.pool, 0) == [];
  }

  /** The step from a stored label to its next stored label on a walk below theta. */
  lemma PresentStep<S(!new)>(C: Setup<S>, comp: seq<Bound>, T: Trail<S>, p: seq<nat>, n: Node<S>, t: seq<nat>)
    requires Enumerated(C, comp, T) && PrunesNothing(C, comp) && KeepsAll(C)
    requires TrueLabel(C, p, n, n) && Present(T, p, n) && t != [] && Completes(C, n, t)
    ensures Step(C.P, C.dir, n, t[0]).Some?
    ensures TrueLabel(C, p + [t[0]], Step(C.P, C.dir, n, t[0]).value, Step(C.P, C.dir, n, t[0]).value)
    ensures Present(T, p + [t[0]], Step(C.P, C.dir, n, t[0]).value)
  {
    hide TopoOrder, Grouped, FullArcs, Linked, Extend, NoJumps, ListOk, JumpsLack, JumpServed, Pruned, ArcOrder,
         GridUpTo;
    var k: nat :| Listed(T, k) && Trace(T.pool, k) == p && T.pool[k].node == n;
    var a, z := t[0], Run(C.P, C.dir, n, t).value;
    var m := Step(C.P, C.dir, n, a).value;
    assert LabelOk(C, T.pool, k) && T.pool[k].bucket == BucketOf(C, n);
    assert KeepsStep(C, n, t);
    assert Passes(C, comp, n);
    var e :| e in C.arcs[T.pool[k].bucket] && e.arc == a;
    assert Served(C, comp, T, k);
    assert ArcServed(C, comp, T, k, e);
    TrueStep(C, p, n, n, a, n.q);
    assert Run(C.P, C.dir, m, t[1..]) == Some(z);
    assert Completes(C, m, t[1..]);
    assert KeepsStep(C, m, t[1..]);
    assert Passes(C, comp, m);
    assert HasChild(T, k, a, m);
    var j: nat :| Listed(T, j) && T.pool[j].parent == k && T.pool[j].arc == a && T.pool[j].node == m;
    assert LabelOk(C, T.pool, j);
    ParentTrace(T, j);
  }

  lemma {:induction false} PresentRest<S(!new)>(C: Setup<S>, comp: seq<Bound>, T: Trail<S>, p: seq<nat>, n: Node<S>,
                                                t: seq<nat>)
    requires Enumerated(C, comp, T) && PrunesNothing(C, comp) && KeepsAll(C)
    requires TrueLabel(C, p, n, n) && Present(T, p, n) && Completes(C, n, t)
    ensures Present(T, p + t, Run(C.P, C.dir, n, t).value)
    decreases |t|
  {
    hide Enumerated, PrunesNothing, KeepsAll, Extend, Present, TrueLabel;
    if t == [] {
      assert p + t == p;
    } else {
      PresentStep(C, comp, T, p, n, t);
      var m := Step(C.P, C.dir, n, t[0]).value;
      PresentRest(C, comp, T, p + [t[0]], m, t[1..]);
      assert p + [t[0]] + t[1..] == p + t;
    }
  }

  /** Enumeration is complete: each feasible walk of cost below theta is the chain of exactly one stored label. */
  lemma EachWalkOnce<S(!new)>(C: Setup<S>, comp: seq<Bound>, T: Trail<S>, arcs: seq<nat>, z: Node<S>) returns (k: nat)
    requires Enumerated(C, comp, T) && PrunesNothing(C, comp) && KeepsAll(C)
    requires FeasibleWalk(C.P, arcs, z) && z.cost < C.theta
    ensures Listed(T, k) && Trace(T.pool, k) == arcs && T.pool[k].node == z
    ensures forall j: nat :: Listed(T, j) && Trace(T.pool, j) == arcs ==> j == k
  {
    hide TopoOrder, Grouped, FullArcs, Extend, AllServed, Linked, PrunesNothing, KeepsAll, Run, ListOk, JumpsLack,
         NoJumps, ArcOrder;
    var r := InitialNode(C.P, C.dir).value;
    RootPresent(C, comp, T);
    EmptyRun(C.P, C.dir, r);
    PresentRest(C, comp, T, [], r, arcs);
    assert [] + arcs == arcs;
    k :| Listed(T, k) && Trace(T.pool, k) == arcs && T.pool[k].node == z;
    assert arcs + [] == arcs;
    assert Straight(C, arcs, []);
    forall j: nat | Listed(T, j) && Trace(T.pool, j) == arcs ensures j == k { TraceUnique(C, comp, T, -1, j, k, []); }
  }

  lemma EmptyRun<S>(P: Problem<S>, dir: Direction, n: Node<S>)
    ensures Run(P, dir, n, []) == Some(n)
  {
  }

  /** What was stored on the way to a stored label was not pruned. */
  lemma {:induction false} OnTheWay<S>(C: Setup<S>, comp: seq<Bound>, T: Trail<S>, cur: int, k: nat, p: seq<nat>,
                                       t: seq<nat>) returns (i: nat)
    requires Layout(C) && PoolOk(C, T.pool) && Linked(C, comp, T, cur) && Listed(T, k) && Trace(T.pool, k) == p + t
             && (p != [] || t != [])
    ensures Listed(T, i) && Trace(T.pool, i) == p && !Pruned(C, comp, T.pool[i].bucket, T.pool[i].node)
    decreases |t|
  {
    hide TopoOrder, Grouped, FullArcs, Extend, GridUpTo, Pruned, Undelayed;
    assert LinkOk(C, comp, T, cur, k) && LabelOk(C, T.pool, k);
    var q := T.pool[k].parent;
    assert q >= 0;
    ParentTrace(T, k);
    if t == [] {
      assert p + t == p;
      i := k;
    } else {
      var rest := t[..|t| - 1];
      assert (p + t)[..|p + t| - 1] == p + rest;
      if |t| == 1 {
        assert p + rest == p;
        i := q;
      } else {
        i := OnTheWay(C, comp, T, cur, q, p, rest);
      }
    }
  }

  /** A walk below theta that is the chain of a stored label has had no label pruned on its way. */
  lemma StoredPasses<S(!new)>(C: Setup<S>, comp: seq<Bound>, T: Trail<S>, p: seq<nat>, n: Node<S>, t: seq<nat>, k: nat)
    requires Enumerated(C, comp, T) && KeepsAll(C) && TrueLabel(C, p, n, n) && Completes(C, n, t)
             && (p != [] || t != [])
    requires Listed(T, k) && Trace(T.pool, k) == p + t
    ensures Passes(C, comp, n)
  {
    hide TopoOrder, Grouped, FullArcs, Extend, AllServed, Linked, Run, ListOk, JumpsLack, NoJumps, ArcOrder, Pruned,
         KeepsAll, GridUpTo;
    var i := OnTheWay(C, comp, T, -1, k, p, t);
    RunAppend(C.P, C.dir, InitialNode(C.P, C.dir).value, p, t);
    assert Straight(C, p, t);
    TraceUnique(C, comp, T, -1, i, i, t);
    assert LabelOk(C, T.pool, i);
  }
}
