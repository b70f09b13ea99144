/** Across-arc concatenation of stored forward and backward labels (collect_concat_candidates). */
module Concat {
  import opened Types
  import opened Resources
  import opened Problems
  import opened Grids
  import opened BucketArcs
  import opened Sorting
  import opened LabelStores
  import opened LabelingSpec
  import opened Joins
  import opened Solving

  /** What the join reads of one direction: the labels, c_best and the minima per vertex. */
  datatype Side<S> = Side(store: Store<S>, cBest: seq<Bound>, vertexMin: seq<Bound>)

  ghost predicate RowReady<S>(P: Problem<S>, G: Grid, v: Side<S>, b: nat)
    requires b < |G.buckets| && b < |v.store.rows| && b < |v.cBest|
  {
    && RowOk(P, v.store.pool, v.store.rows[b]) && Ascending(v.store.rows[b].costs)
    && (forall k: nat :: k in v.store.rows[b].ids ==> Stored(G, v, b, k))
  }

  /** Label k sits in bucket b, and neither bound that covers it is above its cost. */
  ghost predicate Stored<S>(G: Grid, v: Side<S>, b: nat, k: nat)
    requires b < |G.buckets| && b < |v.cBest|
  {
    && k < |v.store.pool| && k < |v.store.dominated| && v.store.pool[k].bucket == b
    && var n := v.store.pool[k].node;
       && n.vertex == G.buckets[b].vertex && n.vertex < |v.vertexMin|
       && v.cBest[b].AtMost(Fin(n.cost)) && v.vertexMin[n.vertex].AtMost(Fin(n.cost))
  }

  ghost predicate SideReady<S>(P: Problem<S>, G: Grid, v: Side<S>) {
    && |v.store.rows| == |v.cBest| == |G.buckets| && |v.vertexMin| == P.nVertices
    && (forall b: nat :: b < |v.store.rows| ==> RowReady(P, G, v, b))
    && (forall k: nat :: Alive(v.store, k) ==> v.store.pool[k].node.vertex < P.nVertices)
  }

  /** Everything the join reads. */
  datatype Meeting<!S> = Meeting(P: Problem<S>, G: Grid, theta: real, fw: Side<S>, bw: Side<S>)

  ghost predicate Meets<S(!new)>(M: Meeting<S>) {
    Ready(M.P, M.G) && Disposable(M.P.pack, M.P.top) && SideReady(M.P, M.G, M.fw) && SideReady(M.P, M.G, M.bw)
  }

  predicate Inner<S>(P: Problem<S>, a: nat) {
    && P.top.from(a) != P.top.source && P.top.from(a) != P.top.sink
    && P.top.to(a) != P.top.source && P.top.to(a) != P.top.sink
  }

  /**
   * The pair is joinable below theta. Without a pack, the forward part with the arc has to be below theta by itself.
   */
  ghost predicate Emits<S>(M: Meeting<S>, f: nat, a: nat, b: nat) {
    && a < M.P.nArcs && Inner(M.P, a) && Alive(M.fw.store, f) && Alive(M.bw.store, b)
    && var u, w := M.fw.store.pool[f].node, M.bw.store.pool[b].node;
       && JoinPair(M.P, u, a, w) && u.cost + M.P.cost(a) + w.cost < M.theta
       && (M.P.pack.size == 0 ==> u.cost + M.P.cost(a) < M.theta)
  }

  function ConcatOf<S>(M: Meeting<S>, f: nat, a: nat, b: nat): Candidate {
    if f < |M.fw.store.pool| && b < |M.bw.store.pool| then
      var u, w := M.fw.store.pool[f].node, M.bw.store.pool[b].node;
      Candidate(u.cost + M.P.cost(a) + w.cost, u.realCost + w.realCost + M.P.baseCost(a), f, Some(Joint(a, b)))
    else Candidate(0.0, 0.0, f, Some(Joint(a, b)))
  }

  ghost predicate Emitted<S>(M: Meeting<S>, c: Candidate) {
    c.join.Some? && Emits(M, c.fw, c.join.value.arc, c.join.value.bw)
        && c == ConcatOf(M, c.fw, c.join.value.arc, c.join.value.bw)
  }

  /** c joins forward label f over arc a with a label of backward bucket bb. */
  predicate JoinsIn<S>(M: Meeting<S>, c: Candidate, f: nat, a: nat, bb: nat) {
    && c.fw == f && c.join.Some? && c.join.value.arc == a && c.join.value.bw < |M.bw.store.pool|
    && M.bw.store.pool[c.join.value.bw].bucket == bb
  }

  lemma JoinFree<S(!new)>(P: Problem<S>, u: Node<S>, a: nat, w: Node<S>)
    requires Disposable(P.pack, P.top)
    ensures ZeroOrInf(JoinCost(P.pack, u.states, a, P.top.to(a), w.states))
    ensures P.pack.minDominationCost == 0.0
  {
    assert CostFreeAt(P.pack, Forward, u.states, u.states, a);
    var along := P.pack.extendAlongArc(Forward, u.states, a);
    assert CostFreeAt(P.pack, Forward, along.0, w.states, P.top.to(a));
  }

  /** The inner loop: one forward label against the labels of one backward bucket, in order of cost. */
  method JoinRow<S(!new)>(M: Meeting<S>, f: nat, a: nat, bb: nat) returns (found: seq<Candidate>)
    requires Meets(M) && Alive(M.fw.store, f) && a < M.P.nArcs && Inner(M.P, a)
             && M.fw.store.pool[f].node.vertex == M.P.top.from(a)
    requires bb < |M.G.buckets| && M.G.buckets[bb].vertex == M.P.top.to(a)
    requires M.P.pack.size == 0 ==> M.fw.store.pool[f].node.cost + M.P.cost(a) < M.theta
    ensures forall c :: c in found ==> Emitted(M, c)
    ensures forall b: nat :: Emits(M, f, a, b) && b in M.bw.store.rows[bb].ids ==> ConcatOf(M, f, a, b) in found
    ensures Distinct(found) && forall c :: c in found ==> JoinsIn(M, c, f, a, bb)
  {
    hide Disposable, ValidGrid, RowOk;
    assert RowReady(M.P, M.G, M.bw, bb);
    var s := M.bw.store;
    var row, u := s.rows[bb], M.fw.store.pool[f].node;
    var fwArc := u.cost + M.P.cost(a);
    var threshold := Arrival(M.P, Forward, u.q, a);
    JoinFree(M.P, u, a, u);
    var breakAt := M.theta - fwArc - M.P.pack.minDominationCost;
    found := [];
    for i := 0 to |row.ids|
      invariant forall c :: c in found ==> Emitted(M, c)
      invariant forall b: nat :: Emits(M, f, a, b) && b in row.ids[..i] ==> ConcatOf(M, f, a, b) in found
      invariant Distinct(found)
      invariant forall c :: c in found ==> JoinsIn(M, c, f, a, bb) && c.join.value.bw in row.ids[..i]
    {
      RowEntry(M.P, s.pool, row, i);
      var k := row.ids[i];
      assert k in row.ids && row.ids[..i + 1] == row.ids[..i] + [k];
      assert Stored(M.G, M.bw, bb, k);
      if row.costs[i] >= breakAt {
        forall b: nat | Emits(M, f, a, b) && b in row.ids ensures b in row.ids[..i] { TooDear(M.P, s.pool, row, i, b); }
        return;
      }
      if s.dominated[k] { continue; }
      var w := s.pool[k].node;
      if !threshold.AtMost(w.q) { continue; }
      JoinFree(M.P, u, a, w);
      var join := JoinCost(M.P.pack, u.states, a, M.P.top.to(a), w.states);
      if join.Inf? { continue; }
      if fwArc + w.cost + join.val < M.theta {
        assert Alive(s, k) && Emits(M, f, a, k);
        NewMember(M.P, s.pool, row, i);
        found := found + [ConcatOf(M, f, a, k)];
      }
    }
    assert row.ids[..|row.ids|] == row.ids;
  }

  lemma NewMember<S>(P: Problem<S>, pool: seq<Label<S>>, row: Row, i: nat)
    requires RowOk(P, pool, row) && i < |row.ids|
    ensures row.ids[i] !in row.ids[..i]
  {
  }

  lemma RowEntry<S>(P: Problem<S>, pool: seq<Label<S>>, row: Row, i: nat)
    requires RowOk(P, pool, row) && i < |row.ids|
    ensures i < |row.costs| && row.ids[i] < |pool| && row.costs[i] == pool[row.ids[i]].node.cost
  {
    assert Entry(P, pool, row, i);
  }

  /** Labels behind position i cost at least what the label there costs. */
  lemma TooDear<S>(P: Problem<S>, pool: seq<Label<S>>, row: Row, i: nat, b: nat)
    requires RowOk(P, pool, row) && Ascending(row.costs) && i < |row.ids| && b in row.ids
    ensures i < |row.costs| && b < |pool|
    ensures pool[b].node.cost < row.costs[i] ==> b in row.ids[..i]
  {
    RowEntry(P, pool, row, i);
    var h :| 0 <= h < |row.ids| && row.ids[h] == b;
    RowEntry(P, pool, row, h);
    if h < i { assert row.ids[..i][h] == b; }
  }

  /** One forward label against all buckets of the arc's head. */
  method JoinLabel<S(!new)>(M: Meeting<S>, f: nat, a: nat) returns (found: seq<Candidate>)
    requires Meets(M) && Alive(M.fw.store, f) && a < M.P.nArcs && Inner(M.P, a)
             && M.fw.store.pool[f].node.vertex == M.P.top.from(a)
    ensures forall c :: c in found ==> Emitted(M, c)
    ensures forall b: nat :: Emits(M, f, a, b) ==> ConcatOf(M, f, a, b) in found
    ensures Distinct(found) && forall c :: c in found ==> c.fw == f && c.join.Some? && c.join.value.arc == a
  {
    hide Disposable, GridUpTo, RowOk, Emits, ConcatOf, JoinsIn, SideReady;
    found := [];
    var u := M.fw.store.pool[f].node;
    var fwArc := u.cost + M.P.cost(a);
    if M.P.pack.size == 0 && fwArc >= M.theta {
      forall b: nat ensures !Emits(M, f, a, b) { EmitFacts(M, f, a, b); }
      return;
    }
    var j := M.P.top.to(a);
    VertexRange(M, j);
    JoinFree(M.P, u, a, u);
    for bb := M.G.start[j] to RangeEnd(M.G, j)
      invariant forall c :: c in found ==> Emitted(M, c)
      invariant forall b: nat ::
                Emits(M, f, a, b) && b < |M.bw.store.pool| && M.G.start[j] <= M.bw.store.pool[b].bucket < bb ==>
                  ConcatOf(M, f, a, b) in found
      invariant Distinct(found)
      invariant forall c :: c in found ==> JoinsBelow(M, c, f, a, bb)
    {
      forall b: nat | Emits(M, f, a, b) ensures EmitPlace(M, a, b) { EmitFacts(M, f, a, b); }
      if M.bw.cBest[bb].Add(fwArc + M.P.pack.minDominationCost).AtLeast(M.theta) {
        forall b: nat | Emits(M, f, a, b) ensures M.bw.store.pool[b].bucket != bb { SkippedBucket(M, f, a, b); }
        continue;
      }
      var more := JoinRow(M, f, a, bb);
      JoinsApart(M, found, more, f, a, bb);
      found := found + more;
    }
    forall b: nat | Emits(M, f, a, b) ensures ConcatOf(M, f, a, b) in found { EmitFacts(M, f, a, b); }
  }

  /** The same with a bucket below bb. */
  predicate JoinsBelow<S>(M: Meeting<S>, c: Candidate, f: nat, a: nat, bb: nat) {
    && c.fw == f && c.join.Some? && c.join.value.arc == a && c.join.value.bw < |M.bw.store.pool|
    && M.bw.store.pool[c.join.value.bw].bucket < bb
  }

  lemma JoinsApart<S>(M: Meeting<S>, found: seq<Candidate>, more: seq<Candidate>, f: nat, a: nat, bb: nat)
    requires Distinct(found) && forall c :: c in found ==> JoinsBelow(M, c, f, a, bb)
    requires Distinct(more) && forall c :: c in more ==> JoinsIn(M, c, f, a, bb)
    ensures Distinct(found + more) && forall c :: c in found + more ==> JoinsBelow(M, c, f, a, bb + 1)
  {
    DistinctConcat(found, more);
  }

  ghost predicate EmitPlace<S>(M: Meeting<S>, a: nat, b: nat) {
    && b < |M.bw.store.pool| && M.bw.store.pool[b].bucket < |M.bw.store.rows|
    && b in M.bw.store.rows[M.bw.store.pool[b].bucket].ids
    && M.bw.store.pool[b].node.vertex == M.P.top.to(a)
  }

  lemma VertexRange<S(!new)>(M: Meeting<S>, v: nat)
    requires Meets(M) && v < M.P.nVertices
    ensures |M.G.start| == |M.G.nx| == |M.G.ny| == M.P.nVertices && M.G.start[v] <= RangeEnd(M.G, v) <= |M.G.buckets|
    ensures |M.fw.cBest| == |M.bw.cBest| == |M.fw.store.rows| == |M.bw.store.rows| == |M.G.buckets|
    ensures |M.fw.vertexMin| == |M.bw.vertexMin| == M.P.nVertices
    ensures forall b: nat :: M.G.start[v] <= b < RangeEnd(M.G, v) ==> M.G.buckets[b].vertex == v
  {
    assert RangeOk(M.P, M.G, M.P.nVertices, v);
  }

  /** Where the two labels of an emitted pair are stored, and that no bound skips them. */
  lemma EmitFacts<S(!new)>(M: Meeting<S>, f: nat, a: nat, b: nat)
    requires Meets(M)
    ensures M.P.pack.size == 0 && f < |M.fw.store.pool| && M.fw.store.pool[f].node.cost + M.P.cost(a) >= M.theta ==>
              !Emits(M, f, a, b)
    ensures Emits(M, f, a, b) ==>
              && EmitPlace(M, a, b)
              && M.P.top.to(a) < M.P.nVertices && M.P.top.to(a) < |M.G.start| && M.P.top.to(a) < |M.G.nx|
              && M.P.top.to(a) < |M.G.ny|
              && M.G.start[M.P.top.to(a)] <= M.bw.store.pool[b].bucket < RangeEnd(M.G, M.P.top.to(a))
    ensures Emits(M, f, a, b) ==>
              && f < |M.fw.store.pool| && M.fw.store.pool[f].bucket < |M.fw.store.rows|
              && f in M.fw.store.rows[M.fw.store.pool[f].bucket].ids
              && M.fw.store.pool[f].node.vertex == M.P.top.from(a)
              && M.P.top.from(a) < M.P.nVertices && M.P.top.from(a) < |M.G.start| && M.P.top.from(a) < |M.G.nx|
              && M.P.top.from(a) < |M.G.ny|
              && M.G.start[M.P.top.from(a)] <= M.fw.store.pool[f].bucket < RangeEnd(M.G, M.P.top.from(a))
  {
    hide Disposable, RowOk;
    if Emits(M, f, a, b) {
      var bb, fb := M.bw.store.pool[b].bucket, M.fw.store.pool[f].bucket;
      assert RowReady(M.P, M.G, M.bw, bb) && Stored(M.G, M.bw, bb, b);
      assert RowReady(M.P, M.G, M.fw, fb) && Stored(M.G, M.fw, fb, f);
      BucketFacts(M.P, M.G, bb);
      BucketFacts(M.P, M.G, fb);
    }
  }

  lemma EmitBounds<S(!new)>(M: Meeting<S>, f: nat, a: nat, b: nat)
    requires Meets(M) && Emits(M, f, a, b)
    ensures var fb, bb := M.fw.store.pool[f].bucket, M.bw.store.pool[b].bucket;
            var cf, cb := M.fw.store.pool[f].node.cost, M.bw.store.pool[b].node.cost;
            && fb < |M.fw.cBest| && M.fw.cBest[fb].AtMost(Fin(cf)) && bb < |M.bw.cBest|
            && M.bw.cBest[bb].AtMost(Fin(cb))
            && M.P.top.from(a) < |M.fw.vertexMin| && M.fw.vertexMin[M.P.top.from(a)].AtMost(Fin(cf))
            && M.P.top.to(a) < |M.bw.vertexMin| && M.bw.vertexMin[M.P.top.to(a)].AtMost(Fin(cb))
            && cf + M.P.cost(a) + cb < M.theta && M.P.pack.minDominationCost == 0.0
  {
    hide RowOk, ValidGrid;
    var bb, fb := M.bw.store.pool[b].bucket, M.fw.store.pool[f].bucket;
    assert RowReady(M.P, M.G, M.bw, bb) && Stored(M.G, M.bw, bb, b);
    assert RowReady(M.P, M.G, M.fw, fb) && Stored(M.G, M.fw, fb, f);
  }

  /** A skipped backward bucket holds no partner. */
  lemma SkippedBucket<S(!new)>(M: Meeting<S>, f: nat, a: nat, b: nat)
    requires Meets(M) && Emits(M, f, a, b)
    ensures var bb := M.bw.store.pool[b].bucket;
            bb < |M.bw.cBest| && !M.bw.cBest[bb].Add(M.fw.store.pool[f].node.cost + M.P.cost(a)
            + M.P.pack.minDominationCost).AtLeast(M.theta)
  {
    hide Meets, Emits;
    EmitBounds(M, f, a, b);
  }

  /** The labels of one forward bucket, in order of cost. */
  method JoinBucket<S(!new)>(M: Meeting<S>, a: nat, fb: nat) returns (found: seq<Candidate>)
    requires Meets(M) && a < M.P.nArcs && Inner(M.P, a) && fb < |M.G.buckets|
             && M.G.buckets[fb].vertex == M.P.top.from(a)
    ensures forall c :: c in found ==> Emitted(M, c)
    ensures forall f: nat, b: nat :: Emits(M, f, a, b) && f in M.fw.store.rows[fb].ids ==> ConcatOf(M, f, a, b) in found
    ensures Distinct(found)
    ensures forall c :: c in found ==>
              c.join.Some? && c.join.value.arc == a && c.fw < |M.fw.store.pool| && M.fw.store.pool[c.fw].bucket == fb
  {
    hide Disposable, ValidGrid, RowOk, Emits, ConcatOf;
    assert RowReady(M.P, M.G, M.fw, fb);
    var s := M.fw.store;
    var row, j := s.rows[fb], M.P.top.to(a);
    found := [];
    for i := 0 to |row.ids|
      invariant forall c :: c in found ==> Emitted(M, c)
      invariant forall f: nat, b: nat :: Emits(M, f, a, b) && f in row.ids[..i] ==> ConcatOf(M, f, a, b) in found
      invariant Distinct(found)
      invariant forall c :: c in found ==> c.join.Some? && c.join.value.arc == a && c.fw in row.ids[..i]
      invariant forall c :: c in found ==> c.fw < |s.pool| && s.pool[c.fw].bucket == fb
    {
      RowEntry(M.P, s.pool, row, i);
      var k := row.ids[i];
      assert k in row.ids && row.ids[..i + 1] == row.ids[..i] + [k];
      assert Stored(M.G, M.fw, fb, k);
      if M.bw.vertexMin[j].Add(row.costs[i] + M.P.cost(a) + M.P.pack.minDominationCost).AtLeast(M.theta) {
        forall f: nat, b: nat | Emits(M, f, a, b) && f in row.ids ensures f in row.ids[..i] {
          EmitBounds(M, f, a, b);
          TooDear(M.P, s.pool, row, i, f);
        }
        return;
      }
      if s.dominated[k] {
        forall b: nat ensures !Emits(M, k, a, b) { NotAlive(M, k, a, b); }
        continue;
      }
      assert Alive(s, k);
      var more := JoinLabel(M, k, a);
      NewMember(M.P, s.pool, row, i);
      DistinctConcat(found, more);
      found := found + more;
    }
    assert row.ids[..|row.ids|] == row.ids;
  }

  lemma NotAlive<S>(M: Meeting<S>, f: nat, a: nat, b: nat)
    ensures Emits(M, f, a, b) ==> Alive(M.fw.store, f) && f < |M.fw.store.dominated| && !M.fw.store.dominated[f]
  {
  }

  /** The pairs across one arc. */
  method JoinAcross<S(!new)>(M: Meeting<S>, a: nat) returns (found: seq<Candidate>)
    requires Meets(M) && a < M.P.nArcs
    ensures forall c :: c in found ==> Emitted(M, c)
    ensures forall f: nat, b: nat :: Emits(M, f, a, b) ==> ConcatOf(M, f, a, b) in found
    ensures Distinct(found) && forall c :: c in found ==> c.join.Some? && c.join.value.arc == a
  {
    hide Disposable, GridUpTo, RowOk, Emits, ConcatOf, SideReady;
    found := [];
    if !Inner(M.P, a) {
      forall f: nat, b: nat ensures !Emits(M, f, a, b) { EmitInner(M, f, a, b); }
      return;
    }
    var i, j := M.P.top.from(a), M.P.top.to(a);
    VertexRange(M, i);
    VertexRange(M, j);
    if M.fw.vertexMin[i].Plus(M.bw.vertexMin[j]).Add(M.P.cost(a) + M.P.pack.minDominationCost).AtLeast(M.theta) {
      forall f: nat, b: nat ensures !Emits(M, f, a, b) { if Emits(M, f, a, b) { EmitBounds(M, f, a, b); } }
      return;
    }
    for fb := M.G.start[i] to RangeEnd(M.G, i)
      invariant forall c :: c in found ==> Emitted(M, c)
      invariant forall f: nat, b: nat ::
                Emits(M, f, a, b) && f < |M.fw.store.pool| && M.G.start[i] <= M.fw.store.pool[f].bucket < fb ==>
                  ConcatOf(M, f, a, b) in found
      invariant Distinct(found)
      invariant forall c :: c in found ==>
                  c.join.Some? && c.join.value.arc == a && c.fw < |M.fw.store.pool|
                  && M.fw.store.pool[c.fw].bucket < fb
    {
      forall f: nat, b: nat | Emits(M, f, a, b)
        ensures f < |M.fw.store.pool| && M.fw.store.pool[f].bucket < |M.fw.store.rows|
                && f in M.fw.store.rows[M.fw.store.pool[f].bucket].ids
      {
        EmitFacts(M, f, a, b);
      }
      if M.bw.vertexMin[j].Plus(M.fw.cBest[fb]).Add(M.P.cost(a) + M.P.pack.minDominationCost).AtLeast(M.theta) {
        forall f: nat, b: nat | Emits(M, f, a, b) ensures M.fw.store.pool[f].bucket != fb { EmitBounds(M, f, a, b); }
        continue;
      }
      var more := JoinBucket(M, a, fb);
      DistinctConcat(found, more);
      found := found + more;
    }
    forall f: nat, b: nat | Emits(M, f, a, b) ensures ConcatOf(M, f, a, b) in found { EmitFacts(M, f, a, b); }
  }

  lemma EmitInner<S>(M: Meeting<S>, f: nat, a: nat, b: nat)
    ensures Emits(M, f, a, b) ==> Inner(M.P, a) && a < M.P.nArcs
  {
  }

  /** collect_concat_candidates: the joinable pairs across inner arcs, each once, whatever the bounds let it skip. */
  method CollectConcat<S(!new)>(M: Meeting<S>) returns (found: seq<Candidate>)
    requires Meets(M)
    ensures forall c :: c in found ==> Emitted(M, c)
    ensures forall f: nat, a: nat, b: nat :: Emits(M, f, a, b) ==> ConcatOf(M, f, a, b) in found
    ensures Distinct(found)
  {
    hide Meets, Emits, ConcatOf;
    found := [];
    for a := 0 to M.P.nArcs
      invariant forall c :: c in found ==> Emitted(M, c)
      invariant forall f: nat, e: nat, b: nat :: e < a && Emits(M, f, e, b) ==> ConcatOf(M, f, e, b) in found
      invariant Distinct(found) && forall c :: c in found ==> c.join.Some? && c.join.value.arc < a
    {
      var more := JoinAcross(M, a);
      DistinctConcat(found, more);
      found := found + more;
    }
    forall f: nat, a: nat, b: nat | Emits(M, f, a, b) ensures ConcatOf(M, f, a, b) in found { EmitInner(M, f, a, b); }
  }
}
