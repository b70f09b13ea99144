/** The cheapest label cost up to each bucket, kept in c_best / bw_c_best (update_c_best). */
module CBests {
  import opened Types
  import opened Resources
  import opened Problems
  import opened Grids
  import opened BucketArcs
  import opened BucketOrder
  import opened LabelStores
  import opened LabelingSpec
  import opened Sorting

  // ----- What the bounds mean -----

  ghost predicate LowerAt<S>(pool: seq<Label<S>>, row: Row, x: Bound) {
    forall k: nat :: k in row.ids && k < |pool| ==> x.AtMost(Fin(pool[k].node.cost))
  }

  ghost predicate AttainedAt<S>(pool: seq<Label<S>>, row: Row, x: real) {
    exists k: nat :: k in row.ids && k < |pool| && pool[k].node.cost == x
  }

  ghost predicate AttainedUpTo<S>(C: Setup<S>, pool: seq<Label<S>>, rows: seq<Row>, b: nat, x: real)
    requires Ready(C.P, C.G) && |rows| == |C.G.buckets|
  {
    exists o: nat :: Beyond(C.P, C.G, C.dir, o, b) && AttainedAt(pool, rows[o], x)
  }

  /** x is the cheapest cost stored in the buckets of b's vertex that come no later than b in both dimensions. */
  ghost predicate PrefixMin<S>(C: Setup<S>, pool: seq<Label<S>>, rows: seq<Row>, b: nat, x: Bound)
    requires Ready(C.P, C.G) && |rows| == |C.G.buckets|
  {
    && (forall o: nat :: Beyond(C.P, C.G, C.dir, o, b) ==> LowerAt(pool, rows[o], x))
    && (x.Fin? ==> AttainedUpTo(C, pool, rows, b, x.val))
  }

  ghost predicate OwnMin<S>(pool: seq<Label<S>>, row: Row, x: Bound) {
    LowerAt(pool, row, x) && (x.Fin? ==> AttainedAt(pool, row, x.val))
  }

  /** x is the least of the bounds of v's buckets. */
  ghost predicate VertexMin(G: Grid, cBest: seq<Bound>, v: nat, x: Bound)
    requires |cBest| == |G.buckets|
  {
    && (forall b: nat :: b < |G.buckets| && G.buckets[b].vertex == v ==> x.AtMost(cBest[b]))
    && (x.Fin? ==> exists b: nat :: b < |G.buckets| && G.buckets[b].vertex == v && cBest[b] == x)
  }

  /** The bounds of components from level on are final, the others are still unset. */
  ghost predicate BoundsOk<S(!new)>(C: Setup<S>, pool: seq<Label<S>>, rows: seq<Row>, cBest: seq<Bound>,
                                    vertexMin: seq<Bound>, level: int)
    requires SetupOk(C)
  {
    && |rows| == |cBest| == |C.G.buckets| && |vertexMin| == C.P.nVertices
    && (forall b: nat :: b < |cBest| && C.id[b] >= level ==> PrefixMin(C, pool, rows, b, cBest[b]))
    && (forall b: nat :: b < |cBest| && C.id[b] < level ==> cBest[b] == Inf)
    && (forall v: nat :: v < C.P.nVertices ==> VertexMin(C.G, cBest, v, vertexMin[v]))
  }

  // ----- Position of a bucket in processing order -----

  /** The cell with rank (i, j) among the cells of v, counted from the side labels come from. */
  function RankCell(G: Grid, dir: Direction, v: nat, i: nat, j: nat): int
    requires v < |G.start| && v < |G.nx| && v < |G.ny| && i < G.nx[v] && j < G.ny[v]
  {
    if dir.Forward? then CellIndex(G, v, i, j) else CellIndex(G, v, G.nx[v] - 1 - i, G.ny[v] - 1 - j)
  }

  ghost predicate AtRank<S>(P: Problem<S>, G: Grid, dir: Direction, b: nat, v: nat, i: nat, j: nat)
    requires ValidGrid(P, G)
  {
    b < |G.buckets| && G.buckets[b].vertex == v && v < P.nVertices && i < G.nx[v] && j < G.ny[v]
        && b == RankCell(G, dir, v, i, j)
  }

  lemma RankFacts<S>(P: Problem<S>, G: Grid, dir: Direction, v: nat, i: nat, j: nat)
    requires ValidGrid(P, G) && v < P.nVertices && i < G.nx[v] && j < G.ny[v]
    ensures RankCell(G, dir, v, i, j) >= 0 && AtRank(P, G, dir, RankCell(G, dir, v, i, j), v, i, j)
  {
    if dir.Forward? { IndexFacts(P, G, v, i, j); } else { IndexFacts(P, G, v, G.nx[v] - 1 - i, G.ny[v] - 1 - j); }
  }

  lemma HasRank<S>(P: Problem<S>, G: Grid, dir: Direction, b: nat) returns (i: nat, j: nat)
    requires ValidGrid(P, G) && b < |G.buckets|
    ensures AtRank(P, G, dir, b, G.buckets[b].vertex, i, j)
  {
    BucketFacts(P, G, b);
    var v := G.buckets[b].vertex;
    i, j := Kx(G, b), Ky(G, b);
    if dir.Backward? { i, j := G.nx[v] - 1 - i, G.ny[v] - 1 - j; }
  }

  /** Beyond is the product order of the ranks. */
  lemma BeyondRank<S>(P: Problem<S>, G: Grid, dir: Direction, b: nat, c: nat, v: nat, i: nat, j: nat, x: nat, y: nat)
    requires ValidGrid(P, G) && AtRank(P, G, dir, b, v, i, j) && AtRank(P, G, dir, c, v, x, y)
    ensures Beyond(P, G, dir, b, c) <==> i <= x && j <= y
  {
    if dir.Forward? {
      IndexFacts(P, G, v, i, j);
      IndexFacts(P, G, v, x, y);
    } else {
      IndexFacts(P, G, v, G.nx[v] - 1 - i, G.ny[v] - 1 - j);
      IndexFacts(P, G, v, G.nx[v] - 1 - x, G.ny[v] - 1 - y);
    }
    assert BucketOk(P, G, P.nVertices, b) && BucketOk(P, G, P.nVertices, c);
  }

  // ----- One step of the sweep -----

  /** The prefix of (i, j) is the cell itself and the prefixes of its two predecessors. */
  lemma PrefixStep<S(!new)>(C: Setup<S>, pool: seq<Label<S>>, rows: seq<Row>, b: nat, v: nat, i: nat, j: nat,
                            own: Bound, left: Bound, down: Bound)
    requires Ready(C.P, C.G) && |rows| == |C.G.buckets| && AtRank(C.P, C.G, C.dir, b, v, i, j)
    requires OwnMin(pool, rows[b], own)
    requires if i > 0 then PrefixMin(C, pool, rows, RankCell(C.G, C.dir, v, i - 1, j), left) else left == Inf
    requires if j > 0 then PrefixMin(C, pool, rows, RankCell(C.G, C.dir, v, i, j - 1), down) else down == Inf
    ensures PrefixMin(C, pool, rows, b, MinBound(MinBound(own, left), down))
  {
    hide BucketOk, RangeOk;
    var x := MinBound(MinBound(own, left), down);
    assert Beyond(C.P, C.G, C.dir, b, b) by { BeyondRank(C.P, C.G, C.dir, b, b, v, i, j, i, j); }
    if i > 0 {
      RankFacts(C.P, C.G, C.dir, v, i - 1, j);
      BeyondRank(C.P, C.G, C.dir, RankCell(C.G, C.dir, v, i - 1, j), b, v, i - 1, j, i, j);
    }
    if j > 0 {
      RankFacts(C.P, C.G, C.dir, v, i, j - 1);
      BeyondRank(C.P, C.G, C.dir, RankCell(C.G, C.dir, v, i, j - 1), b, v, i, j - 1, i, j);
    }
    forall o: nat | Beyond(C.P, C.G, C.dir, o, b) ensures LowerAt(pool, rows[o], x) {
      var p, q := HasRank(C.P, C.G, C.dir, o);
      BeyondRank(C.P, C.G, C.dir, o, b, v, p, q, i, j);
      if p < i {
        BeyondRank(C.P, C.G, C.dir, o, RankCell(C.G, C.dir, v, i - 1, j), v, p, q, i - 1, j);
        Lower(pool, rows[o], left, x);
      } else if q < j {
        BeyondRank(C.P, C.G, C.dir, o, RankCell(C.G, C.dir, v, i, j - 1), v, p, q, i, j - 1);
        Lower(pool, rows[o], down, x);
      } else {
        Lower(pool, rows[o], own, x);
      }
    }
    if x.Fin? {
      if x == own {
      } else if x == left && i > 0 {
        PrefixWitness(C, pool, rows, RankCell(C.G, C.dir, v, i - 1, j), b, x.val);
      } else {
        PrefixWitness(C, pool, rows, RankCell(C.G, C.dir, v, i, j - 1), b, x.val);
      }
    }
  }

  lemma Lower<S>(pool: seq<Label<S>>, row: Row, x: Bound, y: Bound)
    requires LowerAt(pool, row, x) && y.AtMost(x)
    ensures LowerAt(pool, row, y)
  {
  }

  lemma PrefixWitness<S(!new)>(C: Setup<S>, pool: seq<Label<S>>, rows: seq<Row>, c: nat, b: nat, x: real)
    requires Ready(C.P, C.G) && |rows| == |C.G.buckets| && Beyond(C.P, C.G, C.dir, c, b)
    requires AttainedUpTo(C, pool, rows, c, x)
    ensures AttainedUpTo(C, pool, rows, b, x)
  {
    var o: nat :| Beyond(C.P, C.G, C.dir, o, c) && AttainedAt(pool, rows[o], x);
    BeyondOrder(C.P, C.G, C.dir, o, c, b);
  }

  // ----- update_c_best -----

  /** The first pass, one bucket. */
  method RowMin<S>(P: Problem<S>, pool: seq<Label<S>>, row: Row) returns (best: Bound)
    requires RowOk(P, pool, row)
    ensures OwnMin(pool, row, best)
  {
    best := Inf;
    for i := 0 to |row.costs|
      invariant forall h: nat :: h < i ==> best.AtMost(Fin(row.costs[h]))
      invariant best.Fin? ==> exists h: nat :: h < i && row.costs[h] == best.val
    {
      if Fin(row.costs[i]).Less(best) { best := Fin(row.costs[i]); }
    }
    forall k: nat | k in row.ids && k < |pool| ensures best.AtMost(Fin(pool[k].node.cost)) {
      var h :| 0 <= h < |row.ids| && row.ids[h] == k;
      assert Entry(P, pool, row, h);
    }
    if best.Fin? {
      var h: nat :| h < |row.costs| && row.costs[h] == best.val;
      assert Entry(P, pool, row, h) && row.ids[h] in row.ids;
    }
  }

  /** What is known of bucket b while the cells of v before (i, j) have been swept. */
  ghost predicate SweepAt<S(!new)>(C: Setup<S>, pool: seq<Label<S>>, rows: seq<Row>, before: seq<Bound>,
                                   best: seq<Bound>,
                                   scc: nat, v: nat, i: nat, j: nat, b: nat)
    requires SetupOk(C) && |rows| == |before| == |best| == |C.G.buckets| && b < |best|
  {
    if C.G.buckets[b].vertex != v || C.id[b] != scc then best[b] == before[b]
    else exists x: nat, y: nat ::
         AtRank(C.P, C.G, C.dir, b, v, x, y) && SweptCell(C, pool, rows, before, best, b, x < i || (x == i && y < j))
  }

  ghost predicate SweptCell<S(!new)>(C: Setup<S>, pool: seq<Label<S>>, rows: seq<Row>, before: seq<Bound>,
                                     best: seq<Bound>, b: nat, done: bool)
    requires SetupOk(C) && |rows| == |before| == |best| == |C.G.buckets| && b < |best|
  {
    if done then PrefixMin(C, pool, rows, b, best[b]) else best[b] == before[b]
  }

  ghost predicate Swept<S(!new)>(C: Setup<S>, pool: seq<Label<S>>, rows: seq<Row>, before: seq<Bound>, best: seq<Bound>,
                                 scc: nat, v: nat, i: nat, j: nat)
    requires SetupOk(C) && |rows| == |before| == |C.G.buckets|
  {
    |best| == |before| && forall b: nat :: b < |best| ==> SweepAt(C, pool, rows, before, best, scc, v, i, j, b)
  }

  /** What the sweep over v starts from: final bounds of earlier components, own minima in component scc. */
  ghost predicate SweepReady<S(!new)>(C: Setup<S>, pool: seq<Label<S>>, rows: seq<Row>, before: seq<Bound>, scc: nat,
                                      v: nat)
    requires SetupOk(C)
  {
    && |rows| == |before| == |C.G.buckets|
    && (forall b: nat :: b < |before| && C.id[b] > scc ==> PrefixMin(C, pool, rows, b, before[b]))
    && (forall b: nat ::
      b < |before| && C.id[b] == scc && C.G.buckets[b].vertex == v ==> OwnMin(pool, rows[b], before[b]))
  }

  lemma RankUnique<S>(P: Problem<S>, G: Grid, dir: Direction, b: nat, v: nat, i: nat, j: nat, x: nat, y: nat)
    requires ValidGrid(P, G) && AtRank(P, G, dir, b, v, i, j) && AtRank(P, G, dir, b, v, x, y)
    ensures i == x && j == y
  {
    BeyondRank(P, G, dir, b, b, v, i, j, x, y);
    BeyondRank(P, G, dir, b, b, v, x, y, i, j);
    BeyondOrder(P, G, dir, b, b, b);
  }

  /** A predecessor of the swept cell already carries its final bound. */
  lemma EarlierDone<S(!new)>(C: Setup<S>, pool: seq<Label<S>>, rows: seq<Row>, before: seq<Bound>, best: seq<Bound>,
                             scc: nat, v: nat, i: nat, j: nat, b: nat, c: nat, x: nat, y: nat)
    requires SetupOk(C) && SweepReady(C, pool, rows, before, scc, v) && Swept(C, pool, rows, before, best, scc, v, i, j)
    requires AtRank(C.P, C.G, C.dir, b, v, i, j) && AtRank(C.P, C.G, C.dir, c, v, x, y)
    requires C.id[b] == scc && ((x + 1 == i && y == j) || (x == i && y + 1 == j))
    ensures PrefixMin(C, pool, rows, c, best[c])
  {
    hide BucketOk, RangeOk, PrefixMin, OwnMin, RankCell, Disposable, Grouped;
    BeyondRank(C.P, C.G, C.dir, c, b, v, x, y, i, j);
    assert C.id[b] <= C.id[c];
    assert SweepAt(C, pool, rows, before, best, scc, v, i, j, c);
    if C.id[c] == scc {
      var p: nat, q: nat :| AtRank(C.P, C.G, C.dir, c, v, p, q)
          && SweptCell(C, pool, rows, before, best, c, p < i || (p == i && q < j));
      RankUnique(C.P, C.G, C.dir, c, v, x, y, p, q);
    }
  }

  lemma SweepNext<S(!new)>(C: Setup<S>, pool: seq<Label<S>>, rows: seq<Row>, before: seq<Bound>, best: seq<Bound>,
                           more: seq<Bound>,
                           scc: nat, v: nat, i: nat, j: nat, b: nat)
    requires SetupOk(C) && SweepReady(C, pool, rows, before, scc, v) && Swept(C, pool, rows, before, best, scc, v, i, j)
    requires AtRank(C.P, C.G, C.dir, b, v, i, j)
    requires if C.id[b] == scc then |more| == |best| && more == best[b := more[b]]
              && PrefixMin(C, pool, rows, b, more[b]) else more == best
    ensures Swept(C, pool, rows, before, more, scc, v, i, j + 1)
  {
    hide BucketOk, RangeOk, PrefixMin, OwnMin, RankCell, Disposable, Grouped, TopoOrder;
    var next := j + 1;
    forall c: nat | c < |more| ensures SweepAt(C, pool, rows, before, more, scc, v, i, next, c) {
      assert SweepAt(C, pool, rows, before, best, scc, v, i, j, c);
      if C.G.buckets[c].vertex == v && C.id[c] == scc {
        var x: nat, y: nat :| AtRank(C.P, C.G, C.dir, c, v, x, y)
            && SweptCell(C, pool, rows, before, best, c, x < i || (x == i && y < j));
        if c == b {
          RankUnique(C.P, C.G, C.dir, c, v, i, j, x, y);
        } else {
          assert !(x == i && y == j);
        }
        assert SweptCell(C, pool, rows, before, more, c, x < i || (x == i && y < next));
      }
    }
  }

  lemma SweepRow<S(!new)>(C: Setup<S>, pool: seq<Label<S>>, rows: seq<Row>, before: seq<Bound>, best: seq<Bound>,
                          scc: nat, v: nat, i: nat)
    requires SetupOk(C) && |rows| == |before| == |C.G.buckets| && v < C.P.nVertices
             && Swept(C, pool, rows, before, best, scc, v, i, C.G.ny[v])
    ensures Swept(C, pool, rows, before, best, scc, v, i + 1, 0)
  {
    hide BucketOk, RangeOk, PrefixMin, RankCell, Disposable, Grouped, TopoOrder;
    var next := i + 1;
    forall c: nat | c < |best| ensures SweepAt(C, pool, rows, before, best, scc, v, next, 0, c) {
      assert SweepAt(C, pool, rows, before, best, scc, v, i, C.G.ny[v], c);
      if C.G.buckets[c].vertex == v && C.id[c] == scc {
        var x: nat, y: nat :| AtRank(C.P, C.G, C.dir, c, v, x, y)
            && SweptCell(C, pool, rows, before, best, c, x < i || (x == i && y < C.G.ny[v]));
        assert SweptCell(C, pool, rows, before, best, c, x < next || (x == next && y < 0));
      }
    }
  }

  lemma SweepStart<S(!new)>(C: Setup<S>, pool: seq<Label<S>>, rows: seq<Row>, best: seq<Bound>, scc: nat, v: nat)
    requires SetupOk(C) && |rows| == |best| == |C.G.buckets| && v < C.P.nVertices
    ensures Swept(C, pool, rows, best, best, scc, v, 0, 0)
  {
    forall c: nat | c < |best| ensures SweepAt(C, pool, rows, best, best, scc, v, 0, 0, c) {
      var x, y := HasRank(C.P, C.G, C.dir, c);
      if C.G.buckets[c].vertex == v && C.id[c] == scc {
        assert SweptCell(C, pool, rows, best, best, c, x < 0 || (x == 0 && y < 0));
      }
    }
  }

  lemma SweepEnd<S(!new)>(C: Setup<S>, pool: seq<Label<S>>, rows: seq<Row>, before: seq<Bound>, best: seq<Bound>,
                          scc: nat, v: nat)
    requires SetupOk(C) && |rows| == |before| == |C.G.buckets| && v < C.P.nVertices
    requires Swept(C, pool, rows, before, best, scc, v, C.G.nx[v], 0)
    ensures forall b: nat ::
            b < |best| && C.G.buckets[b].vertex == v && C.id[b] == scc ==> PrefixMin(C, pool, rows, b, best[b])
    ensures forall b: nat :: b < |best| && !(C.G.buckets[b].vertex == v && C.id[b] == scc) ==> best[b] == before[b]
  {
    hide BucketOk, RangeOk, PrefixMin, RankCell, Disposable, Grouped, TopoOrder;
    forall b: nat | b < |best|
      ensures if C.G.buckets[b].vertex == v && C.id[b] == scc then PrefixMin(C, pool, rows, b, best[b])
              else best[b] == before[b]
    {
      assert SweepAt(C, pool, rows, before, best, scc, v, C.G.nx[v], 0, b);
    }
  }

  lemma SetupReady<S(!new)>(C: Setup<S>)
    requires SetupOk(C)
    ensures Ready(C.P, C.G) && |C.id| == |C.arcs| == |C.jumps| == |C.G.buckets| && |C.groups| == C.count
  {
  }

  /** The second pass, one vertex: each bound is lowered to those of its two predecessors. */
  method Propagate<S(!new)>(C: Setup<S>, ghost pool: seq<Label<S>>, ghost rows: seq<Row>, before: seq<Bound>,
                            scc: nat, v: nat) returns (best: seq<Bound>)
    requires SetupOk(C) && SweepReady(C, pool, rows, before, scc, v) && v < C.P.nVertices
    ensures |best| == |before|
    ensures forall b: nat ::
            b < |best| && C.G.buckets[b].vertex == v && C.id[b] == scc ==> PrefixMin(C, pool, rows, b, best[b])
    ensures forall b: nat :: b < |best| && !(C.G.buckets[b].vertex == v && C.id[b] == scc) ==> best[b] == before[b]
  {
    hide BucketOk, RangeOk, PrefixMin, RankCell, SetupOk, SweepAt, OwnMin;
    SetupReady(C);
    best := before;
    SweepStart(C, pool, rows, best, scc, v);
    for i := 0 to C.G.nx[v]
      invariant Swept(C, pool, rows, before, best, scc, v, i, 0)
    {
      for j := 0 to C.G.ny[v]
        invariant Swept(C, pool, rows, before, best, scc, v, i, j)
      {
        RankFacts(C.P, C.G, C.dir, v, i, j);
        var b: nat := RankCell(C.G, C.dir, v, i, j);
        ghost var best0 := best;
        if C.id[b] == scc {
          best := SweepCell(C, pool, rows, before, best, scc, v, i, j, b);
        }
        SweepNext(C, pool, rows, before, best0, best, scc, v, i, j, b);
      }
      SweepRow(C, pool, rows, before, best, scc, v, i);
    }
    SweepEnd(C, pool, rows, before, best, scc, v);
  }

  method SweepCell<S(!new)>(C: Setup<S>, ghost pool: seq<Label<S>>, ghost rows: seq<Row>, ghost before: seq<Bound>,
                            best: seq<Bound>,
                            scc: nat, v: nat, i: nat, j: nat, b: nat) returns (more: seq<Bound>)
    requires SetupOk(C) && SweepReady(C, pool, rows, before, scc, v) && Swept(C, pool, rows, before, best, scc, v, i, j)
    requires AtRank(C.P, C.G, C.dir, b, v, i, j) && C.id[b] == scc
    ensures |more| == |best| && more == best[b := more[b]] && PrefixMin(C, pool, rows, b, more[b])
  {
    hide BucketOk, RangeOk, PrefixMin, OwnMin, Disposable, Grouped, TopoOrder, SweptCell;
    assert SweepAt(C, pool, rows, before, best, scc, v, i, j, b);
    NotYet(C, pool, rows, before, best, scc, v, i, j, b);
    var left, down := Inf, Inf;
    more := best;
    if i > 0 {
      RankFacts(C.P, C.G, C.dir, v, i - 1, j);
      var prev: nat := RankCell(C.G, C.dir, v, i - 1, j);
      EarlierDone(C, pool, rows, before, best, scc, v, i, j, b, prev, i - 1, j);
      left := best[prev];
      more := more[b := MinBound(more[b], left)];
    }
    if j > 0 {
      RankFacts(C.P, C.G, C.dir, v, i, j - 1);
      var prev: nat := RankCell(C.G, C.dir, v, i, j - 1);
      EarlierDone(C, pool, rows, before, best, scc, v, i, j, b, prev, i, j - 1);
      down := best[prev];
      more := more[b := MinBound(more[b], down)];
    }
    PrefixStep(C, pool, rows, b, v, i, j, best[b], left, down);
  }

  lemma NotYet<S(!new)>(C: Setup<S>, pool: seq<Label<S>>, rows: seq<Row>, before: seq<Bound>, best: seq<Bound>,
                        scc: nat, v: nat, i: nat, j: nat, b: nat)
    requires SetupOk(C) && SweepReady(C, pool, rows, before, scc, v) && Swept(C, pool, rows, before, best, scc, v, i, j)
    requires AtRank(C.P, C.G, C.dir, b, v, i, j) && C.id[b] == scc
    ensures OwnMin(pool, rows[b], best[b])
  {
    hide BucketOk, RangeOk, PrefixMin, RankCell, Disposable, Grouped, TopoOrder;
    assert SweepAt(C, pool, rows, before, best, scc, v, i, j, b);
    var x: nat, y: nat :| AtRank(C.P, C.G, C.dir, b, v, x, y)
        && SweptCell(C, pool, rows, before, best, b, x < i || (x == i && y < j));
    RankUnique(C.P, C.G, C.dir, b, v, i, j, x, y);
  }

  /** The minimum over the buckets of one vertex. */
  method MinOverVertex<S>(P: Problem<S>, G: Grid, cBest: seq<Bound>, v: nat) returns (x: Bound)
    requires ValidGrid(P, G) && v < P.nVertices && |cBest| == |G.buckets|
    ensures VertexMin(G, cBest, v, x)
  {
    assert RangeOk(P, G, P.nVertices, v);
    x := Inf;
    for b := G.start[v] to RangeEnd(G, v)
      invariant forall c: nat :: G.start[v] <= c < b ==> x.AtMost(cBest[c])
      invariant x.Fin? ==> exists c: nat :: G.start[v] <= c < b && cBest[c] == x
    {
      x := MinBound(x, cBest[b]);
    }
    forall b: nat | b < |G.buckets| && G.buckets[b].vertex == v ensures x.AtMost(cBest[b]) { BucketFacts(P, G, b); }
  }

  /** scc_vertices. */
  method VerticesOf(G: Grid, group: seq<nat>) returns (verts: seq<nat>)
    requires forall b :: b in group ==> b < |G.buckets|
    ensures forall v :: v in verts <==> exists b: nat :: b in group && b < |G.buckets| && G.buckets[b].vertex == v
    ensures Distinct(verts)
  {
    verts := [];
    for i := 0 to |group|
      invariant forall v ::
                v in verts <==> exists b: nat :: b in group[..i] && b < |G.buckets| && G.buckets[b].vertex == v
      invariant Distinct(verts)
    {
      assert group[i] in group;
      assert group[..i + 1] == group[..i] + [group[i]];
      var v := G.buckets[group[i]].vertex;
      if v !in verts { verts := verts + [v]; }
    }
    assert group[..|group|] == group;
  }

  lemma GroupMembers<S(!new)>(C: Setup<S>, scc: nat)
    requires SetupOk(C) && scc < C.count
    ensures scc < |C.groups| && forall b: nat :: b in C.groups[scc] <==> b < |C.G.buckets| && C.id[b] == scc
  {
  }

  /** The first pass: the minimum of each bucket of the component. */
  method OwnMinima<S(!new)>(C: Setup<S>, pool: seq<Label<S>>, rows: seq<Row>, cBest: seq<Bound>, scc: nat)
    returns (best: seq<Bound>)
    requires SetupOk(C) && scc < C.count && |rows| == |cBest| == |C.G.buckets|
    requires forall b: nat :: b < |rows| ==> RowOk(C.P, pool, rows[b])
    ensures |best| == |cBest|
    ensures forall b: nat :: b < |best| && C.id[b] != scc ==> best[b] == cBest[b]
    ensures forall b: nat :: b < |best| && C.id[b] == scc ==> OwnMin(pool, rows[b], best[b])
  {
    hide OwnMin, Disposable, TopoOrder, RowOk;
    GroupMembers(C, scc);
    var group := C.groups[scc];
    best := cBest;
    for i := 0 to |group|
      invariant |best| == |cBest|
      invariant forall b: nat :: b < |best| && C.id[b] != scc ==> best[b] == cBest[b]
      invariant forall b: nat :: b < |best| && b in group[..i] ==> OwnMin(pool, rows[b], best[b])
    {
      assert group[i] in group;
      assert group[..i + 1] == group[..i] + [group[i]];
      var own := RowMin(C.P, pool, rows[group[i]]);
      best := best[group[i] := own];
    }
    assert group[..|group|] == group;
  }

  /** What the second pass has done once the vertices `done` have been swept. */
  ghost predicate PassTwo<S(!new)>(C: Setup<S>, pool: seq<Label<S>>, rows: seq<Row>, own: seq<Bound>, best: seq<Bound>,
                                   vertexMin: seq<Bound>, least: seq<Bound>, scc: nat, done: seq<nat>)
    requires SetupOk(C) && |rows| == |own| == |C.G.buckets| && |vertexMin| == C.P.nVertices
  {
    && |best| == |own| && |least| == |vertexMin|
    && (forall b: nat :: b < |best| && !(C.id[b] == scc && C.G.buckets[b].vertex in done) ==> best[b] == own[b])
    && (forall b: nat ::
      b < |best| && C.id[b] == scc && C.G.buckets[b].vertex in done ==> PrefixMin(C, pool, rows, b, best[b]))
    && (forall v: nat :: v < C.P.nVertices && v in done ==> VertexMin(C.G, best, v, least[v]))
    && (forall v: nat :: v < C.P.nVertices && v !in done ==> least[v] == vertexMin[v])
  }

  lemma PassTwoStep<S(!new)>(C: Setup<S>, pool: seq<Label<S>>, rows: seq<Row>, own: seq<Bound>, best: seq<Bound>,
                             more: seq<Bound>,
                             vertexMin: seq<Bound>, least: seq<Bound>, scc: nat, done: seq<nat>, v: nat, x: Bound)
    requires SetupOk(C) && |rows| == |own| == |C.G.buckets| && |vertexMin| == C.P.nVertices && v < C.P.nVertices
             && v !in done
    requires PassTwo(C, pool, rows, own, best, vertexMin, least, scc, done) && |more| == |best|
    requires forall b: nat ::
             b < |best| && C.G.buckets[b].vertex == v && C.id[b] == scc ==> PrefixMin(C, pool, rows, b, more[b])
    requires forall b: nat :: b < |best| && !(C.G.buckets[b].vertex == v && C.id[b] == scc) ==> more[b] == best[b]
    requires VertexMin(C.G, more, v, x)
    ensures PassTwo(C, pool, rows, own, more, vertexMin, least[v := x], scc, done + [v])
  {
    hide PrefixMin, Disposable, TopoOrder, VertexMin, Grouped;
    forall u: nat | u < C.P.nVertices && u in done + [v] ensures VertexMin(C.G, more, u, least[v := x][u]) {
      if u != v { VertexMinKept(C.G, best, more, u, least[u]); }
    }
  }

  lemma PassTwoReady<S(!new)>(C: Setup<S>, pool: seq<Label<S>>, rows: seq<Row>, own: seq<Bound>, best: seq<Bound>,
                              vertexMin: seq<Bound>, least: seq<Bound>, scc: nat, done: seq<nat>, v: nat)
    requires SetupOk(C) && |rows| == |own| == |C.G.buckets| && |vertexMin| == C.P.nVertices && v !in done
    requires OwnReady(C, pool, rows, own, scc) && PassTwo(C, pool, rows, own, best, vertexMin, least, scc, done)
    ensures SweepReady(C, pool, rows, best, scc, v)
  {
    hide PrefixMin, OwnMin, Disposable, TopoOrder, VertexMin, Grouped;
  }

  ghost predicate OwnReady<S(!new)>(C: Setup<S>, pool: seq<Label<S>>, rows: seq<Row>, own: seq<Bound>, scc: nat)
    requires SetupOk(C) && |rows| == |own| == |C.G.buckets|
  {
    && (forall b: nat :: b < |own| && C.id[b] > scc ==> PrefixMin(C, pool, rows, b, own[b]))
    && (forall b: nat :: b < |own| && C.id[b] == scc ==> OwnMin(pool, rows[b], own[b]))
  }

  lemma PassTwoStart<S(!new)>(C: Setup<S>, pool: seq<Label<S>>, rows: seq<Row>, own: seq<Bound>,
                              vertexMin: seq<Bound>, scc: nat)
    requires SetupOk(C) && |rows| == |own| == |C.G.buckets| && |vertexMin| == C.P.nVertices
    ensures PassTwo(C, pool, rows, own, own, vertexMin, vertexMin, scc, [])
  {
  }

  lemma GroupVertex<S(!new)>(C: Setup<S>, scc: nat, verts: seq<nat>)
    requires SetupOk(C) && scc < C.count && scc < |C.groups|
    requires forall v ::
             v in verts <==> exists b: nat :: b in C.groups[scc] && b < |C.G.buckets| && C.G.buckets[b].vertex == v
    ensures forall i: nat :: i < |verts| ==> verts[i] < C.P.nVertices
    ensures forall b: nat :: b < |C.G.buckets| && C.id[b] == scc ==> C.G.buckets[b].vertex in verts
  {
    hide Disposable, TopoOrder, Grouped;
    GroupMembers(C, scc);
    forall i: nat | i < |verts| ensures verts[i] < C.P.nVertices {
      assert verts[i] in verts;
      var b: nat :| b in C.groups[scc] && b < |C.G.buckets| && C.G.buckets[b].vertex == verts[i];
      BucketFacts(C.P, C.G, b);
    }
  }

  /** The second pass over the vertices of the component. */
  method PropagateAll<S(!new)>(C: Setup<S>, ghost pool: seq<Label<S>>, ghost rows: seq<Row>, own: seq<Bound>,
                               vertexMin: seq<Bound>, scc: nat)
    returns (best: seq<Bound>, least: seq<Bound>, verts: seq<nat>)
    requires SetupOk(C) && scc < C.count && |rows| == |own| == |C.G.buckets| && |vertexMin| == C.P.nVertices
    requires OwnReady(C, pool, rows, own, scc)
    ensures forall b: nat :: b < |own| && C.id[b] == scc ==> C.G.buckets[b].vertex in verts
    ensures PassTwo(C, pool, rows, own, best, vertexMin, least, scc, verts)
  {
    hide PrefixMin, OwnMin, Disposable, TopoOrder, VertexMin, Grouped, OwnReady, SweepReady, GridUpTo;
    best, least := own, vertexMin;
    GroupMembers(C, scc);
    var list := VerticesOf(C.G, C.groups[scc]);
    GroupVertex(C, scc, list);
    PassTwoStart(C, pool, rows, own, vertexMin, scc);
    for i := 0 to |list|
      invariant PassTwo(C, pool, rows, own, best, vertexMin, least, scc, list[..i])
    {
      var v := list[i];
      assert v !in list[..i];
      assert list[..i + 1] == list[..i] + [v];
      ghost var best0 := best;
      PassTwoReady(C, pool, rows, own, best, vertexMin, least, scc, list[..i], v);
      best := Propagate(C, pool, rows, best, scc, v);
      var x := MinOverVertex(C.P, C.G, best, v);
      PassTwoStep(C, pool, rows, own, best0, best, vertexMin, least, scc, list[..i], v, x);
      least := least[v := x];
    }
    assert list[..|list|] == list;
    verts := list;
  }

  /** update_c_best: the components processed so far get the exact prefix minima, the vertices their minima. */
  method UpdateCBest<S(!new)>(C: Setup<S>, pool: seq<Label<S>>, rows: seq<Row>, cBest: seq<Bound>,
                              vertexMin: seq<Bound>, scc: nat)
    returns (best: seq<Bound>, least: seq<Bound>)
    requires SetupOk(C) && scc < C.count && BoundsOk(C, pool, rows, cBest, vertexMin, scc + 1)
    requires forall b: nat :: b < |rows| ==> RowOk(C.P, pool, rows[b])
    ensures BoundsOk(C, pool, rows, best, least, scc)
  {
    hide PrefixMin, OwnMin, Disposable, TopoOrder, VertexMin, RowOk, Grouped;
    var own := OwnMinima(C, pool, rows, cBest, scc);
    var verts;
    best, least, verts := PropagateAll(C, pool, rows, own, vertexMin, scc);
    forall v: nat | v < C.P.nVertices ensures VertexMin(C.G, best, v, least[v]) {
      if v !in verts {
        VertexMinKept(C.G, cBest, best, v, least[v]);
      }
    }
  }

  lemma VertexMinKept(G: Grid, before: seq<Bound>, best: seq<Bound>, v: nat, x: Bound)
    requires |before| == |best| == |G.buckets| && VertexMin(G, before, v, x)
    requires forall b: nat :: b < |best| && G.buckets[b].vertex == v ==> best[b] == before[b]
    ensures VertexMin(G, best, v, x)
  {
  }

  // ----- The bounds during labeling -----

  lemma BoundsSizes<S(!new)>(C: Setup<S>, pool: seq<Label<S>>, rows: seq<Row>, cBest: seq<Bound>,
                             vertexMin: seq<Bound>, level: int)
    requires SetupOk(C) && BoundsOk(C, pool, rows, cBest, vertexMin, level)
    ensures |rows| == |cBest| == |C.G.buckets| && |vertexMin| == C.P.nVertices
  {
  }

  /** Labeling component scc and compacting it leaves the bounds of the components before it exact. */
  lemma BoundsKept<S(!new)>(C: Setup<S>, s: Store<S>, t: Store<S>, scc: nat, cBest: seq<Bound>, vertexMin: seq<Bound>)
    requires SetupOk(C) && StoreOk(C, s) && StoreOk(C, t) && Progress(C, s, t, scc)
    requires BoundsOk(C, s.pool, s.rows, cBest, vertexMin, scc + 1)
    ensures BoundsOk(C, t.pool, t.rows, cBest, vertexMin, scc + 1)
  {
    hide Covered, VertexMin, Disposable, Grouped;
    forall b: nat | b < |cBest| && C.id[b] >= scc + 1 ensures PrefixMin(C, t.pool, t.rows, b, cBest[b]) {
      var x := cBest[b];
      assert PrefixMin(C, s.pool, s.rows, b, x);
      forall o: nat | Beyond(C.P, C.G, C.dir, o, b) ensures LowerAt(t.pool, t.rows[o], x) {
        RowUnchanged(C, s, t, scc, o, b);
      }
      if x.Fin? {
        var o: nat :| Beyond(C.P, C.G, C.dir, o, b) && AttainedAt(s.pool, s.rows[o], x.val);
        RowUnchanged(C, s, t, scc, o, b);
      }
    }
  }

  lemma RowUnchanged<S(!new)>(C: Setup<S>, s: Store<S>, t: Store<S>, scc: nat, o: nat, b: nat)
    requires SetupOk(C) && StoreOk(C, s) && StoreOk(C, t) && Progress(C, s, t, scc)
    requires Beyond(C.P, C.G, C.dir, o, b) && C.id[b] >= scc + 1
    ensures t.rows[o] == s.rows[o] && forall k: nat :: k in s.rows[o].ids ==> k < |s.pool| && t.pool[k] == s.pool[k]
  {
    hide Covered, Disposable, Grouped;
    assert C.id[b] <= C.id[o];
    assert RowKept(C, s, t, scc, o) && RowIn(C, s, o);
    forall k: nat | k in s.rows[o].ids ensures k < |s.pool| && t.pool[k] == s.pool[k] {
      assert k < |s.pool| && SameLabel(s, t, k);
    }
  }
}
