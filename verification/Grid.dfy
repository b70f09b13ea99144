/**
 * The bucket grid: each vertex's resource window is cut into cells (build_buckets,
 * vertex_bucket_index, vertex_bucket_range, build_bucket_arcs).
 */
module Grids {
  import opened Types
  import opened Problems

  // ----- One dimension -----

  function Ceil(x: real): int { -((-x).Floor) }

  /** The conversion from double to int, which drops the fraction. */
  function Trunc(x: real): int { if x >= 0.0 then x.Floor else Ceil(x) }

  /** Number of cells of width w that cover the window [lo, hi]. */
  function Cells(lo: real, hi: real, w: real): (n: nat)
    requires w > 0.0
    ensures n >= 1
  {
    var c := Ceil((hi - lo) / w);
    if c < 1 then 1 else c
  }

  /** The cell that q falls into, clamped to the grid. */
  function Cell(lo: real, hi: real, w: real, q: real): (k: nat)
    requires w > 0.0
    ensures k < Cells(lo, hi, w)
  {
    var t := Trunc((q - lo) / w);
    var n := Cells(lo, hi, w);
    var k := if t < n - 1 then t else n - 1;
    if k < 0 then 0 else k
  }

  function CellLb(lo: real, w: real, k: nat): real { lo + k as real * w }

  function CellUb(lo: real, hi: real, w: real, k: nat): real { Min(CellLb(lo, w, k) + w, hi) }

  lemma DivMonotone(a: real, b: real, w: real)
    requires w > 0.0 && a <= b
    ensures a / w <= b / w
  {
    assert (a / w) * w == a && (b / w) * w == b;
  }

  lemma MulMonotone(a: real, b: real, w: real)
    requires w > 0.0 && a <= b
    ensures a * w <= b * w
  {
  }

  lemma CellMonotone(lo: real, hi: real, w: real, q: real, r: real)
    requires w > 0.0 && q <= r
    ensures Cell(lo, hi, w, q) <= Cell(lo, hi, w, r)
  {
    DivMonotone(q - lo, r - lo, w);
  }

  lemma CellBoundsMonotone(lo: real, hi: real, w: real, j: nat, k: nat)
    requires w > 0.0 && j <= k
    ensures CellLb(lo, w, j) <= CellLb(lo, w, k)
    ensures CellUb(lo, hi, w, j) <= CellUb(lo, hi, w, k)
  {
    MulMonotone(j as real, k as real, w);
  }

  lemma CellHoldsLb(lo: real, hi: real, w: real, q: real)
    requires w > 0.0 && lo <= q
    ensures CellLb(lo, w, Cell(lo, hi, w, q)) <= q
  {
    var x, k := (q - lo) / w, Cell(lo, hi, w, q);
    DivMonotone(0.0, q - lo, w);
    assert k as real <= x;
    MulMonotone(k as real, x, w);
    assert x * w == q - lo;
  }

  lemma CellHoldsUb(lo: real, hi: real, w: real, q: real)
    requires w > 0.0 && q <= hi
    ensures q <= CellUb(lo, hi, w, Cell(lo, hi, w, q))
  {
    var x, k := (q - lo) / w, Cell(lo, hi, w, q);
    InWidths(lo, w, q);
    InWidths(lo, w, hi);
    LbAgainst(lo, w, k + 1, x);
    LbAgainst(lo, w, k + 1, (hi - lo) / w);
    LbAgainst(lo, w, k, x);
    CellsAgainst(lo, hi, w);
    hide CellLb, Cells;
    assert k + 1 < Cells(lo, hi, w) ==> x <= (k + 1) as real;
  }

  lemma MulStrict(a: real, b: real, w: real)
    requires w > 0.0 && a < b
    ensures a * w < b * w
  {
    assert (b - a) * w > 0.0;
  }

  /** The lower bound of cell k is x widths into the window, compared with y widths. */
  lemma LbAgainst(lo: real, w: real, k: nat, y: real)
    requires w > 0.0
    ensures k as real <= y ==> CellLb(lo, w, k) <= lo + y * w
    ensures k as real < y ==> CellLb(lo, w, k) < lo + y * w
    ensures y <= k as real ==> lo + y * w <= CellLb(lo, w, k)
    ensures y < k as real ==> lo + y * w < CellLb(lo, w, k)
    ensures CellLb(lo, w, k + 1) == CellLb(lo, w, k) + w
  {
    var z := k as real;
    if z < y { MulStrict(z, y, w); }
    if y < z { MulStrict(y, z, w); }
    assert (k + 1) as real * w == z * w + w;
  }

  lemma InWidths(lo: real, w: real, q: real)
    requires w > 0.0
    ensures lo + ((q - lo) / w) * w == q
  {
  }

  /** The cells of a window meet without gap or overlap: from its lower end to its upper end. */
  lemma CellsTile(lo: real, hi: real, w: real, k: nat)
    requires w > 0.0 && k < Cells(lo, hi, w)
    ensures CellLb(lo, w, 0) == lo
    ensures k + 1 < Cells(lo, hi, w) ==> CellUb(lo, hi, w, k) == CellLb(lo, w, k + 1) < hi
    ensures k + 1 == Cells(lo, hi, w) ==> CellUb(lo, hi, w, k) == hi
  {
    var y := (hi - lo) / w;
    InWidths(lo, w, hi);
    LbAgainst(lo, w, k + 1, y);
    LbAgainst(lo, w, k, y);
    CellsAgainst(lo, hi, w);
    hide CellLb, Cells;
    assert k + 1 < Cells(lo, hi, w) ==> ((k + 1) as real) < y;
    assert k + 1 == Cells(lo, hi, w) ==> y <= ((k + 1) as real);
  }

  /** The number of cells is the least that is not below the number of widths, and at least one. */
  lemma CellsAgainst(lo: real, hi: real, w: real)
    requires w > 0.0
    ensures (hi - lo) / w <= Cells(lo, hi, w) as real
    ensures Cells(lo, hi, w) > 1 ==> (Cells(lo, hi, w) - 1) as real < (hi - lo) / w
    ensures CellLb(lo, w, 0) == lo
  {
  }

  // ----- Two dimensions -----

  datatype Bucket = Bucket(vertex: nat, lb: Vec, ub: Vec)

  /** start, nx and ny hold vertex_bucket_start_ and vertex_n_buckets_. */
  datatype Grid = Grid(width: nat -> Vec, start: seq<nat>, nx: seq<nat>, ny: seq<nat>, buckets: seq<Bucket>)

  ghost predicate Widths<S>(P: Problem<S>, width: nat -> Vec) {
    forall v: nat :: v < P.nVertices ==> width(v).x > 0.0 && width(v).y > 0.0
  }

  function CellsX<S>(P: Problem<S>, width: nat -> Vec, v: nat): (n: nat)
    requires width(v).x > 0.0
    ensures n >= 1
  {
    Cells(P.lb(v).x, P.ub(v).x, width(v).x)
  }

  function CellsY<S>(P: Problem<S>, width: nat -> Vec, v: nat): (n: nat)
    requires width(v).y > 0.0
    ensures n >= 1
  {
    Cells(P.lb(v).y, P.ub(v).y, width(v).y)
  }

  function BucketAt<S>(P: Problem<S>, width: nat -> Vec, v: nat, kx: nat, ky: nat): Bucket {
    var w := width(v);
    Bucket(v, Vec(CellLb(P.lb(v).x, w.x, kx), CellLb(P.lb(v).y, w.y, ky)),
           Vec(CellUb(P.lb(v).x, P.ub(v).x, w.x, kx), CellUb(P.lb(v).y, P.ub(v).y, w.y, ky)))
  }

  /** The i-th cell of v when each of its rows has m cells. */
  function CellBucket<S>(P: Problem<S>, width: nat -> Vec, v: nat, m: nat, i: nat): Bucket
    requires m >= 1
  {
    BucketAt(P, width, v, i / m, i % m)
  }

  function RangeEnd(G: Grid, v: nat): nat
    requires v < |G.start| && v < |G.nx| && v < |G.ny|
  {
    G.start[v] + G.nx[v] * G.ny[v]
  }

  ghost predicate BucketOk<S>(P: Problem<S>, G: Grid, n: nat, b: nat)
    requires |G.start| == |G.nx| == |G.ny| == n
    requires b < |G.buckets|
  {
    var v := G.buckets[b].vertex;
    && v < n && G.ny[v] >= 1
    && G.start[v] <= b < RangeEnd(G, v)
    && G.buckets[b] == CellBucket(P, G.width, v, G.ny[v], b - G.start[v])
  }

  ghost predicate RangeOk<S>(P: Problem<S>, G: Grid, n: nat, v: nat)
    requires |G.start| == |G.nx| == |G.ny| == n <= P.nVertices && Widths(P, G.width)
    requires v < n
  {
    && G.nx[v] == CellsX(P, G.width, v)
    && G.ny[v] == CellsY(P, G.width, v)
    && RangeEnd(G, v) <= |G.buckets|
    && (v + 1 < n ==> RangeEnd(G, v) == G.start[v + 1])
    && (forall b: nat :: G.start[v] <= b < RangeEnd(G, v) ==> G.buckets[b].vertex == v)
  }

  /** The buckets of the vertices below n are laid out one vertex after the other. */
  ghost predicate GridUpTo<S>(P: Problem<S>, G: Grid, n: nat) {
    && |G.start| == |G.nx| == |G.ny| == n <= P.nVertices
    && Widths(P, G.width)
    && (forall b: nat :: b < |G.buckets| ==> BucketOk(P, G, n, b))
    && (forall v: nat :: v < n ==> RangeOk(P, G, n, v))
    && (if n == 0 then G.buckets == [] else G.start[0] == 0 && RangeEnd(G, n - 1) == |G.buckets|)
  }

  ghost predicate ValidGrid<S>(P: Problem<S>, G: Grid) {
    GridUpTo(P, G, P.nVertices)
  }

  lemma IndexInRange(nx: nat, ny: nat, kx: nat, ky: nat)
    requires kx < nx && ky < ny
    ensures kx * ny + ky < nx * ny
  {
    assert (kx + 1) * ny <= nx * ny;
  }

  lemma IndexDecode(ny: nat, kx: nat, ky: nat)
    requires ky < ny
    ensures (kx * ny + ky) / ny == kx && (kx * ny + ky) % ny == ky
  {
    var n := kx * ny + ky;
    var q, r := n / ny, n % ny;
    assert n == q * ny + r;
    assert q < kx ==> (q + 1) * ny <= kx * ny;
    assert q > kx ==> (kx + 1) * ny <= q * ny;
  }

  lemma CoordinateInRange(nx: nat, ny: nat, i: nat)
    requires i < nx * ny && ny >= 1
    ensures i / ny < nx && i % ny < ny && i == (i / ny) * ny + i % ny
  {
    var k := i / ny;
    assert k >= nx ==> k * ny >= nx * ny;
  }

  /** build_buckets. */
  method BuildBuckets<S>(P: Problem<S>, width: nat -> Vec) returns (G: Grid)
    requires Widths(P, width)
    ensures ValidGrid(P, G) && G.width == width
  {
    G := Grid(width, [], [], [], []);
    for v := 0 to P.nVertices
      invariant GridUpTo(P, G, v) && G.width == width
    {
      var cells := AddVertex(P, width, v);
      ghost var G0 := G;
      G := Grid(width, G.start + [|G.buckets|], G.nx + [CellsX(P, width, v)], G.ny + [CellsY(P, width, v)],
                G.buckets + cells);
      VertexAdded(P, G0, G, v, cells);
    }
  }

  lemma VertexAdded<S>(P: Problem<S>, G0: Grid, G: Grid, v: nat, cells: seq<Bucket>)
    requires GridUpTo(P, G0, v) && v < P.nVertices
    requires |cells| == CellsX(P, G0.width, v) * CellsY(P, G0.width, v)
    requires forall i: nat :: i < |cells| ==> cells[i] == CellBucket(P, G0.width, v, CellsY(P, G0.width, v), i)
    requires G == Grid(G0.width, G0.start + [|G0.buckets|], G0.nx + [CellsX(P, G0.width, v)],
                       G0.ny + [CellsY(P, G0.width, v)], G0.buckets + cells)
    ensures GridUpTo(P, G, v + 1)
  {
    assert forall u: nat :: u < v ==> RangeEnd(G, u) == RangeEnd(G0, u);
    assert RangeEnd(G, v) == |G.buckets|;
    var n := v + 1;
    forall b: nat | b < |G.buckets| ensures BucketOk(P, G, n, b) {
      if b < |G0.buckets| {
        assert BucketOk(P, G0, v, b);
      } else {
        assert G.buckets[b] == cells[b - |G0.buckets|];
      }
    }
    forall u: nat | u < n ensures RangeOk(P, G, n, u) {
      if u < v {
        assert RangeOk(P, G0, v, u);
      }
    }
  }

  /** The inner loops of build_buckets: the cells of one vertex, row by row. */
  method AddVertex<S>(P: Problem<S>, width: nat -> Vec, v: nat) returns (cells: seq<Bucket>)
    requires width(v).x > 0.0 && width(v).y > 0.0
    ensures |cells| == CellsX(P, width, v) * CellsY(P, width, v)
    ensures forall i: nat :: i < |cells| ==> cells[i] == CellBucket(P, width, v, CellsY(P, width, v), i)
  {
    cells := [];
    var n, m := CellsX(P, width, v), CellsY(P, width, v);
    for kx := 0 to n
      invariant |cells| == kx * m
      invariant forall i: nat :: i < |cells| ==> cells[i] == CellBucket(P, width, v, m, i)
    {
      ghost var row := |cells|;
      for ky := 0 to m
        invariant |cells| == row + ky
        invariant forall i: nat :: i < |cells| ==> cells[i] == CellBucket(P, width, v, m, i)
      {
        IndexDecode(m, kx, ky);
        cells := cells + [BucketAt(P, width, v, kx, ky)];
      }
      assert (kx + 1) * m == kx * m + m;
    }
  }

  // ----- Looking up buckets -----

  /** Row and column of a bucket inside its vertex. */
  function Kx(G: Grid, b: nat): int
    requires b < |G.buckets| && G.buckets[b].vertex < |G.start| && G.buckets[b].vertex < |G.ny|
    requires G.ny[G.buckets[b].vertex] >= 1
  {
    (b - G.start[G.buckets[b].vertex]) / G.ny[G.buckets[b].vertex]
  }

  function Ky(G: Grid, b: nat): int
    requires b < |G.buckets| && G.buckets[b].vertex < |G.start| && G.buckets[b].vertex < |G.ny|
    requires G.ny[G.buckets[b].vertex] >= 1
  {
    (b - G.start[G.buckets[b].vertex]) % G.ny[G.buckets[b].vertex]
  }

  /** The bucket of v in row kx and column ky. */
  function CellIndex(G: Grid, v: nat, kx: nat, ky: nat): nat
    requires v < |G.start| && v < |G.ny|
  {
    G.start[v] + kx * G.ny[v] + ky
  }

  /** vertex_bucket_index. */
  function BucketIndex<S>(P: Problem<S>, G: Grid, v: nat, q: Vec): nat
    requires v < |G.start| && v < |G.ny|
    requires G.width(v).x > 0.0 && G.width(v).y > 0.0
  {
    var w := G.width(v);
    CellIndex(G, v, Cell(P.lb(v).x, P.ub(v).x, w.x, q.x), Cell(P.lb(v).y, P.ub(v).y, w.y, q.y))
  }

  lemma BucketFacts<S>(P: Problem<S>, G: Grid, b: nat)
    requires ValidGrid(P, G) && b < |G.buckets|
    ensures var v := G.buckets[b].vertex;
            && v < P.nVertices && G.ny[v] >= 1 && G.width(v).x > 0.0 && G.width(v).y > 0.0
            && G.start[v] <= b < RangeEnd(G, v) <= |G.buckets|
            && 0 <= Kx(G, b) < G.nx[v] && 0 <= Ky(G, b) < G.ny[v]
            && b == CellIndex(G, v, Kx(G, b), Ky(G, b))
            && G.buckets[b] == BucketAt(P, G.width, v, Kx(G, b), Ky(G, b))
  {
    assert BucketOk(P, G, P.nVertices, b);
    var v := G.buckets[b].vertex;
    assert RangeOk(P, G, P.nVertices, v);
    CoordinateInRange(G.nx[v], G.ny[v], b - G.start[v]);
  }

  lemma IndexFacts<S>(P: Problem<S>, G: Grid, v: nat, kx: nat, ky: nat)
    requires ValidGrid(P, G) && v < P.nVertices && kx < G.nx[v] && ky < G.ny[v]
    ensures var b := CellIndex(G, v, kx, ky);
            && G.start[v] <= b < RangeEnd(G, v) <= |G.buckets| && G.buckets[b].vertex == v
            && Kx(G, b) == kx && Ky(G, b) == ky
  {
    assert RangeOk(P, G, P.nVertices, v);
    IndexInRange(G.nx[v], G.ny[v], kx, ky);
    IndexDecode(G.ny[v], kx, ky);
  }

  /** The bucket found for q is a bucket of v with q's cell coordinates. */
  lemma BucketIndexFacts<S>(P: Problem<S>, G: Grid, v: nat, q: Vec)
    requires ValidGrid(P, G) && v < P.nVertices
    ensures G.width(v).x > 0.0 && G.width(v).y > 0.0
    ensures var b := BucketIndex(P, G, v, q);
            && b < |G.buckets| && G.buckets[b].vertex == v && G.ny[v] >= 1
            && Kx(G, b) == Cell(P.lb(v).x, P.ub(v).x, G.width(v).x, q.x)
            && Ky(G, b) == Cell(P.lb(v).y, P.ub(v).y, G.width(v).y, q.y)
  {
    assert RangeOk(P, G, P.nVertices, v);
    IndexFacts(P, G, v, Cell(P.lb(v).x, P.ub(v).x, G.width(v).x, q.x), Cell(P.lb(v).y, P.ub(v).y, G.width(v).y, q.y));
  }

  /** c is at the same vertex as b and no closer to the start of the direction in either dimension. */
  ghost predicate Beyond<S>(P: Problem<S>, G: Grid, dir: Direction, b: nat, c: nat)
    requires ValidGrid(P, G)
  {
    && b < |G.buckets| && c < |G.buckets|
    && G.buckets[b].vertex == G.buckets[c].vertex
    && BucketOk(P, G, P.nVertices, b) && BucketOk(P, G, P.nVertices, c)
    && (if dir.Forward? then Kx(G, b) <= Kx(G, c) && Ky(G, b) <= Ky(G, c)
        else Kx(G, c) <= Kx(G, b) && Ky(G, c) <= Ky(G, b))
  }

  lemma BeyondOrder<S>(P: Problem<S>, G: Grid, dir: Direction, b: nat, c: nat, d: nat)
    requires ValidGrid(P, G) && b < |G.buckets|
    ensures Beyond(P, G, dir, b, b)
    ensures Beyond(P, G, dir, b, c) && Beyond(P, G, dir, c, d) ==> Beyond(P, G, dir, b, d)
    ensures Beyond(P, G, dir, b, c) && Beyond(P, G, dir, c, b) ==> b == c
  {
    assert BucketOk(P, G, P.nVertices, b);
    BucketFacts(P, G, b);
    if Beyond(P, G, dir, b, c) {
      BucketFacts(P, G, c);
    }
  }

  /** The corner of a bucket from which extension is least constrained. */
  function Corner(dir: Direction, b: Bucket): Vec { if dir.Forward? then b.lb else b.ub }

  predicate Ahead(dir: Direction, q: Vec, r: Vec) { if dir.Forward? then q.AtMost(r) else r.AtMost(q) }

  /** Labels never leave the window of their vertex on the side they come from. */
  predicate Anchored<S>(P: Problem<S>, dir: Direction, v: nat, q: Vec) {
    if dir.Forward? then P.lb(v).AtMost(q) else q.AtMost(P.ub(v))
  }

  lemma BucketHolds<S>(P: Problem<S>, G: Grid, dir: Direction, v: nat, q: Vec)
    requires ValidGrid(P, G) && v < P.nVertices && Anchored(P, dir, v, q)
    ensures G.width(v).x > 0.0 && G.width(v).y > 0.0
    ensures BucketIndex(P, G, v, q) < |G.buckets|
    ensures Ahead(dir, Corner(dir, G.buckets[BucketIndex(P, G, v, q)]), q)
  {
    BucketIndexFacts(P, G, v, q);
    var b := BucketIndex(P, G, v, q);
    BucketFacts(P, G, b);
    var w := G.width(v);
    if dir.Forward? {
      CellHoldsLb(P.lb(v).x, P.ub(v).x, w.x, q.x);
      CellHoldsLb(P.lb(v).y, P.ub(v).y, w.y, q.y);
    } else {
      CellHoldsUb(P.lb(v).x, P.ub(v).x, w.x, q.x);
      CellHoldsUb(P.lb(v).y, P.ub(v).y, w.y, q.y);
    }
  }

  lemma BucketMonotone<S>(P: Problem<S>, G: Grid, dir: Direction, v: nat, q: Vec, r: Vec)
    requires ValidGrid(P, G) && v < P.nVertices && Ahead(dir, q, r)
    ensures G.width(v).x > 0.0 && G.width(v).y > 0.0
    ensures Beyond(P, G, dir, BucketIndex(P, G, v, q), BucketIndex(P, G, v, r))
  {
    BucketIndexFacts(P, G, v, q);
    BucketIndexFacts(P, G, v, r);
    assert BucketOk(P, G, P.nVertices, BucketIndex(P, G, v, q)) && BucketOk(P, G, P.nVertices, BucketIndex(P, G, v, r));
    var w := G.width(v);
    if dir.Forward? {
      CellMonotone(P.lb(v).x, P.ub(v).x, w.x, q.x, r.x);
      CellMonotone(P.lb(v).y, P.ub(v).y, w.y, q.y, r.y);
    } else {
      CellMonotone(P.lb(v).x, P.ub(v).x, w.x, r.x, q.x);
      CellMonotone(P.lb(v).y, P.ub(v).y, w.y, r.y, q.y);
    }
  }

  /** Buckets next to each other meet, and the outermost ones end with the window of the vertex. */
  lemma BucketsTile<S>(P: Problem<S>, G: Grid, v: nat, kx: nat, ky: nat)
    requires ValidGrid(P, G) && v < P.nVertices && kx < G.nx[v] && ky < G.ny[v]
    ensures CellIndex(G, v, kx, ky) < |G.buckets|
    ensures var b := G.buckets[CellIndex(G, v, kx, ky)];
            && b.vertex == v
            && (kx == 0 ==> b.lb.x == P.lb(v).x) && (kx + 1 == G.nx[v] ==> b.ub.x == P.ub(v).x)
            && (ky == 0 ==> b.lb.y == P.lb(v).y) && (ky + 1 == G.ny[v] ==> b.ub.y == P.ub(v).y)
    ensures var b := G.buckets[CellIndex(G, v, kx, ky)];
            && (kx + 1 < G.nx[v] ==> CellIndex(G, v, kx + 1, ky) < |G.buckets|
                                     && G.buckets[CellIndex(G, v, kx + 1, ky)].lb.x == b.ub.x)
            && (ky + 1 < G.ny[v] ==> CellIndex(G, v, kx, ky + 1) < |G.buckets|
                                     && G.buckets[CellIndex(G, v, kx, ky + 1)].lb.y == b.ub.y)
  {
    hide CellUb, CellLb, Cells, CellIndex;
    CellAt(P, G, v, kx, ky);
    CellsTile(P.lb(v).x, P.ub(v).x, G.width(v).x, kx);
    CellsTile(P.lb(v).y, P.ub(v).y, G.width(v).y, ky);
    if kx + 1 < G.nx[v] { CellAt(P, G, v, kx + 1, ky); }
    if ky + 1 < G.ny[v] { CellAt(P, G, v, kx, ky + 1); }
  }

  lemma CellAt<S>(P: Problem<S>, G: Grid, v: nat, kx: nat, ky: nat)
    requires ValidGrid(P, G) && v < P.nVertices && kx < G.nx[v] && ky < G.ny[v]
    ensures G.width(v).x > 0.0 && G.width(v).y > 0.0
    ensures G.nx[v] == Cells(P.lb(v).x, P.ub(v).x, G.width(v).x) && G.ny[v] == Cells(P.lb(v).y, P.ub(v).y, G.width(v).y)
    ensures CellIndex(G, v, kx, ky) < |G.buckets|
    ensures G.buckets[CellIndex(G, v, kx, ky)] == BucketAt(P, G.width, v, kx, ky)
  {
    assert RangeOk(P, G, P.nVertices, v);
    IndexFacts(P, G, v, kx, ky);
    BucketFacts(P, G, CellIndex(G, v, kx, ky));
  }

  /** t lies between lo and up, the far end belonging to the cell only where the window ends. */
  predicate InCell(lo: real, up: real, end: real, t: real) { lo <= t && (t < up || t == up == end) }

  /** Bucket c is the one of v that q lies in. */
  predicate InBucket<S>(P: Problem<S>, G: Grid, v: nat, q: Vec, c: nat) {
    && c < |G.buckets| && G.buckets[c].vertex == v
    && InCell(G.buckets[c].lb.x, G.buckets[c].ub.x, P.ub(v).x, q.x)
    && InCell(G.buckets[c].lb.y, G.buckets[c].ub.y, P.ub(v).y, q.y)
  }

  /** Of the cells of a window just the one that is computed holds a value. */
  lemma CellIsUnique(lo: real, hi: real, w: real, q: real, k: nat)
    requires w > 0.0 && lo <= q <= hi && k < Cells(lo, hi, w)
    ensures InCell(CellLb(lo, w, k), CellUb(lo, hi, w, k), hi, q) <==> k == Cell(lo, hi, w, q)
  {
    hide CellUb, CellLb, Cells, Cell;
    var c := Cell(lo, hi, w, q);
    CellHoldsLb(lo, hi, w, q);
    CellHoldsUb(lo, hi, w, q);
    CellsTile(lo, hi, w, c);
    CellsTile(lo, hi, w, k);
    if k < c {
      CellBoundsMonotone(lo, hi, w, k + 1, c);
    } else if c < k {
      CellBoundsMonotone(lo, hi, w, c + 1, k);
    }
    if c + 1 < Cells(lo, hi, w) { CellEndsBefore(lo, hi, w, q); }
  }

  lemma CellEndsBefore(lo: real, hi: real, w: real, q: real)
    requires w > 0.0 && lo <= q <= hi && Cell(lo, hi, w, q) + 1 < Cells(lo, hi, w)
    ensures q < CellUb(lo, hi, w, Cell(lo, hi, w, q))
  {
    var x, k := (q - lo) / w, Cell(lo, hi, w, q);
    CellOfQuotient(lo, hi, w, q);
    CellsTile(lo, hi, w, k);
    InWidths(lo, w, q);
    LbAgainst(lo, w, k + 1, x);
    hide Cell, Cells, CellUb, CellLb;
    assert lo + x * w == q;
  }

  lemma CellOfQuotient(lo: real, hi: real, w: real, q: real)
    requires w > 0.0 && lo <= q <= hi && Cell(lo, hi, w, q) + 1 < Cells(lo, hi, w)
    ensures (q - lo) / w < (Cell(lo, hi, w, q) + 1) as real
  {
    DivMonotone(0.0, q - lo, w);
  }

  /** vertex_bucket_index finds the one bucket of the vertex that a vector inside the window lies in. */
  lemma BucketIsUnique<S>(P: Problem<S>, G: Grid, v: nat, q: Vec, c: nat)
    requires ValidGrid(P, G) && v < P.nVertices && P.lb(v).AtMost(q) && q.AtMost(P.ub(v))
    ensures G.width(v).x > 0.0 && G.width(v).y > 0.0
    ensures InBucket(P, G, v, q, c) <==> c == BucketIndex(P, G, v, q)
  {
    hide BucketOk, RangeOk, CellUb, CellLb, Cells, Cell, InCell, CellIndex;
    BucketIndexFacts(P, G, v, q);
    if c < |G.buckets| && G.buckets[c].vertex == v {
      BucketFacts(P, G, c);
      CellAt(P, G, v, Kx(G, c), Ky(G, c));
      CellIsUnique(P.lb(v).x, P.ub(v).x, G.width(v).x, q.x, Kx(G, c));
      CellIsUnique(P.lb(v).y, P.ub(v).y, G.width(v).y, q.y, Ky(G, c));
      BucketFacts(P, G, BucketIndex(P, G, v, q));
    }
  }
}
