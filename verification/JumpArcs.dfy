/** Jump arcs: the Pareto front of the buckets that still have a missing arc (obtain_jump_arcs). */
module JumpArcSearch {
  import opened Types
  import opened Resources
  import opened Grids
  import opened BucketArcs
  import opened BucketOrder
  import opened Sorting
  import opened LabelingSpec
  import opened Exactness

  // ----- What jump arcs are -----

  /** Bucket c comes after b at the same vertex and has arc a. */
  ghost predicate Successor<S>(C: Setup<S>, b: nat, a: nat, c: nat)
    requires Ready(C.P, C.G) && |C.arcs| == |C.G.buckets|
  {
    Beyond(C.P, C.G, C.dir, b, c) && c != b && HasArc(C, c, a)
  }

  /** c is such a bucket, and no other one comes before it in both dimensions. */
  ghost predicate OnFront<S>(C: Setup<S>, b: nat, a: nat, c: nat)
    requires Ready(C.P, C.G) && |C.arcs| == |C.G.buckets|
  {
    Successor(C, b, a, c) && forall d: nat :: Successor(C, b, a, d) && Beyond(C.P, C.G, C.dir, d, c) ==> d == c
  }

  /** The jump arcs of b are exactly the fronts of the arcs it lacks. */
  ghost predicate JumpsOf<S>(C: Setup<S>, b: nat, list: seq<JumpArc>)
    requires Ready(C.P, C.G) && |C.arcs| == |C.G.buckets|
  {
    forall j :: j in list <==> JumpsTo(C, b, j)
  }

  ghost predicate JumpsTo<S>(C: Setup<S>, b: nat, j: JumpArc)
    requires Ready(C.P, C.G) && |C.arcs| == |C.G.buckets|
  {
    b < |C.arcs| && b !in C.fixed && !HasArc(C, b, j.arc) && OnFront(C, b, j.arc, j.jumpBucket)
  }

  /** The jump arcs are those obtain_jump_arcs finds. */
  ghost predicate JumpsExact<S>(C: Setup<S>)
    requires Ready(C.P, C.G) && |C.arcs| == |C.jumps| == |C.G.buckets|
  {
    forall b: nat :: b < |C.jumps| ==> JumpsOf(C, b, C.jumps[b])
  }

  /** Every successor is covered by one on the front. */
  lemma {:induction false} FrontCovers<S>(C: Setup<S>, b: nat, a: nat, d: nat) returns (c: nat)
    requires Ready(C.P, C.G) && |C.arcs| == |C.G.buckets| && Successor(C, b, a, d)
    ensures OnFront(C, b, a, c) && Beyond(C.P, C.G, C.dir, c, d)
    decreases FromCorner(C, b, d)
  {
    hide BucketOk, RangeOk;
    BeyondOrder(C.P, C.G, C.dir, d, d, d);
    if e: nat :| Successor(C, b, a, e) && Beyond(C.P, C.G, C.dir, e, d) && e != d {
      Closer(C, b, e, d);
      c := FrontCovers(C, b, a, e);
      BeyondOrder(C.P, C.G, C.dir, c, e, d);
    } else {
      c := d;
    }
  }

  ghost function FromCorner<S>(C: Setup<S>, b: nat, d: nat): nat
    requires Ready(C.P, C.G) && Beyond(C.P, C.G, C.dir, b, d)
  {
    BucketFacts(C.P, C.G, b);
    BucketFacts(C.P, C.G, d);
    Gap(C.G, C.dir, b, d)
  }

  lemma Closer<S>(C: Setup<S>, b: nat, e: nat, d: nat)
    requires Ready(C.P, C.G) && Beyond(C.P, C.G, C.dir, b, e) && Beyond(C.P, C.G, C.dir, b, d)
             && Beyond(C.P, C.G, C.dir, e, d) && e != d
    ensures FromCorner(C, b, e) < FromCorner(C, b, d)
  {
    BucketFacts(C.P, C.G, e);
    BucketFacts(C.P, C.G, d);
    BucketFacts(C.P, C.G, b);
  }

  // ----- The inverted index -----

  ghost predicate Increasing(s: seq<nat>) {
    forall i: nat, j: nat :: i < j < |s| ==> s[i] < s[j]
  }

  /** index[a] lists in order the buckets below n that have arc a. */
  ghost predicate IndexUpTo<S>(C: Setup<S>, index: seq<seq<nat>>, n: nat)
    requires n <= |C.arcs|
  {
    && |index| == C.P.nArcs
    && (forall a: nat :: a < |index| ==> Increasing(index[a]))
    && (forall a: nat, b: nat {:trigger b in index[a]} :: a < |index| ==> (b in index[a] <==> b < n && HasArc(C, b, a)))
  }

  /** What the loop has added to the index for the arcs of bucket n seen so far. */
  ghost predicate IndexAt<S>(C: Setup<S>, index: seq<seq<nat>>, n: nat, seen: seq<BucketArc>)
    requires n < |C.arcs|
  {
    && |index| == C.P.nArcs
    && (forall a: nat :: a < |index| ==> Increasing(index[a]))
    && (forall a: nat, b: nat {:trigger b in index[a]} :: a < |index| ==>
          (b in index[a] <==> (b < n && HasArc(C, b, a)) || (b == n && exists e :: e in seen && e.arc == a)))
  }

  ghost predicate ArcsInRange<S>(C: Setup<S>) {
    forall b: nat, e: BucketArc :: b < |C.arcs| && e in C.arcs[b] ==> e.arc < C.P.nArcs
  }

  ghost predicate ArcsOrdered<S>(C: Setup<S>) {
    forall b: nat :: b < |C.arcs| ==> ArcOrder(C.arcs[b])
  }

  /** The inverted index from arcs to buckets. */
  method BuildIndex<S>(C: Setup<S>) returns (index: seq<seq<nat>>)
    requires ArcsInRange(C) && ArcsOrdered(C)
    ensures IndexUpTo(C, index, |C.arcs|)
  {
    hide HasArc;
    index := seq(C.P.nArcs, a => []);
    for n := 0 to |C.arcs|
      invariant IndexUpTo(C, index, n)
    {
      IndexStart(C, index, n);
      for i := 0 to |C.arcs[n]|
        invariant IndexAt(C, index, n, C.arcs[n][..i])
      {
        var e := C.arcs[n][i];
        assert e in C.arcs[n];
        ghost var before := index;
        index := index[e.arc := index[e.arc] + [n]];
        IndexStep(C, before, index, n, i);
      }
      IndexEnd(C, index, n);
    }
  }

  lemma IndexStart<S>(C: Setup<S>, index: seq<seq<nat>>, n: nat)
    requires n < |C.arcs| && IndexUpTo(C, index, n)
    ensures IndexAt(C, index, n, C.arcs[n][..0])
  {
  }

  lemma IndexStep<S>(C: Setup<S>, before: seq<seq<nat>>, index: seq<seq<nat>>, n: nat, i: nat)
    requires n < |C.arcs| && i < |C.arcs[n]| && IndexAt(C, before, n, C.arcs[n][..i]) && C.arcs[n][i].arc < C.P.nArcs
    requires ArcOrder(C.arcs[n]) && var x := C.arcs[n][i].arc; index == before[x := before[x] + [n]]
    ensures IndexAt(C, index, n, C.arcs[n][..i + 1])
  {
    hide HasArc;
    var e := C.arcs[n][i];
    var seen, more := C.arcs[n][..i], C.arcs[n][..i + 1];
    assert more == seen + [e];
    assert n !in before[e.arc];
    forall a: nat | a < |index| ensures Increasing(index[a]) {
      if a == e.arc {
        forall j: nat | j < |before[a]| ensures before[a][j] < n { assert before[a][j] in before[a]; }
      }
    }
    forall a: nat, b: nat | a < |index|
      ensures b in index[a] <==> (b < n && HasArc(C, b, a)) || (b == n && exists x :: x in more && x.arc == a)
    {
      assert b in before[a] <==> (b < n && HasArc(C, b, a)) || (b == n && exists x :: x in seen && x.arc == a);
      if a == e.arc { assert e in more; }
    }
  }

  lemma IndexEnd<S>(C: Setup<S>, index: seq<seq<nat>>, n: nat)
    requires n < |C.arcs| && IndexAt(C, index, n, C.arcs[n][..|C.arcs[n]|])
    ensures IndexUpTo(C, index, n + 1)
  {
    assert C.arcs[n][..|C.arcs[n]|] == C.arcs[n];
    forall a: nat, b: nat | a < |index| ensures b in index[a] <==> b < n + 1 && HasArc(C, b, a) {
      assert b in index[a] <==> (b < n && HasArc(C, b, a)) || (b == n && exists e :: e in C.arcs[n] && e.arc == a);
    }
  }

  /** std::binary_search. */
  method BinarySearch(s: seq<nat>, x: nat) returns (found: bool)
    requires Increasing(s)
    ensures found <==> x in s
  {
    var lo: nat, hi: nat := 0, |s|;
    while lo < hi
      invariant lo <= hi <= |s|
      invariant forall i: nat :: i < lo ==> s[i] < x
      invariant forall i: nat :: hi <= i < |s| ==> x < s[i]
    {
      var mid := (lo + hi) / 2;
      if s[mid] < x { lo := mid + 1; } else if x < s[mid] { hi := mid; } else { return true; }
    }
    return false;
  }

  // ----- Sort and sweep -----

  /** The successors of b with arc a, in index order. */
  method Successors<S>(C: Setup<S>, b: nat, a: nat, holders: seq<nat>) returns (found: seq<nat>)
    requires Ready(C.P, C.G) && |C.arcs| == |C.G.buckets| && b < |C.G.buckets|
    requires Increasing(holders) && forall c: nat :: c in holders <==> c < |C.arcs| && HasArc(C, c, a)
    ensures Increasing(found) && forall c: nat :: c in found <==> Successor(C, b, a, c)
  {
    hide HasArc, BucketOk, RangeOk;
    BucketFacts(C.P, C.G, b);
    var v := C.G.buckets[b].vertex;
    found := [];
    for i := 0 to |holders|
      invariant Increasing(found)
      invariant forall c: nat :: c in found <==> c in holders[..i] && Successor(C, b, a, c)
    {
      var c := holders[i];
      assert c in holders && holders[..i + 1] == holders[..i] + [c];
      BucketFacts(C.P, C.G, c);
      SameVertex(C, b, c);
      if c < C.G.start[v] || c >= RangeEnd(C.G, v) || c == b { continue; }
      var succeeds := if C.dir.Forward? then Kx(C.G, c) >= Kx(C.G, b) && Ky(C.G, c) >= Ky(C.G, b)
           && (Kx(C.G, c) > Kx(C.G, b) || Ky(C.G, c) > Ky(C.G, b))
                      else Kx(C.G, c) <= Kx(C.G, b) && Ky(C.G, c) <= Ky(C.G, b)
                           && (Kx(C.G, c) < Kx(C.G, b) || Ky(C.G, c) < Ky(C.G, b));
      SucceedsIff(C, b, c);
      if !succeeds { continue; }
      forall j: nat | j < |found| ensures found[j] < c {
        assert found[j] in found;
        var h :| 0 <= h < i && holders[h] == found[j];
      }
      found := found + [c];
    }
    assert holders[..|holders|] == holders;
  }

  lemma SameVertex<S>(C: Setup<S>, b: nat, c: nat)
    requires Ready(C.P, C.G) && b < |C.G.buckets| && c < |C.G.buckets|
    ensures var v := C.G.buckets[b].vertex;
            v < |C.G.start| && v < |C.G.nx| && v < |C.G.ny| && (C.G.buckets[c].vertex == v <==>
              C.G.start[v] <= c < RangeEnd(C.G, v))
  {
    BucketFacts(C.P, C.G, b);
    BucketFacts(C.P, C.G, c);
    assert RangeOk(C.P, C.G, C.P.nVertices, C.G.buckets[b].vertex);
  }

  lemma SucceedsIff<S>(C: Setup<S>, b: nat, c: nat)
    requires Ready(C.P, C.G) && b < |C.G.buckets| && c < |C.G.buckets|
             && C.G.buckets[c].vertex == C.G.buckets[b].vertex && c != b
    ensures var v := C.G.buckets[b].vertex;
            && v < |C.G.start| && v < |C.G.ny| && C.G.ny[v] >= 1
            && (Beyond(C.P, C.G, C.dir, b, c) <==>
                if C.dir.Forward? then Kx(C.G, c) >= Kx(C.G, b) && Ky(C.G, c) >= Ky(C.G, b)
                     && (Kx(C.G, c) > Kx(C.G, b) || Ky(C.G, c) > Ky(C.G, b))
                else Kx(C.G, c) <= Kx(C.G, b) && Ky(C.G, c) <= Ky(C.G, b)
                     && (Kx(C.G, c) < Kx(C.G, b) || Ky(C.G, c) < Ky(C.G, b)))
  {
    BucketFacts(C.P, C.G, b);
    BucketFacts(C.P, C.G, c);
    assert BucketOk(C.P, C.G, C.P.nVertices, b) && BucketOk(C.P, C.G, C.P.nVertices, c);
  }

  /** Candidates are sorted by row, then column, from the side labels come from: by index, or backwards by it. */
  function OrderKey(dir: Direction): nat -> real { (b: nat) => if dir.Forward? then b as real else -(b as real) }

  /** Buckets are all at vertex v, and each earlier one has its row no further than a later one. */
  ghost predicate RowOrder<S>(C: Setup<S>, v: nat, ids: seq<nat>)
    requires Ready(C.P, C.G)
  {
    && (forall i: nat :: i < |ids| ==> AtVertex(C, v, ids[i]))
    && (forall i: nat, j: nat :: i < j < |ids| ==> RowBefore(C, v, ids[i], ids[j]))
  }

  ghost predicate AtVertex<S>(C: Setup<S>, v: nat, b: nat) {
    b < |C.G.buckets| && C.G.buckets[b].vertex == v && v < |C.G.start| && v < |C.G.ny| && C.G.ny[v] >= 1
  }

  /** Row first, column second, and not the same bucket. */
  ghost predicate RowBefore<S>(C: Setup<S>, v: nat, b: nat, c: nat) {
    AtVertex(C, v, b) && AtVertex(C, v, c) &&
    if C.dir.Forward? then Kx(C.G, b) < Kx(C.G, c) || (Kx(C.G, b) == Kx(C.G, c) && Ky(C.G, b) < Ky(C.G, c))
    else Kx(C.G, b) > Kx(C.G, c) || (Kx(C.G, b) == Kx(C.G, c) && Ky(C.G, b) > Ky(C.G, c))
  }

  /** The order of indices is the lexicographic order of coordinates. */
  lemma IndexOrder<S>(C: Setup<S>, v: nat, b: nat, c: nat)
    requires Ready(C.P, C.G) && AtVertex(C, v, b) && AtVertex(C, v, c) && b < c
    ensures Kx(C.G, b) < Kx(C.G, c) || (Kx(C.G, b) == Kx(C.G, c) && Ky(C.G, b) < Ky(C.G, c))
  {
    BucketFacts(C.P, C.G, b);
    BucketFacts(C.P, C.G, c);
    if Kx(C.G, b) > Kx(C.G, c) { RowsApart(C.G.ny[v], Kx(C.G, c), Kx(C.G, b)); }
  }

  lemma RowsApart(ny: nat, k: nat, l: nat)
    requires k < l
    ensures k * ny + ny <= l * ny
  {
    assert (k + 1) * ny <= l * ny;
  }

  /** Column of c is no further than column of d. */
  predicate ColumnNoWorse<S>(C: Setup<S>, v: nat, d: nat, c: nat)
    requires AtVertex(C, v, d) && AtVertex(C, v, c)
  {
    if C.dir.Forward? then Ky(C.G, d) <= Ky(C.G, c) else Ky(C.G, d) >= Ky(C.G, c)
  }

  /** No candidate before position h has its column as near. */
  ghost predicate Chosen<S>(C: Setup<S>, v: nat, ids: seq<nat>, h: nat)
    requires h < |ids|
  {
    forall g: nat :: g < h && AtVertex(C, v, ids[g]) && AtVertex(C, v, ids[h]) ==> !ColumnNoWorse(C, v, ids[g], ids[h])
  }

  /** The sweep: keep a candidate whose column is nearer than that of all before it. */
  method SweepFront<S>(C: Setup<S>, v: nat, ids: seq<nat>) returns (front: seq<nat>)
    requires Ready(C.P, C.G) && RowOrder(C, v, ids)
    ensures forall c: nat :: c in front <==> exists h: nat :: h < |ids| && ids[h] == c && Chosen(C, v, ids, h)
  {
    hide GridUpTo, Widths;
    front := [];
    var limit: Option<nat> := None;
    for i := 0 to |ids|
      invariant limit.None? <==> i == 0
      invariant limit.Some? ==> AtVertex(C, v, limit.value) && (exists g: nat :: g < i && ids[g] == limit.value)
      invariant limit.Some? ==>
                  forall g: nat :: g < i ==> AtVertex(C, v, ids[g]) && ColumnNoWorse(C, v, limit.value, ids[g])
      invariant forall c: nat :: c in front <==> exists h: nat :: h < i && ids[h] == c && Chosen(C, v, ids, h)
    {
      var c := ids[i];
      assert AtVertex(C, v, c);
      var nearer := limit.None? || !ColumnNoWorse(C, v, limit.value, c);
      assert nearer <==> Chosen(C, v, ids, i);
      ghost var before := front;
      if nearer {
        front := front + [c];
        limit := Some(c);
      }
      forall x: nat ensures x in front <==> exists h: nat :: h < i + 1 && ids[h] == x && Chosen(C, v, ids, h) {
        if x in before { var h: nat :| h < i && ids[h] == x && Chosen(C, v, ids, h); }
      }
    }
  }

  /** Chosen by the sweep means on the front. */
  lemma ChosenIsFront<S>(C: Setup<S>, b: nat, a: nat, v: nat, ids: seq<nat>, h: nat)
    requires Ready(C.P, C.G) && |C.arcs| == |C.G.buckets| && RowOrder(C, v, ids) && h < |ids|
    requires forall c: nat :: c in ids <==> Successor(C, b, a, c)
    ensures Chosen(C, v, ids, h) <==> OnFront(C, b, a, ids[h])
  {
    hide HasArc, BucketOk, RangeOk, GridUpTo;
    var c := ids[h];
    assert c in ids;
    if Chosen(C, v, ids, h) {
      forall d: nat | Successor(C, b, a, d) && Beyond(C.P, C.G, C.dir, d, c) ensures d == c {
        assert d in ids;
        var g :| 0 <= g < |ids| && ids[g] == d;
        NearerColumn(C, v, d, c);
        if g > h { NoReturn(C, v, c, d); }
      }
    }
    if OnFront(C, b, a, c) {
      forall g: nat | g < h ensures !ColumnNoWorse(C, v, ids[g], ids[h]) {
        assert ids[g] in ids && RowBefore(C, v, ids[g], ids[h]);
        if ColumnNoWorse(C, v, ids[g], ids[h]) { FrontBefore(C, v, ids[g], c); }
      }
    }
  }

  lemma NearerColumn<S>(C: Setup<S>, v: nat, d: nat, c: nat)
    requires Ready(C.P, C.G) && AtVertex(C, v, d) && AtVertex(C, v, c) && Beyond(C.P, C.G, C.dir, d, c)
    ensures ColumnNoWorse(C, v, d, c)
  {
  }

  lemma NoReturn<S>(C: Setup<S>, v: nat, c: nat, d: nat)
    requires Ready(C.P, C.G) && RowBefore(C, v, c, d)
    ensures !Beyond(C.P, C.G, C.dir, d, c)
  {
  }

  lemma FrontBefore<S>(C: Setup<S>, v: nat, d: nat, c: nat)
    requires Ready(C.P, C.G) && RowBefore(C, v, d, c) && ColumnNoWorse(C, v, d, c)
    ensures Beyond(C.P, C.G, C.dir, d, c) && d != c
  {
    BucketFacts(C.P, C.G, d);
    BucketFacts(C.P, C.G, c);
    assert BucketOk(C.P, C.G, C.P.nVertices, d) && BucketOk(C.P, C.G, C.P.nVertices, c);
  }

  lemma SortedRows<S>(C: Setup<S>, b: nat, a: nat, found: seq<nat>, ids: seq<nat>)
    requires Ready(C.P, C.G) && |C.arcs| == |C.G.buckets| && b < |C.G.buckets|
    requires Increasing(found) && forall c: nat :: c in found <==> Successor(C, b, a, c)
    requires multiset(ids) == multiset(found) && SortedBy(OrderKey(C.dir), ids)
    ensures RowOrder(C, C.G.buckets[b].vertex, ids) && forall c: nat :: c in ids <==> Successor(C, b, a, c)
  {
    hide HasArc, BucketOk, RangeOk;
    PermutationFacts(ids, found);
    var v := C.G.buckets[b].vertex;
    BucketFacts(C.P, C.G, b);
    forall i: nat | i < |ids| ensures AtVertex(C, v, ids[i]) { assert ids[i] in ids; }
    forall i: nat, j: nat | i < j < |ids| ensures RowBefore(C, v, ids[i], ids[j]) {
      assert OrderKey(C.dir)(ids[i]) <= OrderKey(C.dir)(ids[j]);
      assert ids[i] != ids[j];
      if C.dir.Forward? { IndexOrder(C, v, ids[i], ids[j]); } else { IndexOrder(C, v, ids[j], ids[i]); }
    }
  }

  /** The front of one bucket and one missing arc. */
  method FrontOf<S>(C: Setup<S>, b: nat, a: nat, holders: seq<nat>) returns (front: seq<nat>)
    requires Ready(C.P, C.G) && |C.arcs| == |C.G.buckets| && b < |C.G.buckets|
    requires Increasing(holders) && forall c: nat :: c in holders <==> c < |C.arcs| && HasArc(C, c, a)
    ensures forall c: nat :: c in front <==> OnFront(C, b, a, c)
  {
    hide HasArc, GridUpTo, Widths, Successor, OnFront;
    var found := Successors(C, b, a, holders);
    var ids := SortBy(OrderKey(C.dir), found);
    SortedRows(C, b, a, found, ids);
    var v := C.G.buckets[b].vertex;
    front := SweepFront(C, v, ids);
    forall c: nat ensures c in front <==> OnFront(C, b, a, c) {
      if c in front {
        var h: nat :| h < |ids| && ids[h] == c && Chosen(C, v, ids, h);
        ChosenIsFront(C, b, a, v, ids, h);
      }
      if OnFront(C, b, a, c) {
        FrontIsSuccessor(C, b, a, c);
        var h :| 0 <= h < |ids| && ids[h] == c;
        ChosenIsFront(C, b, a, v, ids, h);
      }
    }
  }

  lemma FrontIsSuccessor<S>(C: Setup<S>, b: nat, a: nat, c: nat)
    requires Ready(C.P, C.G) && |C.arcs| == |C.G.buckets| && OnFront(C, b, a, c)
    ensures Successor(C, b, a, c)
  {
  }

  // ----- All buckets -----

  lemma SetupRange<S(!new)>(C: Setup<S>)
    requires SetupOk(C)
    ensures ArcsInRange(C) && Ready(C.P, C.G) && |C.arcs| == |C.G.buckets|
    ensures forall b: nat, a: nat ::
            b < |C.arcs| && HasArc(C, b, a) ==> a < C.P.nArcs && C.P.top.Tail(C.dir, a) == C.G.buckets[b].vertex
  {
    hide TopoOrder, Grouped, Disposable;
    forall b: nat, e: BucketArc | b < |C.arcs| && e in C.arcs[b]
      ensures e.arc < C.P.nArcs && C.P.top.Tail(C.dir, e.arc) == C.G.buckets[b].vertex
    {
      assert ArcOk(C, b, e);
      FullArcsMembers(C.P, C.G, C.dir, b);
    }
  }

  /** The loop over the arcs of one bucket. */
  method JumpsFrom<S>(C: Setup<S>, b: nat, out: seq<nat>, index: seq<seq<nat>>) returns (list: seq<JumpArc>)
    requires Ready(C.P, C.G) && |C.arcs| == |C.G.buckets| && b < |C.arcs| && b !in C.fixed
             && IndexUpTo(C, index, |C.arcs|)
    requires forall a: nat :: a in out <==> a < C.P.nArcs && C.P.top.Tail(C.dir, a) == C.G.buckets[b].vertex
    ensures forall j :: j in list <==> j.arc in out && JumpsTo(C, b, j)
  {
    hide HasArc, GridUpTo, Widths, OnFront;
    list := [];
    for i := 0 to |out|
      invariant forall j :: j in list <==> j.arc in out[..i] && JumpsTo(C, b, j)
    {
      var a := out[i];
      assert a in out && out[..i + 1] == out[..i] + [a];
      var has := BinarySearch(index[a], b);
      if has { continue; }
      var front := FrontOf(C, b, a, index[a]);
      var more := JumpList(a, front);
      list := list + more;
    }
    assert out[..|out|] == out;
  }

  method JumpList(a: nat, front: seq<nat>) returns (list: seq<JumpArc>)
    ensures forall j :: j in list <==> j.arc == a && j.jumpBucket in front
  {
    list := [];
    for i := 0 to |front|
      invariant forall j :: j in list <==> j.arc == a && j.jumpBucket in front[..i]
    {
      assert front[..i + 1] == front[..i] + [front[i]];
      list := list + [JumpArc(front[i], a)];
    }
    assert front[..|front|] == front;
  }

  /**
   * obtain_jump_arcs: for each open bucket and each arc it lacks, precisely the componentwise nearest
   * buckets behind it that still have the arc.
   */
  method ObtainJumpArcs<S(!new)>(C: Setup<S>, adj: seq<seq<nat>>, disabled: bool) returns (jumps: seq<seq<JumpArc>>)
    requires SetupOk(C) && ArcsOrdered(C) && |adj| == C.P.nVertices
             && forall v: nat :: v < C.P.nVertices ==> adj[v] == ArcsAt(C.P, C.dir, v, C.P.nArcs)
    ensures |jumps| == |C.arcs|
    ensures disabled ==> forall b: nat :: b < |jumps| ==> jumps[b] == []
    ensures !disabled ==> forall b: nat :: b < |jumps| ==> JumpsOf(C, b, jumps[b])
    ensures forall b: nat, j: JumpArc :: b < |jumps| && j in jumps[b] ==> JumpOk(C, b, j)
  {
    hide HasArc, GridUpTo, Widths, OnFront, SetupOk, ArcsOrdered;
    SetupRange(C);
    SetupReadyHere(C);
    jumps := seq(|C.arcs|, b => []);
    if disabled { return; }
    var index := BuildIndex(C);
    for b := 0 to |C.arcs|
      invariant |jumps| == |C.arcs|
      invariant forall c: nat :: b <= c < |jumps| ==> jumps[c] == []
      invariant forall c: nat :: c < b ==> JumpsOf(C, c, jumps[c])
      invariant forall c: nat, j: JumpArc :: c < b && j in jumps[c] ==> JumpOk(C, c, j)
    {
      if b in C.fixed { continue; }
      BucketFacts(C.P, C.G, b);
      ArcsAtMembers(C.P, C.dir, C.G.buckets[b].vertex, C.P.nArcs);
      var list := JumpsFrom(C, b, adj[C.G.buckets[b].vertex], index);
      JumpsComplete(C, b, list);
      jumps := jumps[b := list];
    }
  }

  lemma SetupReadyHere<S(!new)>(C: Setup<S>)
    requires SetupOk(C)
    ensures Ready(C.P, C.G)
  {
  }

  lemma JumpsComplete<S(!new)>(C: Setup<S>, b: nat, list: seq<JumpArc>)
    requires SetupOk(C) && b < |C.arcs|
    requires forall j ::
             j in list <==>
               (j.arc < C.P.nArcs && C.P.top.Tail(C.dir, j.arc) == C.G.buckets[b].vertex) && JumpsTo(C, b, j)
    ensures JumpsOf(C, b, list) && forall j :: j in list ==> JumpOk(C, b, j)
  {
    hide TopoOrder, Grouped, Disposable, HasArc, GridUpTo;
    SetupRange(C);
    forall j | JumpsTo(C, b, j) ensures j in list { assert HasArc(C, j.jumpBucket, j.arc); }
  }

  lemma NewJumps<S(!new)>(C: Setup<S>, jumps: seq<seq<JumpArc>>)
    requires SetupOk(C) && |jumps| == |C.arcs| && forall b: nat, j: JumpArc ::
             b < |jumps| && j in jumps[b] ==> JumpOk(C, b, j)
    ensures SetupOk(C.(jumps := jumps))
  {
    hide TopoOrder, Grouped, Disposable, FullArcs;
    var D := C.(jumps := jumps);
    forall b: nat, e: BucketArc | b < |D.arcs| && e in D.arcs[b] ensures ArcOk(D, b, e) { assert ArcOk(C, b, e); }
    forall b: nat, j: JumpArc | b < |D.jumps| && j in D.jumps[b] ensures JumpOk(D, b, j) { assert JumpOk(C, b, j); }
  }

  // ----- What it means that there are none -----

  /** An open bucket gets no jump arc exactly when it lacks no arc that a bucket behind it has. */
  lemma NoJumpsAt<S(!new)>(C: Setup<S>, b: nat)
    requires Ready(C.P, C.G) && |C.arcs| == |C.jumps| == |C.G.buckets| && b < |C.arcs| && b !in C.fixed
             && JumpsOf(C, b, C.jumps[b])
    ensures C.jumps[b] == [] <==> NestedAt(C, b)
  {
    hide HasArc, BucketOk, GridUpTo;
    if !NestedAt(C, b) {
      var c: nat, a: nat :| c < |C.arcs| && Beyond(C.P, C.G, C.dir, b, c) && HasArc(C, c, a) && !HasArc(C, b, a);
      var d := FrontCovers(C, b, a, c);
      assert JumpsTo(C, b, JumpArc(d, a));
    }
    if C.jumps[b] != [] {
      var j := C.jumps[b][0];
      assert j in C.jumps[b];
      assert JumpsTo(C, b, j) && Successor(C, b, j.arc, j.jumpBucket);
    }
  }

  /** With nothing fixed, no jump arc at all means that the bucket graph is nested, and the other way round. */
  lemma NoJumpsIffNested<S(!new)>(C: Setup<S>)
    requires Ready(C.P, C.G) && |C.arcs| == |C.jumps| == |C.G.buckets| && C.fixed == {} && JumpsExact(C)
    ensures NoJumps(C) <==> ArcsNested(C)
  {
    hide NestedAt, JumpsOf, GridUpTo;
    forall b: nat | b < |C.arcs| ensures C.jumps[b] == [] <==> NestedAt(C, b) { NoJumpsAt(C, b); }
  }
}
