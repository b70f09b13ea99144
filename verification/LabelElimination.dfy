/** Label-based arc elimination (bucket_arc_elimination, update_buckets_set). */
module LabelElimination {
  import opened Types
  import opened Resources
  import opened Problems
  import opened Grids
  import opened BucketArcs
  import opened BucketOrder
  import opened LabelStores
  import opened LabelingSpec
  import opened CBests
  import opened Joins
  import opened Concat
  import opened Pruning
  import opened JumpArcSearch

  /** One pass in direction C.dir: own holds the labels of that direction, opp those of the other. */
  datatype Pass<!S> = Pass(C: Setup<S>, own: Side<S>, opp: Side<S>, theta: real)

  /** Label k of this direction and label h of the other one are theta-compatible through a. */
  ghost predicate Pair<S>(E: Pass<S>, k: nat, a: nat, h: nat) {
    && k < |E.own.store.pool| && h < |E.opp.store.pool|
    && var u, w := E.own.store.pool[k].node, E.opp.store.pool[h].node;
       && (if E.C.dir.Forward? then JoinPair(E.C.P, u, a, w) else JoinPair(E.C.P, w, a, u))
       && u.cost + w.cost + E.C.P.cost(a) < E.theta
  }

  ghost predicate Undominated<S>(v: Side<S>, b: nat, k: nat) {
    b < |v.store.rows| && k in v.store.rows[b].ids && k < |v.store.dominated| && !v.store.dominated[k]
  }

  /** Some undominated opposite label in bucket c goes with label k. */
  ghost predicate HasPair<S>(E: Pass<S>, k: nat, a: nat, c: nat) {
    exists h: nat :: Undominated(E.opp, c, h) && Pair(E, k, a, h)
  }

  /** The opposite bounds cover all buckets behind, as the sweep in their own direction leaves them. */
  ghost predicate OppositeBounds<S>(E: Pass<S>)
    requires Ready(E.C.P, E.C.G) && |E.opp.store.rows| == |E.opp.cBest| == |E.C.G.buckets|
  {
    forall x: nat, c: nat ::
        Beyond(E.C.P, E.C.G, E.C.dir, x, c) ==> LowerAt(E.opp.store.pool, E.opp.store.rows[c], E.opp.cBest[x])
  }

  ghost predicate PassReady<S(!new)>(E: Pass<S>) {
    && SetupOk(E.C)
    && (forall b: nat :: b < |E.C.jumps| ==> JumpsOf(E.C, b, E.C.jumps[b]))
    && SideReady(E.C.P, E.C.G, E.own) && SideReady(E.C.P, E.C.G, E.opp) && OppositeBounds(E)
  }

  lemma PassFacts<S(!new)>(E: Pass<S>)
    requires PassReady(E)
    ensures SetupOk(E.C) && Ready(E.C.P, E.C.G) && |E.C.arcs| == |E.C.jumps| == |E.C.G.buckets|
    ensures |E.own.store.rows| == |E.opp.store.rows| == |E.opp.cBest| == |E.C.G.buckets|
    ensures E.C.P.pack.minDominationCost == 0.0
  {
  }

  // ----- One pair, one bucket -----

  lemma CompatFree<S(!new)>(P: Problem<S>, u: Node<S>, a: nat, w: Node<S>)
    requires Disposable(P.pack, P.top)
    ensures ZeroOrInf(JoinCost(P.pack, u.states, a, P.top.to(a), w.states)) && P.pack.minDominationCost == 0.0
  {
    JoinFree(P, u, a, w);
  }

  /** is_theta_compatible for two labels at the ends of a. */
  method ThetaCompatible<S(!new)>(P: Problem<S>, theta: real, u: Node<S>, a: nat, w: Node<S>) returns (ok: bool)
    requires Disposable(P.pack, P.top) && a < P.nArcs && u.vertex == P.top.from(a) && w.vertex == P.top.to(a)
    ensures ok <==> JoinPair(P, u, a, w) && u.cost + w.cost + P.cost(a) < theta
  {
    hide Disposable;
    CompatFree(P, u, a, w);
    var total := u.cost + w.cost + P.cost(a);
    if total + P.pack.minDominationCost >= theta { return false; }
    if !Arrival(P, Forward, u.q, a).AtMost(w.q) { return false; }
    var join := JoinCost(P.pack, u.states, a, P.top.to(a), w.states);
    if join.Inf? { return false; }
    return total + join.val < theta;
  }

  /** The scan of one opposite bucket, which stops once the costs are too high. */
  method FindPair<S(!new)>(E: Pass<S>, k: nat, a: nat, c: nat) returns (found: bool)
    requires PassReady(E) && a < E.C.P.nArcs && c < |E.C.G.buckets|
             && E.C.G.buckets[c].vertex == E.C.P.top.Head(E.C.dir, a)
    requires k < |E.own.store.pool| && E.own.store.pool[k].node.vertex == E.C.P.top.Tail(E.C.dir, a)
    ensures found <==> HasPair(E, k, a, c)
  {
    hide Disposable, TopoOrder, Grouped, ValidGrid, RowOk, JumpsOf, OppositeBounds, JoinPair, Beyond;
    PassFacts(E);
    assert RowReady(E.C.P, E.C.G, E.opp, c);
    var row, s, u := E.opp.store.rows[c], E.opp.store, E.own.store.pool[k].node;
    var base := u.cost + E.C.P.cost(a);
    for i := 0 to |row.ids|
      invariant forall h: nat :: h in row.ids[..i] && Undominated(E.opp, c, h) ==> !Pair(E, k, a, h)
    {
      RowEntry(E.C.P, s.pool, row, i);
      var h := row.ids[i];
      assert h in row.ids && row.ids[..i + 1] == row.ids[..i] + [h];
      assert Stored(E.C.G, E.opp, c, h);
      if base + row.costs[i] + E.C.P.pack.minDominationCost >= E.theta {
        forall g: nat | Undominated(E.opp, c, g) ensures !Pair(E, k, a, g) { TooDear(E.C.P, s.pool, row, i, g); }
        return false;
      }
      if s.dominated[h] { continue; }
      var ok;
      if E.C.dir.Forward? {
        ok := ThetaCompatible(E.C.P, E.theta, u, a, s.pool[h].node);
      } else {
        ok := ThetaCompatible(E.C.P, E.theta, s.pool[h].node, a, u);
      }
      if ok {
        assert Undominated(E.opp, c, h) && Pair(E, k, a, h);
        return true;
      }
    }
    assert row.ids[..|row.ids|] == row.ids;
    return false;
  }

  // ----- update_buckets_set -----

  /** Even the cheapest opposite label in x or behind it is too dear for label k. */
  predicate TooDearFrom<S>(E: Pass<S>, k: nat, a: nat, x: nat) {
    && k < |E.own.store.pool| && x < |E.opp.cBest|
    && E.opp.cBest[x].Add(E.own.store.pool[k].node.cost + E.C.P.cost(a) + E.C.P.pack.minDominationCost).AtLeast(E.theta)
  }

  /** A visited bucket has been looked at and its neighbours visited, unless nothing can come of it. */
  ghost predicate Looked<S(!new)>(E: Pass<S>, k: nat, a: nat, bar: set<nat>, visited: set<nat>, x: nat)
    requires SetupOk(E.C)
  {
    x < |E.C.G.buckets| &&
    (TooDearFrom(E, k, a, x) || ((HasPair(E, k, a, x) ==> x in bar)
            && forall y :: y in SideEdges(E.C.P, E.C.G, E.C.dir, x) ==> y in visited))
  }

  /** Steps left before the far corner of the vertex. */
  ghost function ToCorner<S>(C: Setup<S>, x: nat): nat
    requires Ready(C.P, C.G) && x < |C.G.buckets|
  {
    BucketFacts(C.P, C.G, x);
    var v := C.G.buckets[x].vertex;
    if C.dir.Forward? then C.G.nx[v] - Kx(C.G, x) + C.G.ny[v] - Ky(C.G, x) else Kx(C.G, x) + Ky(C.G, x)
  }

  lemma EdgesCloser<S>(C: Setup<S>, x: nat)
    requires Ready(C.P, C.G) && x < |C.G.buckets|
    ensures forall i: nat :: i < |SideEdges(C.P, C.G, C.dir, x)| ==>
              var y := SideEdges(C.P, C.G, C.dir, x)[i];
              y < |C.G.buckets| && Beyond(C.P, C.G, C.dir, x, y) && C.G.buckets[y].vertex == C.G.buckets[x].vertex
              && ToCorner(C, y) < ToCorner(C, x)
  {
    SideEdgesFacts(C.P, C.G, C.dir, x);
    BucketFacts(C.P, C.G, x);
    var v, kx, ky := C.G.buckets[x].vertex, Kx(C.G, x), Ky(C.G, x);
    forall i: nat | i < |SideEdges(C.P, C.G, C.dir, x)|
      ensures var y := SideEdges(C.P, C.G, C.dir, x)[i];
              y < |C.G.buckets| && Beyond(C.P, C.G, C.dir, x, y) && C.G.buckets[y].vertex == v
              && ToCorner(C, y) < ToCorner(C, x)
    {
      var y := SideEdges(C.P, C.G, C.dir, x)[i];
      assert y in SideEdges(C.P, C.G, C.dir, x);
      EdgeCloser(C, x, y);
    }
  }

  lemma EdgeCloser<S>(C: Setup<S>, x: nat, y: nat)
    requires Ready(C.P, C.G) && x < |C.G.buckets| && y in SideEdges(C.P, C.G, C.dir, x)
    ensures y < |C.G.buckets| && ToCorner(C, y) < ToCorner(C, x)
  {
    BucketFacts(C.P, C.G, x);
    SideEdgesFacts(C.P, C.G, C.dir, x);
    var v, kx, ky := C.G.buckets[x].vertex, Kx(C.G, x), Ky(C.G, x);
    if C.dir.Forward? {
      if kx + 1 < C.G.nx[v] { IndexFacts(C.P, C.G, v, kx + 1, ky); }
      if ky + 1 < C.G.ny[v] { IndexFacts(C.P, C.G, v, kx, ky + 1); }
    } else {
      if kx > 0 { IndexFacts(C.P, C.G, v, kx - 1, ky); }
      if ky > 0 { IndexFacts(C.P, C.G, v, kx, ky - 1); }
    }
  }

  /** The new bits are buckets from x on that do have a partner. */
  ghost predicate Genuine<S(!new)>(E: Pass<S>, k: nat, a: nat, before: set<nat>, bar: set<nat>, x: nat)
    requires SetupOk(E.C)
  {
    before <= bar && forall c :: c in bar && c !in before ==> Beyond(E.C.P, E.C.G, E.C.dir, x, c) && HasPair(E, k, a, c)
  }

  /** update_buckets_set: the recursion over the buckets behind, each looked at once. */
  method UpdateBucketsSet<S(!new)>(E: Pass<S>, k: nat, a: nat, before: set<nat>, x: nat, seen: set<nat>)
    returns (bar: set<nat>, visited: set<nat>)
    requires PassReady(E) && a < E.C.P.nArcs && x < |E.C.G.buckets|
             && E.C.G.buckets[x].vertex == E.C.P.top.Head(E.C.dir, a)
    requires k < |E.own.store.pool| && E.own.store.pool[k].node.vertex == E.C.P.top.Tail(E.C.dir, a)
    ensures seen <= visited && x in visited
    ensures Genuine(E, k, a, before, bar, x)
    ensures forall y: nat :: y in visited && y !in seen ==> Looked(E, k, a, bar, visited, y)
    decreases ToCorner(E.C, x)
  {
    hide PassReady, HasPair, SetupOk, SideEdges, Beyond, ToCorner, TooDearFrom;
    PassFacts(E);
    bar, visited := before, seen;
    if x in visited { return; }
    visited := visited + {x};
    BeyondOrder(E.C.P, E.C.G, E.C.dir, x, x, x);
    if TooDearFrom(E, k, a, x) { return; }
    if x !in bar {
      var found := FindPair(E, k, a, x);
      if found { bar := bar + {x}; }
    }
    var edges := SideEdges(E.C.P, E.C.G, E.C.dir, x);
    EdgesCloser(E.C, x);
    for i := 0 to |edges|
      invariant seen + {x} <= visited && before <= bar
      invariant HasPair(E, k, a, x) ==> x in bar
      invariant forall j: nat :: j < i ==> edges[j] in visited
      invariant Genuine(E, k, a, before, bar, x)
      invariant forall y: nat :: y in visited && y !in seen && y != x ==> Looked(E, k, a, bar, visited, y)
    {
      ghost var bar0, visited0 := bar, visited;
      bar, visited := UpdateBucketsSet(E, k, a, bar, edges[i], visited);
      StillGenuine(E, k, a, before, bar0, bar, x, edges[i]);
      forall y: nat | y in visited && y !in seen && y != x ensures Looked(E, k, a, bar, visited, y) {
        if y in visited0 { StillLooked(E, k, a, bar0, visited0, bar, visited, y); }
      }
    }
    NowLooked(E, k, a, bar, visited, x);
  }

  lemma StillGenuine<S(!new)>(E: Pass<S>, k: nat, a: nat, before: set<nat>, bar0: set<nat>, bar: set<nat>, x: nat,
                              y: nat)
    requires SetupOk(E.C) && Genuine(E, k, a, before, bar0, x) && Genuine(E, k, a, bar0, bar, y) && x < |E.C.G.buckets|
    requires Beyond(E.C.P, E.C.G, E.C.dir, x, y)
    ensures Genuine(E, k, a, before, bar, x)
  {
    hide HasPair, Beyond, TopoOrder, Grouped, Disposable, GridUpTo;
    forall c | c in bar && c !in before ensures Beyond(E.C.P, E.C.G, E.C.dir, x, c) && HasPair(E, k, a, c) {
      if c !in bar0 { BeyondOrder(E.C.P, E.C.G, E.C.dir, x, y, c); }
    }
  }

  lemma StillLooked<S(!new)>(E: Pass<S>, k: nat, a: nat, bar0: set<nat>, visited0: set<nat>, bar: set<nat>,
                             visited: set<nat>, y: nat)
    requires SetupOk(E.C) && Looked(E, k, a, bar0, visited0, y) && bar0 <= bar && visited0 <= visited
    ensures Looked(E, k, a, bar, visited, y)
  {
    hide HasPair, SideEdges, TooDearFrom;
  }

  lemma NowLooked<S(!new)>(E: Pass<S>, k: nat, a: nat, bar: set<nat>, visited: set<nat>, x: nat)
    requires SetupOk(E.C) && x < |E.C.G.buckets| && (HasPair(E, k, a, x) ==> x in bar)
    requires forall j: nat ::
             j < |SideEdges(E.C.P, E.C.G, E.C.dir, x)| ==> SideEdges(E.C.P, E.C.G, E.C.dir, x)[j] in visited
    ensures Looked(E, k, a, bar, visited, x)
  {
    hide HasPair, SideEdges, TooDearFrom;
    forall y | y in SideEdges(E.C.P, E.C.G, E.C.dir, x) ensures y in visited {
      var j :| 0 <= j < |SideEdges(E.C.P, E.C.G, E.C.dir, x)| && SideEdges(E.C.P, E.C.G, E.C.dir, x)[j] == y;
    }
  }

  /** A bucket from which a partner is still ahead is not given up. */
  lemma NotTooDear<S(!new)>(E: Pass<S>, k: nat, a: nat, x: nat, c: nat)
    requires PassReady(E) && Beyond(E.C.P, E.C.G, E.C.dir, x, c) && HasPair(E, k, a, c)
    ensures !TooDearFrom(E, k, a, x)
  {
    hide TopoOrder, Grouped, JumpsOf, JoinPair, RowReady, GridUpTo;
    PassFacts(E);
    var h: nat :| Undominated(E.opp, c, h) && Pair(E, k, a, h);
    assert LowerAt(E.opp.store.pool, E.opp.store.rows[c], E.opp.cBest[x]);
  }

  /** The search misses no partner behind a visited bucket. */
  lemma {:induction false} NothingMissed<S(!new)>(E: Pass<S>, k: nat, a: nat, bar: set<nat>, visited: set<nat>,
                                                  x: nat, c: nat)
    requires PassReady(E) && x in visited && Beyond(E.C.P, E.C.G, E.C.dir, x, c) && HasPair(E, k, a, c)
    requires forall y: nat :: y in visited ==> Looked(E, k, a, bar, visited, y)
    ensures c in bar
    decreases GapTo(E.C, x, c)
  {
    hide HasPair, SideEdges, TooDearFrom, PassReady, SetupOk, Beyond, Gap;
    PassFacts(E);
    BothFacts(E.C, x, c);
    NotTooDear(E, k, a, x, c);
    assert Looked(E, k, a, bar, visited, x);
    if GapTo(E.C, x, c) > 0 {
      var d := SideStep(E.C.P, E.C.G, E.C.dir, x, c);
      BothFacts(E.C, d, c);
      NothingMissed(E, k, a, bar, visited, d, c);
    } else {
      NoGap(E.C, x, c);
    }
  }

  ghost function GapTo<S>(C: Setup<S>, x: nat, c: nat): nat
    requires Ready(C.P, C.G) && Beyond(C.P, C.G, C.dir, x, c)
  {
    BucketFacts(C.P, C.G, x);
    BucketFacts(C.P, C.G, c);
    Gap(C.G, C.dir, x, c)
  }

  lemma BothFacts<S>(C: Setup<S>, x: nat, c: nat)
    requires Ready(C.P, C.G) && Beyond(C.P, C.G, C.dir, x, c)
    ensures x < |C.G.buckets| && c < |C.G.buckets|
    ensures C.G.buckets[x].vertex < |C.G.start| && C.G.buckets[x].vertex < |C.G.ny|
            && C.G.ny[C.G.buckets[x].vertex] >= 1
    ensures C.G.buckets[c].vertex < |C.G.start| && C.G.buckets[c].vertex < |C.G.ny|
            && C.G.ny[C.G.buckets[c].vertex] >= 1
    ensures GapTo(C, x, c) == Gap(C.G, C.dir, x, c)
  {
    BucketFacts(C.P, C.G, x);
    BucketFacts(C.P, C.G, c);
  }

  lemma NoGap<S>(C: Setup<S>, x: nat, c: nat)
    requires Ready(C.P, C.G) && Beyond(C.P, C.G, C.dir, x, c) && GapTo(C, x, c) == 0
    ensures x == c
  {
    BucketFacts(C.P, C.G, x);
    BucketFacts(C.P, C.G, c);
  }

  /** One call from outside: exactly the partners from x on have been added. */
  method DoUpdate<S(!new)>(E: Pass<S>, k: nat, a: nat, before: set<nat>, x: nat) returns (bar: set<nat>)
    requires PassReady(E) && a < E.C.P.nArcs && x < |E.C.G.buckets|
             && E.C.G.buckets[x].vertex == E.C.P.top.Head(E.C.dir, a)
    requires k < |E.own.store.pool| && E.own.store.pool[k].node.vertex == E.C.P.top.Tail(E.C.dir, a)
    ensures Ready(E.C.P, E.C.G)
    ensures forall c: nat :: c in bar <==> c in before || (Beyond(E.C.P, E.C.G, E.C.dir, x, c) && HasPair(E, k, a, c))
  {
    hide HasPair, PassReady, SetupOk, Beyond, Looked;
    PassFacts(E);
    var visited;
    bar, visited := UpdateBucketsSet(E, k, a, before, x, {});
    forall c: nat | Beyond(E.C.P, E.C.G, E.C.dir, x, c) && HasPair(E, k, a, c)
      ensures c in bar
    {
      NothingMissed(E, k, a, bar, visited, x, c);
    }
  }

  // ----- The sets of one bucket -----

  /** Some undominated label of b goes with a label of bucket c. */
  ghost predicate PairFrom<S>(E: Pass<S>, b: nat, a: nat, c: nat) {
    exists k: nat :: Undominated(E.own, b, k) && HasPair(E, k, a, c)
  }

  /** Labels of b use arc a from bucket d: from b itself, or from the end of a jump. */
  ghost predicate From<S>(C: Setup<S>, b: nat, a: nat, d: nat) {
    if d == b then b < |C.arcs| && HasArc(C, b, a) else b < |C.jumps| && JumpArc(d, a) in C.jumps[b]
  }

  /** The bucket arc of a from d arrives in c or before it. */
  ghost predicate Arrives<S>(C: Setup<S>, d: nat, a: nat, c: nat)
    requires Ready(C.P, C.G)
  {
    && d < |C.G.buckets| && a < C.P.nArcs && C.P.top.Head(C.dir, a) < C.P.nVertices
    && Open(C.P, C.G, C.dir, d, a) && Beyond(C.P, C.G, C.dir, Target(C.P, C.G, C.dir, d, a), c)
  }

  /** What bucket b itself adds to the set of arc a. */
  ghost predicate Adds<S>(E: Pass<S>, b: nat, a: nat, c: nat)
    requires Ready(E.C.P, E.C.G)
  {
    PairFrom(E, b, a, c) && exists d: nat :: From(E.C, b, a, d) && Arrives(E.C, d, a, c)
  }

  /** Steps to the next row or column lead from bucket o to the cell of v with rank (i, j) through open buckets only. */
  ghost predicate Passage<S>(C: Setup<S>, v: nat, o: nat, i: nat, j: nat)
    requires Ready(C.P, C.G) && v < C.P.nVertices && i < C.G.nx[v] && j < C.G.ny[v]
    decreases i + j
  {
    var b := RankCell(C.G, C.dir, v, i, j);
    b !in C.fixed && (o == b || (i > 0 && Passage(C, v, o, i - 1, j)) || (j > 0 && Passage(C, v, o, i, j - 1)))
  }

  /** The sets are handed on from o to b: o comes before b, and such steps lead from o to b. */
  ghost predicate HandsOn<S>(C: Setup<S>, o: nat, b: nat)
    requires Ready(C.P, C.G)
  {
    exists v: nat, i: nat, j: nat :: AtRank(C.P, C.G, C.dir, b, v, i, j) && Passage(C, v, o, i, j)
  }

  lemma {:induction false} PassageBeyond<S(!new)>(C: Setup<S>, v: nat, o: nat, i: nat, j: nat, b: nat)
    requires Ready(C.P, C.G) && AtRank(C.P, C.G, C.dir, b, v, i, j) && Passage(C, v, o, i, j)
    ensures Beyond(C.P, C.G, C.dir, o, b) && o !in C.fixed && b !in C.fixed
    decreases i + j
  {
    hide BucketOk, RangeOk, GridUpTo, RankCell;
    RankSizes(C, b, v, i, j);
    BeyondRank(C.P, C.G, C.dir, b, b, v, i, j, i, j);
    if i > 0 { RankFacts(C.P, C.G, C.dir, v, i - 1, j); }
    if j > 0 { RankFacts(C.P, C.G, C.dir, v, i, j - 1); }
    if i > 0 && Passage(C, v, o, i - 1, j) {
      var x: nat := RankCell(C.G, C.dir, v, i - 1, j);
      PassageBeyond(C, v, o, i - 1, j, x);
      BeyondRank(C.P, C.G, C.dir, x, b, v, i - 1, j, i, j);
      BeyondOrder(C.P, C.G, C.dir, o, x, b);
    } else if j > 0 && Passage(C, v, o, i, j - 1) {
      var x: nat := RankCell(C.G, C.dir, v, i, j - 1);
      PassageBeyond(C, v, o, i, j - 1, x);
      BeyondRank(C.P, C.G, C.dir, x, b, v, i, j - 1, i, j);
      BeyondOrder(C.P, C.G, C.dir, o, x, b);
    }
  }

  /** With nothing fixed, the sets are handed on from every bucket no later than b. */
  lemma HandsOnFrom<S(!new)>(C: Setup<S>, o: nat, b: nat)
    requires Ready(C.P, C.G)
    ensures HandsOn(C, o, b) ==> Beyond(C.P, C.G, C.dir, o, b) && o !in C.fixed && b !in C.fixed
    ensures C.fixed == {} ==> (HandsOn(C, o, b) <==> Beyond(C.P, C.G, C.dir, o, b))
  {
    hide BucketOk, RangeOk, GridUpTo, RankCell, Passage;
    if HandsOn(C, o, b) {
      var v: nat, i: nat, j: nat :| AtRank(C.P, C.G, C.dir, b, v, i, j) && Passage(C, v, o, i, j);
      PassageBeyond(C, v, o, i, j, b);
    }
    if C.fixed == {} && Beyond(C.P, C.G, C.dir, o, b) {
      var i, j := HasRank(C.P, C.G, C.dir, b);
      OpenPassage(C, C.G.buckets[b].vertex, o, i, j, b);
    }
  }

  lemma {:induction false} OpenPassage<S(!new)>(C: Setup<S>, v: nat, o: nat, i: nat, j: nat, b: nat)
    requires Ready(C.P, C.G) && C.fixed == {} && AtRank(C.P, C.G, C.dir, b, v, i, j) && Beyond(C.P, C.G, C.dir, o, b)
    ensures Passage(C, v, o, i, j)
    decreases i + j
  {
    hide BucketOk, RangeOk, GridUpTo, RankCell, Beyond;
    RankSizes(C, b, v, i, j);
    OneOf(C, o, b, v, i, j);
    if i > 0 { RankFacts(C.P, C.G, C.dir, v, i - 1, j); }
    if j > 0 { RankFacts(C.P, C.G, C.dir, v, i, j - 1); }
    if o != b {
      if i > 0 && Beyond(C.P, C.G, C.dir, o, RankCell(C.G, C.dir, v, i - 1, j)) {
        OpenPassage(C, v, o, i - 1, j, RankCell(C.G, C.dir, v, i - 1, j));
      } else {
        OpenPassage(C, v, o, i, j - 1, RankCell(C.G, C.dir, v, i, j - 1));
      }
    }
  }

  lemma RankSizes<S(!new)>(C: Setup<S>, b: nat, v: nat, i: nat, j: nat)
    requires Ready(C.P, C.G) && AtRank(C.P, C.G, C.dir, b, v, i, j)
    ensures v < C.P.nVertices && |C.G.start| == |C.G.nx| == |C.G.ny| == C.P.nVertices && i < C.G.nx[v] && j < C.G.ny[v]
  {
  }

  /** A bucket before b is b or comes before one of its predecessors. */
  lemma OneOf<S(!new)>(C: Setup<S>, o: nat, b: nat, v: nat, i: nat, j: nat)
    requires Ready(C.P, C.G) && AtRank(C.P, C.G, C.dir, b, v, i, j) && Beyond(C.P, C.G, C.dir, o, b)
    ensures v < |C.G.start| && v < |C.G.nx| && v < |C.G.ny|
    ensures i > 0 ==> RankCell(C.G, C.dir, v, i - 1, j) >= 0
    ensures j > 0 ==> RankCell(C.G, C.dir, v, i, j - 1) >= 0
    ensures || o == b
            || (i > 0 && Beyond(C.P, C.G, C.dir, o, RankCell(C.G, C.dir, v, i - 1, j)))
            || (j > 0 && Beyond(C.P, C.G, C.dir, o, RankCell(C.G, C.dir, v, i, j - 1)))
  {
    hide BucketOk, RangeOk, GridUpTo, RankCell;
    RankSizes(C, b, v, i, j);
    var p, q := HasRank(C.P, C.G, C.dir, o);
    BeyondRank(C.P, C.G, C.dir, o, b, v, p, q, i, j);
    if i > 0 { RankFacts(C.P, C.G, C.dir, v, i - 1, j); }
    if j > 0 { RankFacts(C.P, C.G, C.dir, v, i, j - 1); }
    if p < i {
      BeyondRank(C.P, C.G, C.dir, o, RankCell(C.G, C.dir, v, i - 1, j), v, p, q, i - 1, j);
    } else if q < j {
      BeyondRank(C.P, C.G, C.dir, o, RankCell(C.G, C.dir, v, i, j - 1), v, p, q, i, j - 1);
    }
  }

  /** The set of arc a at bucket b, with what comes from the buckets before b. */
  ghost predicate InBar<S>(E: Pass<S>, b: nat, a: nat, c: nat)
    requires Ready(E.C.P, E.C.G)
  {
    exists o: nat :: HandsOn(E.C, o, b) && Adds(E, o, a, c)
  }

  ghost predicate IsBar<S>(E: Pass<S>, b: nat, a: nat, bar: set<nat>)
    requires Ready(E.C.P, E.C.G)
  {
    forall c: nat :: c in bar <==> InBar(E, b, a, c)
  }

  /** Some bucket of the set lies behind where e arrives. */
  ghost predicate Needed<S>(E: Pass<S>, b: nat, e: BucketArc)
    requires Ready(E.C.P, E.C.G)
  {
    exists c: nat :: InBar(E, b, e.arc, c) && Arrives(E.C, b, e.arc, c)
  }

  lemma OpenFacts<S(!new)>(E: Pass<S>, b: nat, a: nat, d: nat)
    requires PassReady(E) && b < |E.C.G.buckets| && From(E.C, b, a, d)
    ensures a < E.C.P.nArcs && d < |E.C.G.buckets| && E.C.P.top.Head(E.C.dir, a) < E.C.P.nVertices
            && E.C.P.top.Tail(E.C.dir, a) == E.C.G.buckets[b].vertex
    ensures Open(E.C.P, E.C.G, E.C.dir, d, a) && E.C.P.top.Head(E.C.dir, a) < |E.C.G.start|
            && E.C.P.top.Head(E.C.dir, a) < |E.C.G.ny|
    ensures E.C.G.width(E.C.P.top.Head(E.C.dir, a)).x > 0.0 && E.C.G.width(E.C.P.top.Head(E.C.dir, a)).y > 0.0
    ensures var x := Target(E.C.P, E.C.G, E.C.dir, d, a);
            x < |E.C.G.buckets| && E.C.G.buckets[x].vertex == E.C.P.top.Head(E.C.dir, a)
  {
    hide TopoOrder, Grouped, Disposable, SideReady, OppositeBounds, GridUpTo, Target, FullArcs, Open, HasArc, InWindow;
    if d != b { JumpsHave(E.C, b, a, d); }
    HeldArc(E.C, d, a);
    TargetIs(E.C, d, a);
  }

  lemma HeldArc<S(!new)>(C: Setup<S>, d: nat, a: nat)
    requires SetupOk(C) && d < |C.arcs| && HasArc(C, d, a)
    ensures a < C.P.nArcs && d < |C.G.buckets| && Open(C.P, C.G, C.dir, d, a)
            && C.P.top.Tail(C.dir, a) == C.G.buckets[d].vertex
  {
    hide TopoOrder, Grouped, Disposable, GridUpTo, Open, FullArcs;
    var e :| e in C.arcs[d] && e.arc == a;
    assert ArcOk(C, d, e);
    FullArcsMembers(C.P, C.G, C.dir, d);
  }

  lemma TargetIs<S(!new)>(C: Setup<S>, d: nat, a: nat)
    requires Ready(C.P, C.G) && d < |C.G.buckets| && a < C.P.nArcs
    ensures var v := C.P.top.Head(C.dir, a);
            && v < C.P.nVertices && v < |C.G.start| && v < |C.G.ny| && C.G.width(v).x > 0.0 && C.G.width(v).y > 0.0
            && var x := Target(C.P, C.G, C.dir, d, a); x < |C.G.buckets| && C.G.buckets[x].vertex == v
  {
    var v := C.P.top.Head(C.dir, a);
    BucketIndexFacts(C.P, C.G, v, Arrival(C.P, C.dir, Corner(C.dir, C.G.buckets[d]), a));
  }

  lemma JumpsHave<S(!new)>(C: Setup<S>, b: nat, a: nat, d: nat)
    requires SetupOk(C) && b < |C.jumps| && JumpArc(d, a) in C.jumps[b] && JumpsOf(C, b, C.jumps[b])
    ensures d < |C.arcs| && HasArc(C, d, a) && Beyond(C.P, C.G, C.dir, b, d)
            && C.G.buckets[d].vertex == C.G.buckets[b].vertex
  {
    hide TopoOrder, Grouped, Disposable, HasArc, GridUpTo, FullArcs;
    assert JumpsTo(C, b, JumpArc(d, a));
  }

  /** The updates for the labels of b and one arc, taken from bucket d. */
  method UpdateAll<S(!new)>(E: Pass<S>, b: nat, a: nat, d: nat, before: set<nat>) returns (bar: set<nat>)
    requires PassReady(E) && Ready(E.C.P, E.C.G) && b < |E.C.G.buckets| && From(E.C, b, a, d)
    ensures forall c: nat :: c in bar <==> c in before || (Arrives(E.C, d, a, c) && PairFrom(E, b, a, c))
  {
    hide HasPair, PassReady, SetupOk, Beyond, From, RowOk, Open, Target, GridUpTo;
    PassFacts(E);
    OpenFacts(E, b, a, d);
    var ids, x := E.own.store.rows[b].ids, Target(E.C.P, E.C.G, E.C.dir, d, a);
    OwnStored(E, b);
    bar := before;
    for i := 0 to |ids|
      invariant forall c: nat :: c in bar <==>
                  c in before || (Arrives(E.C, d, a, c) && exists k: nat ::
                  k in ids[..i] && Undominated(E.own, b, k) && HasPair(E, k, a, c))
    {
      var k := ids[i];
      assert k in ids && ids[..i + 1] == ids[..i] + [k];
      if E.own.store.dominated[k] { continue; }
      bar := DoUpdate(E, k, a, bar, x);
    }
    assert ids[..|ids|] == ids;
  }

  lemma OwnStored<S(!new)>(E: Pass<S>, b: nat)
    requires PassReady(E) && b < |E.C.G.buckets|
    ensures b < |E.own.store.rows|
    ensures forall k: nat :: k in E.own.store.rows[b].ids ==>
              k < |E.own.store.pool| && k < |E.own.store.dominated|
              && E.own.store.pool[k].node.vertex == E.C.G.buckets[b].vertex
  {
    hide TopoOrder, Grouped, Disposable, OppositeBounds, RowOk, GridUpTo, SetupOk;
    PassFacts(E);
    assert RowReady(E.C.P, E.C.G, E.own, b);
    forall k: nat | k in E.own.store.rows[b].ids
      ensures k < |E.own.store.pool| && k < |E.own.store.dominated|
              && E.own.store.pool[k].node.vertex == E.C.G.buckets[b].vertex
    {
      assert Stored(E.C.G, E.own, b, k);
    }
  }

  // ----- One bucket -----

  /** The sets of the arcs leaving the vertex of the bucket in hand, by arc. */
  type Bars = map<nat, set<nat>>

  ghost predicate Leaves<S>(C: Setup<S>, b: nat, a: nat) {
    b < |C.G.buckets| && a < C.P.nArcs && C.P.top.Tail(C.dir, a) == C.G.buckets[b].vertex
  }

  /** bars is `before` with the partners reached from the end of each jump in list. */
  ghost predicate AfterJumps<S>(E: Pass<S>, b: nat, before: Bars, list: seq<JumpArc>, bars: Bars)
    requires Ready(E.C.P, E.C.G)
  {
    && bars.Keys == before.Keys
    && (forall a: nat, c: nat :: a in bars ==> (c in bars[a] <==> c in before[a] || AddedByJump(E, b, list, a, c)))
  }

  ghost predicate AddedByJump<S>(E: Pass<S>, b: nat, list: seq<JumpArc>, a: nat, c: nat)
    requires Ready(E.C.P, E.C.G)
  {
    PairFrom(E, b, a, c) && exists d: nat :: JumpArc(d, a) in list && Arrives(E.C, d, a, c)
  }

  /** The first half of process_bucket_elimination. */
  method UpdateJumps<S(!new)>(E: Pass<S>, b: nat, before: Bars) returns (bars: Bars)
    requires PassReady(E) && Ready(E.C.P, E.C.G) && b < |E.C.G.buckets| && b < |E.C.jumps|
    requires forall a: nat :: a in before <==> Leaves(E.C, b, a)
    ensures AfterJumps(E, b, before, E.C.jumps[b], bars)
  {
    hide PassReady, SetupOk, Beyond, PairFrom, Arrives, GridUpTo;
    bars := before;
    var list := E.C.jumps[b];
    for i := 0 to |list|
      invariant AfterJumps(E, b, before, list[..i], bars)
    {
      var j := list[i];
      assert j in list && list[..i + 1] == list[..i] + [j];
      JumpFrom(E, b, j);
      ghost var bars0 := bars;
      var bar := UpdateAll(E, b, j.arc, j.jumpBucket, bars[j.arc]);
      bars := bars[j.arc := bar];
      OneMoreJump(E, b, before, list, i, bars0, bars);
    }
    assert list[..|list|] == list;
  }

  lemma JumpFrom<S(!new)>(E: Pass<S>, b: nat, j: JumpArc)
    requires PassReady(E) && b < |E.C.G.buckets| && b < |E.C.jumps| && j in E.C.jumps[b]
    ensures From(E.C, b, j.arc, j.jumpBucket) && Leaves(E.C, b, j.arc) && j.jumpBucket != b
  {
    hide TopoOrder, Grouped, Disposable, HasArc, GridUpTo, FullArcs, SideReady, OppositeBounds;
    assert JumpsOf(E.C, b, E.C.jumps[b]) && JumpOk(E.C, b, j);
    assert JumpsTo(E.C, b, j);
  }

  lemma OneMoreJump<S(!new)>(E: Pass<S>, b: nat, before: Bars, list: seq<JumpArc>, i: nat, bars0: Bars, bars: Bars)
    requires Ready(E.C.P, E.C.G) && i < |list| && AfterJumps(E, b, before, list[..i], bars0) && list[i].arc in bars0
    requires bars.Keys == bars0.Keys && forall a: nat :: a in bars && a != list[i].arc ==> bars[a] == bars0[a]
    requires forall c: nat ::
             c in bars[list[i].arc] <==>
               c in bars0[list[i].arc] || (Arrives(E.C, list[i].jumpBucket, list[i].arc, c)
               && PairFrom(E, b, list[i].arc, c))
    ensures AfterJumps(E, b, before, list[..i + 1], bars)
  {
    hide PairFrom, Arrives, GridUpTo;
    var j, more := list[i], list[..i + 1];
    assert more == list[..i] + [j];
    forall a: nat, c: nat | a in bars ensures c in bars[a] <==> c in before[a] || AddedByJump(E, b, more, a, c) {
      assert c in bars0[a] <==> c in before[a] || AddedByJump(E, b, list[..i], a, c);
      if AddedByJump(E, b, more, a, c) {
        var d: nat :| JumpArc(d, a) in more && Arrives(E.C, d, a, c);
      }
      if a == j.arc && Arrives(E.C, j.jumpBucket, a, c) && PairFrom(E, b, a, c) {
        assert JumpArc(j.jumpBucket, a) in more;
      }
    }
  }

  /** should_eliminate_arc: no bucket of the set lies behind the arrival bucket x. */
  method ShouldEliminate<S>(C: Setup<S>, x: nat, bar: set<nat>) returns (none: bool)
    requires Ready(C.P, C.G) && x < |C.G.buckets|
    ensures none <==> forall c: nat :: c in bar ==> !Beyond(C.P, C.G, C.dir, x, c)
  {
    hide GridUpTo, Beyond;
    BucketFacts(C.P, C.G, x);
    var v := C.G.buckets[x].vertex;
    GridSizes(C);
    for c := C.G.start[v] to RangeEnd(C.G, v)
      invariant forall h: nat :: C.G.start[v] <= h < c && h in bar ==> !Beyond(C.P, C.G, C.dir, x, h)
    {
      SameCells(C, v, x, c);
      if c !in bar { continue; }
      var behind := if C.dir.Forward? then Kx(C.G, c) >= Kx(C.G, x) && Ky(C.G, c) >= Ky(C.G, x)
          else Kx(C.G, c) <= Kx(C.G, x) && Ky(C.G, c) <= Ky(C.G, x);
      if behind { return false; }
    }
    forall c: nat | c in bar ensures !Beyond(C.P, C.G, C.dir, x, c) {
      BeyondHere(C, x, c);
    }
    return true;
  }

  lemma GridSizes<S>(C: Setup<S>)
    requires Ready(C.P, C.G)
    ensures |C.G.start| == |C.G.nx| == |C.G.ny| == C.P.nVertices
  {
  }

  lemma BeyondHere<S>(C: Setup<S>, x: nat, c: nat)
    requires Ready(C.P, C.G) && x < |C.G.buckets|
    ensures |C.G.start| == |C.G.nx| == |C.G.ny| == C.P.nVertices && C.G.buckets[x].vertex < C.P.nVertices
    ensures Beyond(C.P, C.G, C.dir, x, c) ==>
              C.G.start[C.G.buckets[x].vertex] <= c < RangeEnd(C.G, C.G.buckets[x].vertex)
  {
    BucketFacts(C.P, C.G, x);
    if c < |C.G.buckets| { BucketFacts(C.P, C.G, c); }
  }

  lemma SameCells<S>(C: Setup<S>, v: nat, x: nat, c: nat)
    requires Ready(C.P, C.G) && x < |C.G.buckets| && C.G.buckets[x].vertex == v && v < |C.G.start| && v < |C.G.nx|
             && v < |C.G.ny|
    requires C.G.start[v] <= c < RangeEnd(C.G, v)
    ensures c < |C.G.buckets| && C.G.buckets[c].vertex == v && C.G.ny[v] >= 1
    ensures Beyond(C.P, C.G, C.dir, x, c) <==>
              if C.dir.Forward? then Kx(C.G, c) >= Kx(C.G, x) && Ky(C.G, c) >= Ky(C.G, x)
                  else Kx(C.G, c) <= Kx(C.G, x) && Ky(C.G, c) <= Ky(C.G, x)
  {
    BucketFacts(C.P, C.G, x);
    assert RangeOk(C.P, C.G, C.P.nVertices, v);
    BucketFacts(C.P, C.G, c);
    assert BucketOk(C.P, C.G, C.P.nVertices, x) && BucketOk(C.P, C.G, C.P.nVertices, c);
  }

  /** bars is `before` with the partners reached over the bucket arcs of b in list. */
  ghost predicate AfterArcs<S>(E: Pass<S>, b: nat, before: Bars, list: seq<BucketArc>, bars: Bars)
    requires Ready(E.C.P, E.C.G)
  {
    && bars.Keys == before.Keys
    && (forall a: nat, c: nat ::
      a in bars ==> (c in bars[a] <==> c in before[a] || ((exists e :: e in list && e.arc == a) && ByArc(E, b, a, c))))
  }

  ghost predicate ByArc<S>(E: Pass<S>, b: nat, a: nat, c: nat)
    requires Ready(E.C.P, E.C.G)
  {
    PairFrom(E, b, a, c) && Arrives(E.C, b, a, c)
  }

  /** The arc stays because of a bucket already known or one just found. */
  ghost predicate Stays<S>(E: Pass<S>, b: nat, before: Bars, e: BucketArc)
    requires Ready(E.C.P, E.C.G)
  {
    e.arc in before && exists c: nat :: (c in before[e.arc] || ByArc(E, b, e.arc, c)) && Arrives(E.C, b, e.arc, c)
  }

  /** Whatever is kept comes from the list. */
  ghost predicate InOrder(list: seq<BucketArc>, kept: seq<BucketArc>) {
    forall j: nat :: j < |kept| ==> exists h: nat :: h < |list| && list[h] == kept[j]
  }

  lemma NoOrder()
    ensures InOrder([], []) && ArcOrder([])
  {
  }

  lemma KeepOrder(list: seq<BucketArc>, i: nat, kept: seq<BucketArc>)
    requires i < |list| && InOrder(list[..i], kept) && (ArcOrder(list) ==> ArcOrder(kept))
    ensures InOrder(list[..i + 1], kept) && InOrder(list[..i + 1], kept + [list[i]])
    ensures ArcOrder(list) ==> ArcOrder(kept + [list[i]])
  {
    var more, all := list[..i + 1], kept + [list[i]];
    forall j: nat | j < |all| ensures exists h: nat :: h < |more| && more[h] == all[j] {
      if j < |kept| {
        var h: nat :| h < i && list[..i][h] == kept[j];
        assert more[h] == all[j];
      } else {
        assert more[i] == all[j];
      }
    }
  }

  /** One bucket arc: its updates, then the test whether it can go. */
  method TryArc<S(!new)>(E: Pass<S>, b: nat, e: BucketArc, before: set<nat>) returns (bar: set<nat>, eliminate: bool)
    requires PassReady(E) && Ready(E.C.P, E.C.G) && b < |E.C.G.buckets| && b < |E.C.arcs| && e in E.C.arcs[b]
    ensures forall c: nat :: c in bar <==> c in before || (Arrives(E.C, b, e.arc, c) && PairFrom(E, b, e.arc, c))
    ensures eliminate <==> forall c: nat :: c in bar ==> !Arrives(E.C, b, e.arc, c)
  {
    hide PassReady, SetupOk, Beyond, PairFrom, GridUpTo, Open, Target, InWindow, From;
    ArcFrom(E, b, e);
    bar := before;
    if !Open(E.C.P, E.C.G, E.C.dir, b, e.arc) { return bar, true; }
    bar := UpdateAll(E, b, e.arc, b, before);
    eliminate := ShouldEliminate(E.C, Target(E.C.P, E.C.G, E.C.dir, b, e.arc), bar);
  }

  /** The second half of process_bucket_elimination. */
  method UpdateArcs<S(!new)>(E: Pass<S>, b: nat, before: Bars) returns (bars: Bars, kept: seq<BucketArc>)
    requires PassReady(E) && Ready(E.C.P, E.C.G) && b < |E.C.G.buckets| && b < |E.C.arcs|
    requires forall a: nat :: a in before <==> Leaves(E.C, b, a)
    ensures AfterArcs(E, b, before, E.C.arcs[b], bars)
    ensures forall e :: e in kept <==> e in E.C.arcs[b] && Stays(E, b, before, e)
    ensures ArcOrder(E.C.arcs[b]) ==> ArcOrder(kept)
  {
    hide PassReady, SetupOk, Beyond, PairFrom, Arrives, GridUpTo, Open, Target, Stays, AfterArcs, ArcOrder, InOrder;
    var list := E.C.arcs[b];
    bars, kept := before, [];
    NoArcs(E, b, before);
    assert InOrder([], []) && ArcOrder([]) by { NoOrder(); }
    for i := 0 to |list|
      invariant AfterArcs(E, b, before, list[..i], bars)
      invariant forall e :: e in kept <==> e in list[..i] && Stays(E, b, before, e)
      invariant InOrder(list[..i], kept) && (ArcOrder(list) ==> ArcOrder(kept))
    {
      var e := list[i];
      KeepOrder(list, i, kept);
      assert e in list && list[..i + 1] == list[..i] + [e];
      ArcFrom(E, b, e);
      KeysKept(E, b, before, list[..i], bars);
      ghost var bars0 := bars;
      var bar, eliminate := TryArc(E, b, e, bars[e.arc]);
      bars := bars[e.arc := bar];
      OneMoreArc(E, b, before, list, i, bars0, bars, !eliminate);
      if !eliminate { kept := kept + [e]; }
    }
    assert list[..|list|] == list;
  }

  lemma NoArcs<S>(E: Pass<S>, b: nat, before: Bars)
    requires Ready(E.C.P, E.C.G)
    ensures AfterArcs(E, b, before, [], before)
  {
  }

  lemma KeysKept<S>(E: Pass<S>, b: nat, before: Bars, list: seq<BucketArc>, bars: Bars)
    requires Ready(E.C.P, E.C.G) && AfterArcs(E, b, before, list, bars)
    ensures bars.Keys == before.Keys
  {
  }

  lemma ArcFrom<S(!new)>(E: Pass<S>, b: nat, e: BucketArc)
    requires PassReady(E) && b < |E.C.G.buckets| && b < |E.C.arcs| && e in E.C.arcs[b]
    ensures From(E.C, b, e.arc, b) && Leaves(E.C, b, e.arc) && Open(E.C.P, E.C.G, E.C.dir, b, e.arc)
    ensures var v := E.C.P.top.Head(E.C.dir, e.arc);
            && v < E.C.P.nVertices && v < |E.C.G.start| && v < |E.C.G.ny| && E.C.G.width(v).x > 0.0
            && E.C.G.width(v).y > 0.0
            && Target(E.C.P, E.C.G, E.C.dir, b, e.arc) < |E.C.G.buckets|
  {
    hide PassReady, SetupOk, GridUpTo, Open, Target;
    PassFacts(E);
    assert HasArc(E.C, b, e.arc);
    HeldArc(E.C, b, e.arc);
    TargetIs(E.C, b, e.arc);
  }

  lemma OneMoreArc<S(!new)>(E: Pass<S>, b: nat, before: Bars, list: seq<BucketArc>, i: nat, bars0: Bars, bars: Bars,
                            stays: bool)
    requires Ready(E.C.P, E.C.G) && i < |list| && AfterArcs(E, b, before, list[..i], bars0) && list[i].arc in bars0
    requires b < |E.C.G.buckets| && Open(E.C.P, E.C.G, E.C.dir, b, list[i].arc) && list[i].arc < E.C.P.nArcs
    requires bars.Keys == bars0.Keys && forall a: nat :: a in bars && a != list[i].arc ==> bars[a] == bars0[a]
    requires forall c: nat ::
             c in bars[list[i].arc] <==>
               c in bars0[list[i].arc] || (Arrives(E.C, b, list[i].arc, c) && PairFrom(E, b, list[i].arc, c))
    requires stays <==> exists c: nat :: c in bars[list[i].arc] && Arrives(E.C, b, list[i].arc, c)
    ensures AfterArcs(E, b, before, list[..i + 1], bars)
    ensures stays <==> Stays(E, b, before, list[i])
  {
    hide PairFrom, Arrives, GridUpTo, Open;
    var e, more := list[i], list[..i + 1];
    assert more == list[..i] + [e];
    assert e in more;
    forall a: nat, c: nat | a in bars
      ensures c in bars[a] <==> c in before[a] || ((exists x :: x in more && x.arc == a) && ByArc(E, b, a, c))
    {
      assert c in bars0[a] <==> c in before[a] || ((exists x :: x in list[..i] && x.arc == a) && ByArc(E, b, a, c));
    }
  }

  /** What processing bucket b leaves: its sets are complete, and exactly the arcs they justify stay. */
  ghost predicate BucketDone<S>(E: Pass<S>, b: nat, before: Bars, bars: Bars, kept: seq<BucketArc>)
    requires Ready(E.C.P, E.C.G)
  {
    && b < |E.C.arcs| && bars.Keys == before.Keys
    && (forall a: nat, c: nat :: a in bars ==> (c in bars[a] <==> c in before[a] || Adds(E, b, a, c)))
    && (forall e :: e in kept <==> e in E.C.arcs[b] && Backed(E, b, bars, e))
    && (ArcOrder(E.C.arcs[b]) ==> ArcOrder(kept))
  }

  ghost predicate Backed<S>(E: Pass<S>, b: nat, bars: Bars, e: BucketArc)
    requires Ready(E.C.P, E.C.G)
  {
    e.arc in bars && exists c: nat :: c in bars[e.arc] && Arrives(E.C, b, e.arc, c)
  }

  /** process_bucket_elimination. */
  method ProcessBucket<S(!new)>(E: Pass<S>, b: nat, before: Bars) returns (bars: Bars, kept: seq<BucketArc>)
    requires PassReady(E) && Ready(E.C.P, E.C.G) && b < |E.C.G.buckets|
    requires forall a: nat :: a in before <==> Leaves(E.C, b, a)
    ensures BucketDone(E, b, before, bars, kept)
  {
    hide PassReady, SetupOk, Beyond, PairFrom, Arrives, GridUpTo, Adds, AddedByJump, ByArc;
    PassFacts(E);
    var first := UpdateJumps(E, b, before);
    bars, kept := UpdateArcs(E, b, first);
    forall a: nat, c: nat | a in bars ensures c in bars[a] <==> c in before[a] || Adds(E, b, a, c) {
      assert c in first[a] <==> c in before[a] || AddedByJump(E, b, E.C.jumps[b], a, c);
      AddsHow(E, b, a, c);
    }
    forall e | e in E.C.arcs[b] ensures Stays(E, b, first, e) <==> Backed(E, b, bars, e) {
      forall c: nat | e.arc in bars ensures c in bars[e.arc] <==> c in first[e.arc] || ByArc(E, b, e.arc, c) {}
    }
  }

  lemma AddsHow<S(!new)>(E: Pass<S>, b: nat, a: nat, c: nat)
    requires PassReady(E) && Ready(E.C.P, E.C.G) && b < |E.C.G.buckets| && b < |E.C.jumps| && b < |E.C.arcs|
    ensures Adds(E, b, a, c) <==>
              AddedByJump(E, b, E.C.jumps[b], a, c) || ((exists e :: e in E.C.arcs[b] && e.arc == a)
              && ByArc(E, b, a, c))
  {
    hide PassReady, PairFrom, Arrives, GridUpTo;
    if AddedByJump(E, b, E.C.jumps[b], a, c) {
      var d: nat :| JumpArc(d, a) in E.C.jumps[b] && Arrives(E.C, d, a, c);
      JumpFrom(E, b, JumpArc(d, a));
    }
    if (exists e :: e in E.C.arcs[b] && e.arc == a) && ByArc(E, b, a, c) { assert From(E.C, b, a, b); }
  }

  // ----- All buckets of one vertex -----

  /** The complete sets of bucket b. */
  ghost predicate CellSets<S>(E: Pass<S>, b: nat, bars: Bars)
    requires Ready(E.C.P, E.C.G)
  {
    (forall a: nat :: a in bars <==> Leaves(E.C, b, a)) && forall a: nat :: a in bars ==> IsBar(E, b, a, bars[a])
  }

  /** Exactly the needed arcs of b are left, if b is open; those of a fixed bucket are not looked at. */
  ghost predicate Survivors<S>(E: Pass<S>, b: nat, kept: seq<BucketArc>)
    requires Ready(E.C.P, E.C.G)
  {
    && b < |E.C.arcs| && (forall e :: e in kept <==> e in E.C.arcs[b] && (b in E.C.fixed || Needed(E, b, e)))
    && (ArcOrder(E.C.arcs[b]) ==> ArcOrder(kept))
  }

  /** The sets of the two buckets before the one with rank (i, j), joined. */
  ghost predicate Joined<S>(E: Pass<S>, v: nat, i: nat, j: nat, sets: map<nat, Bars>, before: Bars)
    requires Ready(E.C.P, E.C.G) && v < E.C.P.nVertices && v < |E.C.G.start| && v < |E.C.G.nx| && v < |E.C.G.ny|
             && i < E.C.G.nx[v] && j < E.C.G.ny[v]
  {
    forall a: nat, c: nat :: a in before ==> (c in before[a] <==>
      || (i > 0 && InSet(sets, RankCell(E.C.G, E.C.dir, v, i - 1, j), a, c))
      || (j > 0 && InSet(sets, RankCell(E.C.G, E.C.dir, v, i, j - 1), a, c)))
  }

  predicate InSet(sets: map<nat, Bars>, b: int, a: nat, c: nat) {
    b >= 0 && b in sets && a in sets[b] && c in sets[b][a]
  }

  function SetOf(sets: map<nat, Bars>, b: int, a: nat): set<nat> {
    if b >= 0 && b in sets && a in sets[b] then sets[b][a] else {}
  }

  /** The propagation step of bucket_arc_elimination. */
  method Propagate<S>(E: Pass<S>, v: nat, i: nat, j: nat, out: seq<nat>, sets: map<nat, Bars>) returns (before: Bars)
    requires Ready(E.C.P, E.C.G) && v < E.C.P.nVertices && v < |E.C.G.start| && v < |E.C.G.nx| && v < |E.C.G.ny|
             && i < E.C.G.nx[v] && j < E.C.G.ny[v]
    ensures forall a: nat :: a in before <==> a in out
    ensures Joined(E, v, i, j, sets, before)
  {
    hide GridUpTo, RankCell;
    before := map[];
    for n := 0 to |out|
      invariant forall a: nat :: a in before <==> a in out[..n]
      invariant Joined(E, v, i, j, sets, before)
    {
      var a, bar: set<nat> := out[n], {};
      assert out[..n + 1] == out[..n] + [a];
      if i > 0 { bar := bar + SetOf(sets, RankCell(E.C.G, E.C.dir, v, i - 1, j), a); }
      if j > 0 { bar := bar + SetOf(sets, RankCell(E.C.G, E.C.dir, v, i, j - 1), a); }
      before := before[a := bar];
    }
    assert out[..|out|] == out;
  }

  /**
   * The set of an open bucket is what it adds and the sets of its two predecessors; a fixed bucket hands on nothing.
   */
  lemma BarStep<S(!new)>(E: Pass<S>, b: nat, v: nat, i: nat, j: nat, a: nat, c: nat)
    requires Ready(E.C.P, E.C.G) && AtRank(E.C.P, E.C.G, E.C.dir, b, v, i, j)
    ensures v < |E.C.G.start| && v < |E.C.G.nx| && v < |E.C.G.ny|
    ensures i > 0 ==> RankCell(E.C.G, E.C.dir, v, i - 1, j) >= 0
    ensures j > 0 ==> RankCell(E.C.G, E.C.dir, v, i, j - 1) >= 0
    ensures InBar(E, b, a, c) <==>
              b !in E.C.fixed &&
              (|| Adds(E, b, a, c)
               || (i > 0 && InBar(E, RankCell(E.C.G, E.C.dir, v, i - 1, j), a, c))
               || (j > 0 && InBar(E, RankCell(E.C.G, E.C.dir, v, i, j - 1), a, c)))
  {
    hide BucketOk, RangeOk, Adds, GridUpTo, RankCell, Passage;
    RankSizes(E.C, b, v, i, j);
    if i > 0 { RankFacts(E.C.P, E.C.G, E.C.dir, v, i - 1, j); }
    if j > 0 { RankFacts(E.C.P, E.C.G, E.C.dir, v, i, j - 1); }
    forall o: nat ensures HandsOn(E.C, o, b) <==>
              b !in E.C.fixed && (|| o == b
                                  || (i > 0 && HandsOn(E.C, o, RankCell(E.C.G, E.C.dir, v, i - 1, j)))
                                  || (j > 0 && HandsOn(E.C, o, RankCell(E.C.G, E.C.dir, v, i, j - 1))))
    {
      HandsOnAt(E.C, o, b, v, i, j);
      if i > 0 { HandsOnAt(E.C, o, RankCell(E.C.G, E.C.dir, v, i - 1, j), v, i - 1, j); }
      if j > 0 { HandsOnAt(E.C, o, RankCell(E.C.G, E.C.dir, v, i, j - 1), v, i, j - 1); }
      PassageStep(E.C, v, o, i, j);
    }
    BarCases(E, b, if i > 0 then RankCell(E.C.G, E.C.dir, v, i - 1, j)
          else -1, if j > 0 then RankCell(E.C.G, E.C.dir, v, i, j - 1) else -1, a, c);
  }

  lemma BarCases<S>(E: Pass<S>, b: nat, x: int, y: int, a: nat, c: nat)
    requires Ready(E.C.P, E.C.G)
    requires forall o: nat ::
             HandsOn(E.C, o, b) <==>
               b !in E.C.fixed && (o == b || (x >= 0 && HandsOn(E.C, o, x)) || (y >= 0 && HandsOn(E.C, o, y)))
    ensures InBar(E, b, a, c) <==>
              b !in E.C.fixed && (Adds(E, b, a, c) || (x >= 0 && InBar(E, x, a, c)) || (y >= 0 && InBar(E, y, a, c)))
  {
    hide HandsOn, Adds, GridUpTo;
    if b !in E.C.fixed && Adds(E, b, a, c) { assert HandsOn(E.C, b, b); }
    if b !in E.C.fixed && x >= 0 && InBar(E, x, a, c) {
      var o: nat :| HandsOn(E.C, o, x) && Adds(E, o, a, c);
      assert HandsOn(E.C, o, b);
    }
    if b !in E.C.fixed && y >= 0 && InBar(E, y, a, c) {
      var o: nat :| HandsOn(E.C, o, y) && Adds(E, o, a, c);
      assert HandsOn(E.C, o, b);
    }
  }

  lemma HandsOnAt<S(!new)>(C: Setup<S>, o: nat, b: nat, v: nat, i: nat, j: nat)
    requires Ready(C.P, C.G) && AtRank(C.P, C.G, C.dir, b, v, i, j)
    ensures HandsOn(C, o, b) <==> Passage(C, v, o, i, j)
  {
    hide BucketOk, RangeOk, GridUpTo, RankCell, Passage;
    if HandsOn(C, o, b) {
      var w: nat, x: nat, y: nat :| AtRank(C.P, C.G, C.dir, b, w, x, y) && Passage(C, w, o, x, y);
      RankUnique(C.P, C.G, C.dir, b, v, i, j, x, y);
    }
  }

  lemma PassageStep<S(!new)>(C: Setup<S>, v: nat, o: nat, i: nat, j: nat)
    requires Ready(C.P, C.G) && v < C.P.nVertices && i < C.G.nx[v] && j < C.G.ny[v]
    ensures Passage(C, v, o, i, j) <==>
              RankCell(C.G, C.dir, v, i, j) !in C.fixed
              && (o == RankCell(C.G, C.dir, v, i, j) || (i > 0 && Passage(C, v, o, i - 1, j))
              || (j > 0 && Passage(C, v, o, i, j - 1)))
  {
  }

  /** Propagation and processing complete the sets of a bucket whose predecessors are complete. */
  lemma CellComplete<S(!new)>(E: Pass<S>, b: nat, v: nat, i: nat, j: nat, sets: map<nat, Bars>, before: Bars,
                              bars: Bars, kept: seq<BucketArc>)
    requires Ready(E.C.P, E.C.G) && AtRank(E.C.P, E.C.G, E.C.dir, b, v, i, j)
    requires v < |E.C.G.start| && v < |E.C.G.nx| && v < |E.C.G.ny| && i < E.C.G.nx[v] && j < E.C.G.ny[v]
    requires i > 0 ==> DoneAt(E, RankCell(E.C.G, E.C.dir, v, i - 1, j), sets)
    requires j > 0 ==> DoneAt(E, RankCell(E.C.G, E.C.dir, v, i, j - 1), sets)
    requires forall a: nat :: a in before <==> Leaves(E.C, b, a)
    requires b !in E.C.fixed && Joined(E, v, i, j, sets, before) && BucketDone(E, b, before, bars, kept)
    ensures CellSets(E, b, bars)
  {
    hide BucketOk, RangeOk, Adds, GridUpTo, RankCell, InBar, Backed, DoneAt, InSet, Beyond;
    RankSizes(E.C, b, v, i, j);
    if i > 0 { RankFacts(E.C.P, E.C.G, E.C.dir, v, i - 1, j); }
    if j > 0 { RankFacts(E.C.P, E.C.G, E.C.dir, v, i, j - 1); }
    forall a: nat, c: nat | a in bars ensures c in bars[a] <==> InBar(E, b, a, c) {
      assert c in bars[a] <==> c in before[a] || Adds(E, b, a, c);
      BarStep(E, b, v, i, j, a, c);
      if i > 0 { SetIsBar(E, b, v, i, j, RankCell(E.C.G, E.C.dir, v, i - 1, j), sets, a, c); }
      if j > 0 { SetIsBar(E, b, v, i, j, RankCell(E.C.G, E.C.dir, v, i, j - 1), sets, a, c); }
    }
  }

  ghost predicate DoneAt<S>(E: Pass<S>, b: int, sets: map<nat, Bars>)
    requires Ready(E.C.P, E.C.G)
  {
    b >= 0 && b < |E.C.G.buckets| && if b in E.C.fixed then b !in sets else b in sets && CellSets(E, b, sets[b])
  }

  lemma SetIsBar<S(!new)>(E: Pass<S>, b: nat, v: nat, i: nat, j: nat, o: int, sets: map<nat, Bars>, a: nat, c: nat)
    requires Ready(E.C.P, E.C.G) && AtRank(E.C.P, E.C.G, E.C.dir, b, v, i, j) && Leaves(E.C, b, a)
    requires DoneAt(E, o, sets) && E.C.G.buckets[o].vertex == v
    ensures o >= 0 && (InSet(sets, o, a, c) <==> InBar(E, o, a, c))
  {
    hide BucketOk, RangeOk, Adds, GridUpTo, RankCell, HandsOn;
    if o in E.C.fixed {
      forall x: nat ensures !HandsOn(E.C, x, o) { HandsOnFrom(E.C, x, o); }
    } else {
      assert Leaves(E.C, o, a);
      assert IsBar(E, o, a, sets[o][a]);
    }
  }

  /** The cell with rank (p, q) has its complete sets and its final arcs. */
  ghost predicate RankDone<S>(E: Pass<S>, v: nat, sets: map<nat, Bars>, arcs: seq<seq<BucketArc>>, p: nat, q: nat)
    requires Ready(E.C.P, E.C.G) && v < |E.C.G.start| && v < |E.C.G.nx| && v < |E.C.G.ny|
  {
    p < E.C.G.nx[v] && q < E.C.G.ny[v] && var b := RankCell(E.C.G, E.C.dir, v, p, q);
        DoneAt(E, b, sets) && b < |arcs| && Survivors(E, b, arcs[b])
  }

  /** The cells of v before rank (i, j) are done, and nothing else has changed since `before`. */
  ghost predicate SweptTo<S>(E: Pass<S>, v: nat, before: seq<seq<BucketArc>>, sets: map<nat, Bars>,
                             arcs: seq<seq<BucketArc>>, i: nat, j: nat)
    requires Ready(E.C.P, E.C.G) && v < |E.C.G.start| && v < |E.C.G.nx| && v < |E.C.G.ny|
  {
    && |arcs| == |before| == |E.C.G.buckets|
    && (forall p: nat, q: nat ::
      p < E.C.G.nx[v] && q < E.C.G.ny[v] && (p < i || (p == i && q < j)) ==> RankDone(E, v, sets, arcs, p, q))
    && (forall b: nat :: b < |arcs| && E.C.G.buckets[b].vertex != v ==> arcs[b] == before[b])
    && (forall b: nat :: b < |arcs| && b in E.C.fixed ==> b !in sets && arcs[b] == before[b])
  }

  lemma SweepCellDone<S(!new)>(E: Pass<S>, v: nat, before: seq<seq<BucketArc>>, sets: map<nat, Bars>,
                               arcs: seq<seq<BucketArc>>,
                               i: nat, j: nat, b: nat, bars: Bars, kept: seq<BucketArc>)
    requires Ready(E.C.P, E.C.G) && v < |E.C.G.start| && v < |E.C.G.nx| && v < |E.C.G.ny|
             && SweptTo(E, v, before, sets, arcs, i, j)
    requires AtRank(E.C.P, E.C.G, E.C.dir, b, v, i, j) && CellSets(E, b, bars) && Survivors(E, b, kept)
             && b !in E.C.fixed
    ensures SweptTo(E, v, before, sets[b := bars], arcs[b := kept], i, j + 1)
  {
    hide BucketOk, RangeOk, GridUpTo, RankCell, CellSets, Survivors;
    RankSizes(E.C, b, v, i, j);
    var next, more, list := j + 1, sets[b := bars], arcs[b := kept];
    forall p: nat, q: nat | p < E.C.G.nx[v] && q < E.C.G.ny[v] && (p < i || (p == i && q < next))
      ensures RankDone(E, v, more, list, p, q)
    {
      RankFacts(E.C.P, E.C.G, E.C.dir, v, p, q);
      if p == i && q == j {
      } else {
        var o: nat := RankCell(E.C.G, E.C.dir, v, p, q);
        if o == b { RankUnique(E.C.P, E.C.G, E.C.dir, b, v, i, j, p, q); }
        assert RankDone(E, v, sets, arcs, p, q);
      }
    }
  }

  lemma BackedNeeded<S(!new)>(E: Pass<S>, b: nat, before: Bars, bars: Bars, kept: seq<BucketArc>)
    requires PassReady(E) && Ready(E.C.P, E.C.G) && b < |E.C.G.buckets| && BucketDone(E, b, before, bars, kept)
             && CellSets(E, b, bars) && b !in E.C.fixed
    ensures Survivors(E, b, kept)
  {
    hide PassReady, InBar, Arrives, GridUpTo, Adds;
    forall e | e in E.C.arcs[b] ensures Backed(E, b, bars, e) <==> Needed(E, b, e) {
      ArcFrom(E, b, e);
      assert IsBar(E, b, e.arc, bars[e.arc]);
    }
  }

  /** A fixed bucket is left alone. */
  lemma FixedCellDone<S(!new)>(E: Pass<S>, v: nat, before: seq<seq<BucketArc>>, sets: map<nat, Bars>,
                               arcs: seq<seq<BucketArc>>, i: nat, j: nat, b: nat)
    requires PassReady(E) && Ready(E.C.P, E.C.G) && v < |E.C.G.start| && v < |E.C.G.nx| && v < |E.C.G.ny|
             && SweptTo(E, v, before, sets, arcs, i, j)
    requires AtRank(E.C.P, E.C.G, E.C.dir, b, v, i, j) && b in E.C.fixed
    requires forall c: nat ::
             c < |before| && E.C.G.buckets[c].vertex == v ==> c < |E.C.arcs| && before[c] == E.C.arcs[c]
    ensures SweptTo(E, v, before, sets, arcs, i, j + 1)
  {
    hide PassReady, BucketOk, RangeOk, GridUpTo, RankCell, CellSets, Needed;
    RankSizes(E.C, b, v, i, j);
    var next := j + 1;
    forall p: nat, q: nat | p < E.C.G.nx[v] && q < E.C.G.ny[v] && (p < i || (p == i && q < next))
      ensures RankDone(E, v, sets, arcs, p, q)
    {
      RankFacts(E.C.P, E.C.G, E.C.dir, v, p, q);
      if p != i || q != j { assert RankDone(E, v, sets, arcs, p, q); }
    }
  }

  /** One step of the sweep over v. */
  method SweepCell<S(!new)>(E: Pass<S>, v: nat, out: seq<nat>, ghost before: seq<seq<BucketArc>>, sets: map<nat,
                            Bars>, arcs: seq<seq<BucketArc>>, i: nat, j: nat)
    returns (sets': map<nat, Bars>, arcs': seq<seq<BucketArc>>)
    requires PassReady(E) && Ready(E.C.P, E.C.G) && v < E.C.P.nVertices && v < |E.C.G.start| && v < |E.C.G.nx|
             && v < |E.C.G.ny| && i < E.C.G.nx[v] && j < E.C.G.ny[v]
    requires forall a: nat :: a in out <==> a < E.C.P.nArcs && E.C.P.top.Tail(E.C.dir, a) == v
    requires SweptTo(E, v, before, sets, arcs, i, j)
    requires forall c: nat ::
             c < |before| && E.C.G.buckets[c].vertex == v ==> c < |E.C.arcs| && before[c] == E.C.arcs[c]
    ensures SweptTo(E, v, before, sets', arcs', i, j + 1)
  {
    hide PassReady, GridUpTo, RankCell, DoneAt, Joined, BucketDone, CellSets, Survivors, BucketOk, RangeOk;
    RankFacts(E.C.P, E.C.G, E.C.dir, v, i, j);
    var b: nat := RankCell(E.C.G, E.C.dir, v, i, j);
    if b in E.C.fixed {
      FixedCellDone(E, v, before, sets, arcs, i, j, b);
      return sets, arcs;
    }
    var first := Propagate(E, v, i, j, out, sets);
    var bars, kept := ProcessBucket(E, b, first);
    PredecessorsDone(E, v, before, sets, arcs, i, j);
    CellComplete(E, b, v, i, j, sets, first, bars, kept);
    BackedNeeded(E, b, first, bars, kept);
    SweepCellDone(E, v, before, sets, arcs, i, j, b, bars, kept);
    sets', arcs' := sets[b := bars], arcs[b := kept];
  }

  lemma PredecessorsDone<S(!new)>(E: Pass<S>, v: nat, before: seq<seq<BucketArc>>, sets: map<nat, Bars>,
                                  arcs: seq<seq<BucketArc>>, i: nat, j: nat)
    requires Ready(E.C.P, E.C.G) && v < |E.C.G.start| && v < |E.C.G.nx| && v < |E.C.G.ny| && i < E.C.G.nx[v]
             && j < E.C.G.ny[v]
    requires SweptTo(E, v, before, sets, arcs, i, j)
    ensures i > 0 ==> DoneAt(E, RankCell(E.C.G, E.C.dir, v, i - 1, j), sets)
    ensures j > 0 ==> DoneAt(E, RankCell(E.C.G, E.C.dir, v, i, j - 1), sets)
  {
    hide GridUpTo, RankCell, DoneAt, Survivors;
    if i > 0 { assert RankDone(E, v, sets, arcs, i - 1, j); }
    if j > 0 { assert RankDone(E, v, sets, arcs, i, j - 1); }
  }

  /** The buckets of v are final, those of other vertices as before. */
  ghost predicate VertexDone<S>(E: Pass<S>, v: nat, before: seq<seq<BucketArc>>, arcs: seq<seq<BucketArc>>)
    requires Ready(E.C.P, E.C.G)
  {
    && |arcs| == |before| == |E.C.G.buckets|
    && (forall b: nat ::
      b < |arcs| ==> if E.C.G.buckets[b].vertex == v then Survivors(E, b, arcs[b]) else arcs[b] == before[b])
  }

  /** The sweep over the buckets of one vertex, from the side labels come from. */
  method EliminateAtVertex<S(!new)>(E: Pass<S>, v: nat, out: seq<nat>, before: seq<seq<BucketArc>>)
    returns (arcs: seq<seq<BucketArc>>)
    requires PassReady(E) && Ready(E.C.P, E.C.G) && v < E.C.P.nVertices && |before| == |E.C.G.buckets|
    requires forall a: nat :: a in out <==> a < E.C.P.nArcs && E.C.P.top.Tail(E.C.dir, a) == v
    requires forall b: nat :: b < |before| && E.C.G.buckets[b].vertex == v ==> before[b] == E.C.arcs[b]
    ensures VertexDone(E, v, before, arcs)
  {
    hide PassReady, GridUpTo, RankCell, RankDone, Survivors;
    arcs := before;
    if out == [] {
      forall b: nat | b < |arcs| && E.C.G.buckets[b].vertex == v
        ensures Survivors(E, b, arcs[b])
      {
        NoArcsLeave(E, b, v);
      }
      return;
    }
    PassFacts(E);
    GridSizes(E.C);
    var sets: map<nat, Bars> := map[];
    for i := 0 to E.C.G.nx[v]
      invariant SweptTo(E, v, before, sets, arcs, i, 0)
    {
      for j := 0 to E.C.G.ny[v]
        invariant SweptTo(E, v, before, sets, arcs, i, j)
      {
        sets, arcs := SweepCell(E, v, out, before, sets, arcs, i, j);
      }
    }
    SweepOver(E, v, before, sets, arcs);
  }

  lemma NoArcsLeave<S(!new)>(E: Pass<S>, b: nat, v: nat)
    requires PassReady(E) && Ready(E.C.P, E.C.G) && b < |E.C.G.buckets| && E.C.G.buckets[b].vertex == v
    requires forall a: nat :: !(a < E.C.P.nArcs && E.C.P.top.Tail(E.C.dir, a) == v)
    ensures b < |E.C.arcs| && Survivors(E, b, E.C.arcs[b])
  {
    hide PassReady, GridUpTo, Needed;
    PassFacts(E);
    if E.C.arcs[b] != [] { ArcFrom(E, b, E.C.arcs[b][0]); }
  }

  lemma SweepOver<S(!new)>(E: Pass<S>, v: nat, before: seq<seq<BucketArc>>, sets: map<nat, Bars>,
                           arcs: seq<seq<BucketArc>>)
    requires Ready(E.C.P, E.C.G) && v < |E.C.G.start| && v < |E.C.G.nx| && v < |E.C.G.ny|
             && SweptTo(E, v, before, sets, arcs, E.C.G.nx[v], 0)
    ensures VertexDone(E, v, before, arcs)
  {
    hide GridUpTo, RankCell, Survivors, BucketOk, RangeOk;
    forall b: nat | b < |arcs| && E.C.G.buckets[b].vertex == v ensures Survivors(E, b, arcs[b]) {
      var i, j := HasRank(E.C.P, E.C.G, E.C.dir, b);
      assert RankDone(E, v, sets, arcs, i, j);
    }
  }

  // ----- All vertices -----

  /** bucket_arc_elimination: exactly the needed bucket arcs survive. */
  method EliminateByLabels<S(!new)>(E: Pass<S>, adj: seq<seq<nat>>) returns (arcs: seq<seq<BucketArc>>)
    requires PassReady(E) && Ready(E.C.P, E.C.G) && |adj| == E.C.P.nVertices
    requires forall v: nat :: v < E.C.P.nVertices ==> adj[v] == ArcsAt(E.C.P, E.C.dir, v, E.C.P.nArcs)
    ensures |arcs| == |E.C.arcs| && forall b: nat :: b < |arcs| ==> Survivors(E, b, arcs[b])
  {
    hide PassReady, GridUpTo, Survivors, ArcsAt;
    PassFacts(E);
    arcs := E.C.arcs;
    for v := 0 to E.C.P.nVertices
      invariant |arcs| == |E.C.arcs|
      invariant forall b: nat :: b < |arcs| && E.C.G.buckets[b].vertex < v ==> Survivors(E, b, arcs[b])
      invariant forall b: nat :: b < |arcs| && E.C.G.buckets[b].vertex >= v ==> arcs[b] == E.C.arcs[b]
    {
      ArcsAtMembers(E.C.P, E.C.dir, v, E.C.P.nArcs);
      ghost var before := arcs;
      arcs := EliminateAtVertex(E, v, adj[v], arcs);
      assert VertexDone(E, v, before, arcs);
    }
    forall b: nat | b < |arcs| ensures Survivors(E, b, arcs[b]) { BucketFacts(E.C.P, E.C.G, b); }
  }

  // ----- The definition -----

  /**
   * The definition of section 4.2: a label k of this direction in a bucket no later than b and a label of the
   * other direction in a bucket no earlier than where e arrives are theta-compatible through the arc of e.
   * Where buckets are fixed, the earlier bucket must hand its sets on to b through open ones (HandsOnFrom).
   */
  ghost predicate Justified<S>(E: Pass<S>, b: nat, e: BucketArc)
    requires Ready(E.C.P, E.C.G)
  {
    exists o: nat, c: nat :: HandsOn(E.C, o, b) && Arrives(E.C, b, e.arc, c) && PairFrom(E, o, e.arc, c)
  }

  /** Wherever an earlier bucket takes the arc, it arrives no later. */
  lemma EarlierUse<S(!new)>(E: Pass<S>, o: nat, b: nat, e: BucketArc, c: nat) returns (d: nat)
    requires PassReady(E) && Ready(E.C.P, E.C.G) && b < |E.C.G.buckets| && b < |E.C.arcs| && e in E.C.arcs[b]
    requires Beyond(E.C.P, E.C.G, E.C.dir, o, b) && o !in E.C.fixed && Arrives(E.C, b, e.arc, c)
    ensures From(E.C, o, e.arc, d) && Arrives(E.C, d, e.arc, c)
  {
    hide Disposable, TopoOrder, Grouped, SideReady, OppositeBounds, GridUpTo, Target, Open, BucketOk, FullArcs,
         JumpOk, ArcOk;
    var a := e.arc;
    assert HasArc(E.C, b, a);
    if HasArc(E.C, o, a) {
      d := o;
    } else {
      assert Successor(E.C, o, a, b);
      d := FrontCovers(E.C, o, a, b);
      assert JumpsOf(E.C, o, E.C.jumps[o]);
      assert JumpsTo(E.C, o, JumpArc(d, a));
      assert d != o;
    }
    EarlierArrival(E.C, d, b, a, c);
  }

  lemma EarlierArrival<S(!new)>(C: Setup<S>, d: nat, b: nat, a: nat, c: nat)
    requires Ready(C.P, C.G) && b < |C.G.buckets| && Beyond(C.P, C.G, C.dir, d, b) && Arrives(C, b, a, c)
    ensures Arrives(C, d, a, c)
  {
    hide GridUpTo, Target, Open, BucketOk;
    TargetMonotone(C.P, C.G, C.dir, d, b, a);
    GridSizes(C);
    TargetIs(C, d, a);
    var x, y := Target(C.P, C.G, C.dir, d, a), Target(C.P, C.G, C.dir, b, a);
    BeyondOrder(C.P, C.G, C.dir, x, y, c);
  }

  /** Propagation, jump-arc updates and the recursion together compute exactly the definition. */
  lemma NeededIffJustified<S(!new)>(E: Pass<S>, b: nat, e: BucketArc)
    requires PassReady(E) && Ready(E.C.P, E.C.G) && b < |E.C.G.buckets| && b < |E.C.arcs| && e in E.C.arcs[b]
    ensures Needed(E, b, e) <==> Justified(E, b, e)
  {
    hide PassReady, GridUpTo, Beyond, Arrives, PairFrom, From, HandsOn;
    if Needed(E, b, e) {
      var c: nat :| InBar(E, b, e.arc, c) && Arrives(E.C, b, e.arc, c);
      var o: nat :| HandsOn(E.C, o, b) && Adds(E, o, e.arc, c);
    }
    if Justified(E, b, e) {
      var o: nat, c: nat :| HandsOn(E.C, o, b) && Arrives(E.C, b, e.arc, c) && PairFrom(E, o, e.arc, c);
      HandsOnFrom(E.C, o, b);
      var d := EarlierUse(E, o, b, e, c);
      assert Adds(E, o, e.arc, c);
    }
  }

  /** An arc of an open bucket survives exactly if its definition says so. */
  ghost predicate Retained<S>(E: Pass<S>, b: nat, e: BucketArc)
    requires Ready(E.C.P, E.C.G)
  {
    b in E.C.fixed || Justified(E, b, e)
  }

  /** bucket_arc_elimination: an arc of an open bucket survives exactly if its definition says so. */
  method BucketArcElimination<S(!new)>(E: Pass<S>, adj: seq<seq<nat>>) returns (arcs: seq<seq<BucketArc>>)
    requires PassReady(E) && Ready(E.C.P, E.C.G) && |adj| == E.C.P.nVertices
    requires forall v: nat :: v < E.C.P.nVertices ==> adj[v] == ArcsAt(E.C.P, E.C.dir, v, E.C.P.nArcs)
    ensures |arcs| == |E.C.arcs|
    ensures forall b: nat, e: BucketArc :: b < |arcs| ==> (e in arcs[b] <==> e in E.C.arcs[b] && Retained(E, b, e))
    ensures forall b: nat :: b < |arcs| && ArcOrder(E.C.arcs[b]) ==> ArcOrder(arcs[b])
  {
    hide PassReady, GridUpTo, Needed, Justified, ArcsAt, ArcOrder;
    PassFacts(E);
    arcs := EliminateByLabels(E, adj);
    forall b: nat, e: BucketArc | b < |arcs| ensures e in arcs[b] <==> e in E.C.arcs[b] && Retained(E, b, e) {
      assert Survivors(E, b, arcs[b]);
      if e in E.C.arcs[b] { NeededIffJustified(E, b, e); }
    }
  }

  // ----- After two labeling runs -----

  lemma OtherSide<S(!new)>(P: Problem<S>, G: Grid, dir: Direction, other: Direction, x: nat, c: nat)
    requires ValidGrid(P, G) && Beyond(P, G, dir, x, c) && dir != other
    ensures Beyond(P, G, other, c, x)
  {
  }

  /** The stores of the two runs D and O with their exact bounds, and exact jump arcs, are what a pass needs. */
  lemma ReadyAfterRuns<S(!new)>(E: Pass<S>, D: Setup<S>, O: Setup<S>)
    requires SetupOk(E.C) && SetupOk(D) && SetupOk(O)
    requires D.P == O.P == E.C.P && D.G == O.G == E.C.G && D.dir == E.C.dir && O.dir != E.C.dir
    requires forall b: nat :: b < |E.C.jumps| ==> JumpsOf(E.C, b, E.C.jumps[b])
    requires StoreOk(D, E.own.store) && AllBounds(D, E.own.store, E.own.cBest, E.own.vertexMin)
    requires StoreOk(O, E.opp.store) && AllBounds(O, E.opp.store, E.opp.cBest, E.opp.vertexMin)
    ensures PassReady(E)
  {
    hide TopoOrder, Grouped, Disposable, GridUpTo, JumpsOf, SideReady, LowerAt, RowIn, LabelOk, BucketOk;
    ReadySide(D, E.own);
    ReadySide(O, E.opp);
    SideSizes(E.C, E.opp);
    forall x: nat, c: nat | Beyond(E.C.P, E.C.G, E.C.dir, x, c)
      ensures LowerAt(E.opp.store.pool, E.opp.store.rows[c], E.opp.cBest[x])
    {
      OtherSide(E.C.P, E.C.G, E.C.dir, O.dir, x, c);
      BeyondOrder(E.C.P, E.C.G, O.dir, c, x, c);
      assert PrefixMin(O, E.opp.store.pool, E.opp.store.rows, x, E.opp.cBest[x]);
    }
  }

  lemma SideSizes<S(!new)>(C: Setup<S>, v: Side<S>)
    requires SetupOk(C) && SideReady(C.P, C.G, v)
    ensures |v.store.rows| == |v.cBest| == |C.G.buckets|
  {
  }

  /** The definition does not speak of jump arcs. */
  lemma RetainedAnyway<S(!new)>(E: Pass<S>, D: Pass<S>, b: nat, e: BucketArc)
    requires Ready(E.C.P, E.C.G) && D == E.(C := E.C.(jumps := D.C.jumps))
    ensures Retained(E, b, e) ==> Retained(D, b, e)
  {
    hide Beyond, JoinPair, GridUpTo, Passage;
    if Justified(E, b, e) {
      var o: nat, c: nat :| HandsOn(E.C, o, b) && Arrives(E.C, b, e.arc, c) && PairFrom(E, o, e.arc, c);
      var k: nat :| Undominated(E.own, o, k) && HasPair(E, k, e.arc, c);
      var h: nat :| Undominated(E.opp, c, h) && Pair(E, k, e.arc, h);
      assert Pair(D, k, e.arc, h);
      assert HasPair(D, k, e.arc, c);
      assert PairFrom(D, o, e.arc, c) && Arrives(D.C, b, e.arc, c);
      SameHandsOn(E.C, D.C, o, b);
    }
  }

  lemma SameHandsOn<S>(C: Setup<S>, D: Setup<S>, o: nat, b: nat)
    requires Ready(C.P, C.G) && D == C.(jumps := D.jumps) && HandsOn(C, o, b)
    ensures HandsOn(D, o, b)
  {
    hide GridUpTo, RankCell, Passage;
    var v: nat, i: nat, j: nat :| AtRank(C.P, C.G, C.dir, b, v, i, j) && Passage(C, v, o, i, j);
    SamePassage(C, D, v, o, i, j);
  }

  lemma {:induction false} SamePassage<S>(C: Setup<S>, D: Setup<S>, v: nat, o: nat, i: nat, j: nat)
    requires Ready(C.P, C.G) && v < C.P.nVertices && i < C.G.nx[v] && j < C.G.ny[v] && D == C.(jumps := D.jumps)
             && Passage(C, v, o, i, j)
    ensures Passage(D, v, o, i, j)
    decreases i + j
  {
    hide GridUpTo, RankCell;
    if i > 0 && Passage(C, v, o, i - 1, j) {
      SamePassage(C, D, v, o, i - 1, j);
    } else if j > 0 && Passage(C, v, o, i, j - 1) {
      SamePassage(C, D, v, o, i, j - 1);
    }
  }

  lemma SmallerOk<S(!new)>(C: Setup<S>, arcs: seq<seq<BucketArc>>)
    requires SetupOk(C) && |arcs| == |C.arcs| && forall b: nat, e: BucketArc ::
             b < |arcs| && e in arcs[b] ==> e in C.arcs[b]
    ensures SetupOk(C.(arcs := arcs))
  {
    hide TopoOrder, Grouped, Disposable, FullArcs;
    var D := C.(arcs := arcs);
    forall b: nat, e: BucketArc | b < |D.arcs| && e in D.arcs[b] ensures ArcOk(D, b, e) { assert ArcOk(C, b, e); }
    forall b: nat, j: JumpArc | b < |D.jumps| && j in D.jumps[b] ensures JumpOk(D, b, j) { assert JumpOk(C, b, j); }
  }

  /** Both directions have been labeled: E.C is the run of E.own, O that of E.opp. */
  ghost predicate Labeled<S(!new)>(E: Pass<S>, O: Setup<S>) {
    && SetupOk(E.C) && SetupOk(O) && O.P == E.C.P && O.G == E.C.G && O.dir != E.C.dir && ArcsOrdered(E.C)
    && StoreOk(E.C, E.own.store) && AllBounds(E.C, E.own.store, E.own.cBest, E.own.vertexMin)
    && StoreOk(O, E.opp.store) && AllBounds(O, E.opp.store, E.opp.cBest, E.opp.vertexMin)
  }

  /** C with its jump arcs made anew. */
  method WithJumps<S(!new)>(C: Setup<S>, adj: seq<seq<nat>>) returns (D: Setup<S>)
    requires SetupOk(C) && ArcsOrdered(C) && |adj| == C.P.nVertices
             && forall v: nat :: v < C.P.nVertices ==> adj[v] == ArcsAt(C.P, C.dir, v, C.P.nArcs)
    ensures D == C.(jumps := D.jumps) && SetupOk(D) && Ready(D.P, D.G) && |D.arcs| == |D.jumps| == |D.G.buckets|
    ensures forall b: nat :: b < |D.jumps| ==> JumpsOf(D, b, D.jumps[b])
  {
    hide JumpsOf, ArcsOrdered, GridUpTo, JumpOk;
    var jumps := ObtainJumpArcs(C, adj, false);
    NewJumps(C, jumps);
    D := C.(jumps := jumps);
    SetupReady(D);
    forall b: nat | b < |D.jumps| ensures JumpsOf(D, b, D.jumps[b]) { SameJumps(C, D, b, jumps[b]); }
  }

  lemma SameJumps<S(!new)>(C: Setup<S>, D: Setup<S>, b: nat, list: seq<JumpArc>)
    requires Ready(C.P, C.G) && |C.arcs| == |C.G.buckets| && D == C.(jumps := D.jumps) && JumpsOf(C, b, list)
    ensures JumpsOf(D, b, list)
  {
    hide GridUpTo, Beyond;
    forall j ensures j in list <==> JumpsTo(D, b, j) {
      assert forall d: nat :: Successor(C, b, j.arc, d) <==> Successor(D, b, j.arc, d);
      assert JumpsTo(C, b, j) <==> JumpsTo(D, b, j);
    }
  }

  /** One direction of eliminate_arcs_label_based: jump arcs, elimination, jump arcs again. */
  method EliminateDirection<S(!new)>(E: Pass<S>, ghost O: Setup<S>, adj: seq<seq<nat>>) returns (D: Setup<S>)
    requires Labeled(E, O) && Ready(E.C.P, E.C.G) && |adj| == E.C.P.nVertices
    requires forall v: nat :: v < E.C.P.nVertices ==> adj[v] == ArcsAt(E.C.P, E.C.dir, v, E.C.P.nArcs)
    ensures D == E.C.(arcs := D.arcs, jumps := D.jumps) && SetupOk(D) && |D.arcs| == |D.jumps| == |E.C.arcs|
    ensures forall b: nat, e: BucketArc :: b < |D.arcs| ==> (e in D.arcs[b] <==> e in E.C.arcs[b] && Retained(E, b, e))
    ensures |D.arcs| == |D.G.buckets| && JumpsExact(D)
  {
    hide SetupOk, StoreOk, AllBounds, JumpsOf, GridUpTo, Retained, PassReady, ArcOrder;
    var first := WithJumps(E.C, adj);
    var F := E.(C := first);
    ReadyAfterRuns(F, E.C, O);
    var arcs := BucketArcElimination(F, adj);
    forall b: nat, e: BucketArc | b < |arcs| ensures e in arcs[b] <==> e in E.C.arcs[b] && Retained(E, b, e) {
      RetainedAnyway(E, F, b, e);
      RetainedAnyway(F, E, b, e);
    }
    SmallerOk(E.C, arcs);
    var smaller := E.C.(arcs := arcs);
    D := WithJumps(smaller, adj);
  }

  /** eliminate_arcs_label_based after a bidirectional solve. */
  method EliminateArcsLabelBased<S(!new)>(E: Pass<S>, O: Setup<S>, adjOwn: seq<seq<nat>>, adjOpp: seq<seq<nat>>)
    returns (own: Setup<S>, opp: Setup<S>)
    requires Labeled(E, O) && Labeled(Pass(O, E.opp, E.own, E.theta), E.C) && Ready(E.C.P, E.C.G) && Ready(O.P, O.G)
    requires |adjOwn| == |adjOpp| == E.C.P.nVertices
    requires forall v: nat :: v < E.C.P.nVertices ==>
               adjOwn[v] == ArcsAt(E.C.P, E.C.dir, v, E.C.P.nArcs) && adjOpp[v] == ArcsAt(O.P, O.dir, v, O.P.nArcs)
    ensures SetupOk(own) && |own.arcs| == |E.C.arcs| && SetupOk(opp) && |opp.arcs| == |O.arcs|
    ensures own == E.C.(arcs := own.arcs, jumps := own.jumps) && opp == O.(arcs := opp.arcs, jumps := opp.jumps)
    ensures forall b: nat, e: BucketArc ::
            b < |own.arcs| ==> (e in own.arcs[b] <==> e in E.C.arcs[b] && Retained(E, b, e))
    ensures forall b: nat, e: BucketArc :: b < |opp.arcs| ==>
              (e in opp.arcs[b] <==> e in O.arcs[b] && Retained(Pass(O, E.opp, E.own, E.theta), b, e))
    ensures JumpsExact(own) && JumpsExact(opp)
  {
    hide Labeled, SetupOk, Retained, JumpsExact, GridUpTo;
    LabeledMatch(E, O);
    own := EliminateDirection(E, O, adjOwn);
    opp := EliminateDirection(Pass(O, E.opp, E.own, E.theta), E.C, adjOpp);
  }

  lemma LabeledMatch<S(!new)>(E: Pass<S>, O: Setup<S>)
    requires Labeled(E, O)
    ensures O.P == E.C.P && O.G == E.C.G
  {
  }
}
