/** Cost-to-go bounds on the bucket graph (compute_completion_bounds). */
module Completion {
  import opened Types
  import opened Resources
  import opened Grids
  import opened BucketArcs
  import opened BucketOrder
  import opened LabelingSpec
  import opened CBests

  // ----- Walks in the bucket graph -----

  ghost predicate ArcsOk<S>(C: Setup<S>) {
    && |C.arcs| == |C.id| == |C.G.buckets|
    && (forall b: nat, e: BucketArc :: b < |C.arcs| && e in C.arcs[b] ==> Later(C, b, e))
  }

  ghost predicate Later<S>(C: Setup<S>, b: nat, e: BucketArc)
    requires b < |C.id|
  {
    e.toBucket < |C.id| && C.id[e.toBucket] <= C.id[b]
  }

  lemma SetupArcsOk<S(!new)>(C: Setup<S>)
    requires SetupOk(C)
    ensures ArcsOk(C)
  {
    hide Grouped, Disposable;
    forall b: nat, e: BucketArc | b < |C.arcs| && e in C.arcs[b] ensures Later(C, b, e) { assert ArcOk(C, b, e); }
  }

  /** The arcs w lead from bucket b to bucket c. */
  ghost predicate Leads<S>(C: Setup<S>, b: nat, w: seq<BucketArc>, c: nat)
    decreases |w|
  {
    b < |C.arcs| && if w == [] then b == c else w[0] in C.arcs[b] && Leads(C, w[0].toBucket, w[1..], c)
  }

  function Length<S>(C: Setup<S>, w: seq<BucketArc>): real {
    if w == [] then 0.0 else C.P.cost(w[0].arc) + Length(C, w[1..])
  }

  predicate Terminal<S>(C: Setup<S>, b: nat) { b < |C.G.buckets| && C.G.buckets[b].vertex == C.P.top.End(C.dir) }

  /** w leads from b to the end vertex. */
  ghost predicate Walk<S>(C: Setup<S>, b: nat, w: seq<BucketArc>)
    decreases |w|
  {
    b < |C.arcs| && if w == [] then Terminal(C, b) else w[0] in C.arcs[b] && Walk(C, w[0].toBucket, w[1..])
  }

  ghost predicate NoNegativeCycle<S>(C: Setup<S>) {
    forall b: nat, w: seq<BucketArc> :: Leads(C, b, w, b) ==> Length(C, w) >= 0.0
  }

  /** x is at most the length of every walk from b. */
  ghost predicate Below<S>(C: Setup<S>, b: nat, x: Bound) {
    forall w :: Walk(C, b, w) ==> x.AtMost(Fin(Length(C, w)))
  }

  ghost predicate Attained<S>(C: Setup<S>, b: nat, x: Bound) {
    x.Fin? ==> exists w :: Walk(C, b, w) && Length(C, w) == x.val
  }

  ghost predicate AllAttained<S>(C: Setup<S>, comp: seq<Bound>) {
    |comp| == |C.arcs| && forall b: nat :: b < |comp| ==> Attained(C, b, comp[b])
  }

  ghost predicate Lowered(comp: seq<Bound>, more: seq<Bound>) {
    |more| == |comp| && forall b: nat :: b < |comp| ==> more[b].AtMost(comp[b])
  }

  // ----- Relaxation -----

  ghost predicate RelaxedBy<S>(C: Setup<S>, comp: seq<Bound>, x: Bound, e: BucketArc) {
    e.toBucket < |comp| && x.AtMost(comp[e.toBucket].Add(C.P.cost(e.arc)))
  }

  /** The inner loop: one bucket. */
  method Relax<S>(C: Setup<S>, comp: seq<Bound>, b: nat) returns (more: seq<Bound>, changed: bool)
    requires ArcsOk(C) && AllAttained(C, comp) && b < |comp|
    ensures AllAttained(C, more) && Lowered(comp, more) && more == comp[b := more[b]]
    ensures forall e :: e in C.arcs[b] ==> RelaxedBy(C, comp, more[b], e)
    ensures !changed ==> more == comp
  {
    more, changed := comp, false;
    for i := 0 to |C.arcs[b]|
      invariant AllAttained(C, more) && Lowered(comp, more) && more == comp[b := more[b]]
      invariant forall e :: e in C.arcs[b][..i] ==> RelaxedBy(C, comp, more[b], e)
      invariant !changed ==> more == comp
    {
      var e := C.arcs[b][i];
      assert e in C.arcs[b] && C.arcs[b][..i + 1] == C.arcs[b][..i] + [e];
      assert Later(C, b, e);
      if more[e.toBucket].Inf? { continue; }
      var candidate := Fin(C.P.cost(e.arc) + more[e.toBucket].val);
      if candidate.Less(more[b]) {
        StepAttained(C, b, e, more[e.toBucket]);
        more := more[b := candidate];
        changed := true;
      }
    }
    assert C.arcs[b][..|C.arcs[b]|] == C.arcs[b];
  }

  lemma StepAttained<S>(C: Setup<S>, b: nat, e: BucketArc, x: Bound)
    requires b < |C.arcs| && e in C.arcs[b] && x.Fin? && Attained(C, e.toBucket, x)
    ensures Attained(C, b, Fin(C.P.cost(e.arc) + x.val))
  {
    var w :| Walk(C, e.toBucket, w) && Length(C, w) == x.val;
    var v := [e] + w;
    assert v[0] == e && v[1..] == w;
    assert Walk(C, b, v) && Length(C, v) == C.P.cost(e.arc) + x.val;
  }

  ghost predicate PassDone<S>(C: Setup<S>, comp: seq<Bound>, more: seq<Bound>, b: nat)
    requires b < |C.arcs| && b < |more|
  {
    forall e :: e in C.arcs[b] ==> RelaxedBy(C, comp, more[b], e)
  }

  /** One pass over the buckets of a component. */
  method RelaxPass<S>(C: Setup<S>, group: seq<nat>, comp: seq<Bound>) returns (more: seq<Bound>, changed: bool)
    requires ArcsOk(C) && AllAttained(C, comp) && forall b :: b in group ==> b < |comp|
    ensures AllAttained(C, more) && Lowered(comp, more)
    ensures forall b: nat :: b < |comp| && b !in group ==> more[b] == comp[b]
    ensures forall b: nat :: b in group && b < |more| ==> PassDone(C, comp, more, b)
    ensures !changed ==> more == comp
  {
    more, changed := comp, false;
    for i := 0 to |group|
      invariant AllAttained(C, more) && Lowered(comp, more)
      invariant forall b: nat :: b < |comp| && b !in group[..i] ==> more[b] == comp[b]
      invariant forall b: nat :: b in group[..i] && b < |more| ==> PassDone(C, comp, more, b)
      invariant !changed ==> more == comp
    {
      var b := group[i];
      assert b in group && group[..i + 1] == group[..i] + [b];
      ghost var before := more;
      var c;
      more, c := Relax(C, more, b);
      changed := changed || c;
      forall d: nat | d in group[..i + 1] && d < |more| ensures PassDone(C, comp, more, d) {
        if d == b { LowerPass(C, comp, before, more, b); } else { assert PassDone(C, comp, before, d); }
      }
    }
    assert group[..|group|] == group;
  }

  lemma LowerPass<S>(C: Setup<S>, comp: seq<Bound>, before: seq<Bound>, more: seq<Bound>, b: nat)
    requires Lowered(comp, before) && b < |C.arcs| && b < |more| && PassDone(C, before, more, b)
    ensures PassDone(C, comp, more, b)
  {
    forall e | e in C.arcs[b] ensures RelaxedBy(C, comp, more[b], e) { assert RelaxedBy(C, before, more[b], e); }
  }

  // ----- How many passes are enough -----

  /** Number of arcs w takes before it leaves component scc. */
  ghost function Inside<S>(C: Setup<S>, scc: int, b: nat, w: seq<BucketArc>): nat
    decreases |w|
  {
    if w == [] || b >= |C.id| || C.id[b] != scc then 0 else 1 + Inside(C, scc, w[0].toBucket, w[1..])
  }

  /** Walks that stay inside the component for at most k arcs are bounded. */
  ghost predicate BelowWithin<S>(C: Setup<S>, scc: int, comp: seq<Bound>, k: nat) {
    forall b: nat, w :: b < |comp| && b < |C.id| && C.id[b] == scc && Walk(C, b, w) && Inside(C, scc, b, w) <= k ==>
      comp[b].AtMost(Fin(Length(C, w)))
  }

  ghost predicate BelowBefore<S>(C: Setup<S>, scc: int, comp: seq<Bound>) {
    |comp| == |C.id| && forall b: nat :: b < |comp| && C.id[b] < scc ==> Below(C, b, comp[b])
  }

  /** One more pass bounds walks that stay one arc longer. */
  lemma PassExtends<S>(C: Setup<S>, scc: int, group: seq<nat>, comp: seq<Bound>, more: seq<Bound>, k: nat)
    requires ArcsOk(C) && BelowBefore(C, scc, comp) && BelowWithin(C, scc, comp, k) && Lowered(comp, more)
    requires forall b: nat :: b < |C.id| && C.id[b] == scc ==> b in group
    requires forall b: nat :: b in group && b < |more| ==> b < |C.arcs| && PassDone(C, comp, more, b)
    ensures BelowWithin(C, scc, more, k + 1)
  {
    forall b: nat, w | b < |more| && b < |C.id| && C.id[b] == scc && Walk(C, b, w) && Inside(C, scc, b, w) <= k + 1
      ensures more[b].AtMost(Fin(Length(C, w)))
    {
      if w == [] {
        assert Inside(C, scc, b, w) <= k;
      } else {
        var e := w[0];
        assert Later(C, b, e);
        assert PassDone(C, comp, more, b) && RelaxedBy(C, comp, more[b], e);
        if C.id[e.toBucket] == scc {
          assert Inside(C, scc, e.toBucket, w[1..]) <= k;
        } else {
          assert Below(C, e.toBucket, comp[e.toBucket]);
        }
        assert comp[e.toBucket].AtMost(Fin(Length(C, w[1..])));
      }
    }
  }

  /** A pass without a change: every walk is bounded. */
  lemma {:induction false} FixpointBelow<S>(C: Setup<S>, scc: int, group: seq<nat>, comp: seq<Bound>, b: nat,
                                            w: seq<BucketArc>)
    requires ArcsOk(C) && BelowBefore(C, scc, comp) && BelowWithin(C, scc, comp, 0)
    requires forall c: nat :: c < |C.id| && C.id[c] == scc ==> c in group
    requires forall c: nat :: c in group && c < |comp| ==> c < |C.arcs| && PassDone(C, comp, comp, c)
    requires b < |comp| && C.id[b] == scc && Walk(C, b, w)
    ensures comp[b].AtMost(Fin(Length(C, w)))
    decreases |w|
  {
    if w == [] {
      assert Inside(C, scc, b, w) == 0;
    } else {
      var e := w[0];
      assert Later(C, b, e);
      assert PassDone(C, comp, comp, b) && RelaxedBy(C, comp, comp[b], e);
      if C.id[e.toBucket] == scc {
        FixpointBelow(C, scc, group, comp, e.toBucket, w[1..]);
      } else {
        assert Below(C, e.toBucket, comp[e.toBucket]);
      }
    }
  }

  // ----- Without negative cycles short walks are enough -----

  /** The bucket w has reached after i arcs. */
  ghost function At<S>(b: nat, w: seq<BucketArc>, i: nat): nat
    requires i <= |w|
  {
    if i == 0 then b else w[i - 1].toBucket
  }

  lemma {:induction false} WalkSplit<S>(C: Setup<S>, b: nat, w: seq<BucketArc>, i: nat)
    requires Walk(C, b, w) && i <= |w|
    ensures Leads(C, b, w[..i], At<S>(b, w, i)) && Walk(C, At<S>(b, w, i), w[i..])
    ensures Length(C, w) == Length(C, w[..i]) + Length(C, w[i..])
    decreases i
  {
    if i == 0 {
      assert w[..0] == [] && w[0..] == w;
    } else {
      WalkSplit(C, w[0].toBucket, w[1..], i - 1);
      assert w[..i][0] == w[0] && w[..i][1..] == w[1..][..i - 1] && w[1..][i - 1..] == w[i..];
      assert At<S>(w[0].toBucket, w[1..], i - 1) == At<S>(b, w, i);
    }
  }

  lemma {:induction false} LeadsWalk<S>(C: Setup<S>, b: nat, u: seq<BucketArc>, c: nat, w: seq<BucketArc>)
    requires Leads(C, b, u, c) && Walk(C, c, w)
    ensures Walk(C, b, u + w) && Length(C, u + w) == Length(C, u) + Length(C, w)
    decreases |u|
  {
    if u == [] {
      assert u + w == w;
    } else {
      LeadsWalk(C, u[0].toBucket, u[1..], c, w);
      assert (u + w)[0] == u[0] && (u + w)[1..] == u[1..] + w;
    }
  }

  lemma WalkCut<S>(C: Setup<S>, b: nat, w: seq<BucketArc>, i: nat, j: nat) returns (v: seq<BucketArc>)
    requires NoNegativeCycle(C) && Walk(C, b, w) && i < j <= |w| && At<S>(b, w, i) == At<S>(b, w, j)
    ensures Walk(C, b, v) && |v| < |w| && Length(C, v) <= Length(C, w)
  {
    WalkSplit(C, b, w, i);
    var c, rest := At<S>(b, w, i), w[i..];
    WalkSplit(C, c, rest, j - i);
    assert At<S>(c, rest, j - i) == At<S>(b, w, j);
    assert rest[j - i..] == w[j..];
    v := w[..i] + w[j..];
    LeadsWalk(C, b, w[..i], c, w[j..]);
  }

  lemma {:induction false} InsideAt<S>(C: Setup<S>, scc: int, b: nat, w: seq<BucketArc>, i: nat)
    requires i < Inside(C, scc, b, w)
    ensures i < |w| && At<S>(b, w, i) < |C.id| && C.id[At<S>(b, w, i)] == scc
    decreases i
  {
    if i > 0 {
      InsideAt(C, scc, w[0].toBucket, w[1..], i - 1);
      assert At<S>(w[0].toBucket, w[1..], i - 1) == At<S>(b, w, i);
    }
  }

  /** More values than a set holds cannot all be different members of it. */
  lemma {:induction false} Repeats(f: seq<nat>, s: set<nat>) returns (i: nat, j: nat)
    requires |f| > |s| && forall k: nat :: k < |f| ==> f[k] in s
    ensures i < j < |f| && f[i] == f[j]
    decreases |f|
  {
    var n := |f| - 1;
    if k: nat :| k < n && f[k] == f[n] {
      i, j := k, n;
    } else {
      i, j := Repeats(f[..n], s - {f[n]});
    }
  }

  /** Every walk can be shortened to one that stays in the component for no more arcs than it has buckets. */
  lemma {:induction false} ShortWalk<S>(C: Setup<S>, scc: int, members: set<nat>, b: nat, w: seq<BucketArc>)
    returns (v: seq<BucketArc>)
    requires NoNegativeCycle(C) && Walk(C, b, w)
    requires forall c: nat :: c < |C.id| && C.id[c] == scc ==> c in members
    ensures Walk(C, b, v) && Inside(C, scc, b, v) <= |members| && Length(C, v) <= Length(C, w)
    decreases |w|
  {
    var n := Inside(C, scc, b, w);
    if n <= |members| {
      v := w;
    } else {
      forall i: nat | i < n ensures i < |w| && At<S>(b, w, i) in members { InsideAt(C, scc, b, w, i); }
      InsideAt(C, scc, b, w, n - 1);
      var visits := seq(n, i requires 0 <= i < n => At<S>(b, w, i));
      var i, j := Repeats(visits, members);
      v := WalkCut(C, b, w, i, j);
      v := ShortWalk(C, scc, members, b, v);
    }
  }

  lemma EnoughPasses<S>(C: Setup<S>, scc: int, members: set<nat>, comp: seq<Bound>, k: nat)
    requires NoNegativeCycle(C) && BelowWithin(C, scc, comp, k) && |comp| == |C.id|
    requires forall c: nat :: c < |C.id| && C.id[c] == scc ==> c in members
    requires |members| <= k
    ensures forall b: nat :: b < |comp| && C.id[b] == scc ==> Below(C, b, comp[b])
  {
    forall b: nat | b < |comp| && C.id[b] == scc ensures Below(C, b, comp[b]) {
      forall w | Walk(C, b, w) ensures comp[b].AtMost(Fin(Length(C, w))) {
        var v := ShortWalk(C, scc, members, b, w);
      }
    }
  }

  // ----- One component -----

  /** Exact: the length of the shortest walk, or Inf when there is none. */
  ghost predicate ExactUpTo<S>(C: Setup<S>, comp: seq<Bound>, scc: int) {
    && |comp| == |C.id| && AllAttained(C, comp) && BelowBefore(C, scc, comp)
    && (forall b: nat :: b < |comp| && C.id[b] >= scc && Terminal(C, b) ==> comp[b].AtMost(Fin(0.0)))
  }

  lemma WithinZero<S>(C: Setup<S>, scc: int, comp: seq<Bound>)
    requires ExactUpTo(C, comp, scc)
    ensures BelowWithin(C, scc, comp, 0)
  {
  }

  lemma GroupSet<S>(C: Setup<S>, scc: nat, group: seq<nat>)
    requires forall i: nat, j: nat :: i < j < |group| ==> group[i] < group[j]
    ensures |(set b: nat | b in group)| == |group|
  {
    if |group| > 0 {
      var n := |group| - 1;
      var rest := group[..n];
      GroupSet(C, scc, rest);
      assert group == rest + [group[n]];
      assert (set b: nat | b in group) == (set b: nat | b in rest) + {group[n]};
      assert group[n] !in rest;
    }
  }

  ghost predicate IsGroup<S>(C: Setup<S>, scc: nat, group: seq<nat>) {
    && (forall b: nat :: b in group <==> b < |C.id| && C.id[b] == scc)
    && (forall i: nat, j: nat :: i < j < |group| ==> group[i] < group[j])
  }

  /** The passes over one component: at most one more than it has buckets, one alone if it has a single bucket. */
  method RelaxScc<S>(C: Setup<S>, scc: nat, group: seq<nat>, comp: seq<Bound>) returns (more: seq<Bound>)
    requires ArcsOk(C) && NoNegativeCycle(C) && ExactUpTo(C, comp, scc) && IsGroup(C, scc, group)
    ensures ExactUpTo(C, more, scc + 1)
  {
    hide NoNegativeCycle, Walk, Below, Attained;
    GroupSet(C, scc, group);
    WithinZero(C, scc, comp);
    more := comp;
    var maxIters := if |group| > 1 then |group| + 1 else 1;
    var iter, changed := 0, true;
    while iter < maxIters && changed
      invariant iter <= maxIters
      invariant AllAttained(C, more) && Lowered(comp, more)
      invariant forall b: nat :: b < |comp| && b !in group ==> more[b] == comp[b]
      invariant BelowWithin(C, scc, more, 0)
      invariant changed ==> BelowWithin(C, scc, more, iter)
      invariant !changed ==> forall b: nat :: b in group && b < |more| ==> b < |C.arcs| && PassDone(C, more, more, b)
      decreases maxIters - iter
    {
      ghost var before := more;
      SameBefore(C, scc, comp, before);
      more, changed := RelaxPass(C, group, more);
      PassExtends(C, scc, group, before, more, iter);
      LowerWithin(C, scc, before, more, 0);
      iter := iter + 1;
    }
    SameBefore(C, scc, comp, more);
    if changed {
      EnoughPasses(C, scc, (set b: nat | b in group), more, iter);
    } else {
      AllFixpoint(C, scc, group, more);
    }
    Together(C, scc, group, comp, more);
  }

  lemma SameBefore<S>(C: Setup<S>, scc: int, comp: seq<Bound>, more: seq<Bound>)
    requires BelowBefore(C, scc, comp) && |more| == |comp|
    requires forall b: nat :: b < |comp| && C.id[b] != scc ==> more[b] == comp[b]
    ensures BelowBefore(C, scc, more)
  {
    hide Below;
  }

  lemma LowerWithin<S>(C: Setup<S>, scc: int, comp: seq<Bound>, more: seq<Bound>, k: nat)
    requires BelowWithin(C, scc, comp, k) && Lowered(comp, more)
    ensures BelowWithin(C, scc, more, k)
  {
  }

  lemma AllFixpoint<S>(C: Setup<S>, scc: int, group: seq<nat>, comp: seq<Bound>)
    requires ArcsOk(C) && BelowBefore(C, scc, comp) && BelowWithin(C, scc, comp, 0)
    requires forall c: nat :: c < |C.id| && C.id[c] == scc ==> c in group
    requires forall c: nat :: c in group && c < |comp| ==> c < |C.arcs| && PassDone(C, comp, comp, c)
    ensures forall b: nat :: b < |comp| && C.id[b] == scc ==> Below(C, b, comp[b])
  {
    forall b: nat | b < |comp| && C.id[b] == scc ensures Below(C, b, comp[b]) {
      forall w | Walk(C, b, w) ensures comp[b].AtMost(Fin(Length(C, w))) { FixpointBelow(C, scc, group, comp, b, w); }
    }
  }

  lemma Together<S>(C: Setup<S>, scc: nat, group: seq<nat>, comp: seq<Bound>, more: seq<Bound>)
    requires ExactUpTo(C, comp, scc) && IsGroup(C, scc, group) && AllAttained(C, more) && Lowered(comp, more)
    requires forall b: nat :: b < |comp| && b !in group ==> more[b] == comp[b]
    requires BelowBefore(C, scc, more) && forall b: nat :: b < |comp| && C.id[b] == scc ==> Below(C, b, more[b])
    ensures ExactUpTo(C, more, scc + 1)
  {
    hide Below, Attained;
  }

  // ----- The sweep inside a vertex -----

  predicate CellOf<S>(C: Setup<S>, comp: seq<Bound>, v: nat, i: nat, j: nat) {
    && v < |C.G.start| && v < |C.G.nx| && v < |C.G.ny| && i < C.G.nx[v] && j < C.G.ny[v]
    && 0 <= RankCell(C.G, C.dir, v, i, j) < |comp|
  }

  function Val<S>(C: Setup<S>, comp: seq<Bound>, v: nat, i: nat, j: nat): Bound {
    if CellOf(C, comp, v, i, j) then comp[RankCell(C.G, C.dir, v, i, j)] else Inf
  }

  /** x is the least value of column j from row i on. */
  ghost predicate ColumnMin<S>(C: Setup<S>, comp: seq<Bound>, v: nat, i: nat, j: nat, x: Bound) {
    && (forall p: nat :: i <= p && CellOf(C, comp, v, p, j) ==> x.AtMost(Val(C, comp, v, p, j)))
    && (x.Fin? ==> exists p: nat :: i <= p && CellOf(C, comp, v, p, j) && Val(C, comp, v, p, j) == x)
  }

  /** x is the least value of the quadrant from (i, j) on. */
  ghost predicate QuadrantMin<S>(C: Setup<S>, comp: seq<Bound>, v: nat, i: nat, j: nat, x: Bound) {
    && (forall p: nat, q: nat :: i <= p && j <= q && CellOf(C, comp, v, p, q) ==> x.AtMost(Val(C, comp, v, p, q)))
    && (x.Fin? ==> exists p: nat, q: nat :: i <= p && j <= q && CellOf(C, comp, v, p, q) && Val(C, comp, v, p, q) == x)
  }

  lemma ColumnStep<S>(C: Setup<S>, comp: seq<Bound>, v: nat, i: nat, j: nat, x: Bound)
    requires CellOf(C, comp, v, i, j) && ColumnMin(C, comp, v, i + 1, j, x)
    ensures ColumnMin(C, comp, v, i, j, MinBound(Val(C, comp, v, i, j), x))
  {
    hide CellOf, Val;
    var y := MinBound(Val(C, comp, v, i, j), x);
    forall p: nat | i <= p && CellOf(C, comp, v, p, j) ensures y.AtMost(Val(C, comp, v, p, j)) {
      if p > i { assert x.AtMost(Val(C, comp, v, p, j)); }
    }
    if y.Fin? && y == x && y != Val(C, comp, v, i, j) {
      var p: nat :| i + 1 <= p && CellOf(C, comp, v, p, j) && Val(C, comp, v, p, j) == x;
    }
  }

  lemma QuadrantStep<S>(C: Setup<S>, comp: seq<Bound>, v: nat, i: nat, j: nat, x: Bound, y: Bound)
    requires ColumnMin(C, comp, v, i, j, x) && QuadrantMin(C, comp, v, i, j + 1, y)
    ensures QuadrantMin(C, comp, v, i, j, MinBound(x, y))
  {
    hide CellOf, Val;
    var m := MinBound(x, y);
    forall p: nat, q: nat | i <= p && j <= q && CellOf(C, comp, v, p, q) ensures m.AtMost(Val(C, comp, v, p, q)) {
      if q > j { assert y.AtMost(Val(C, comp, v, p, q)); } else { assert x.AtMost(Val(C, comp, v, p, q)); }
    }
    if m.Fin? {
      if m == x {
        var p: nat :| i <= p && CellOf(C, comp, v, p, j) && Val(C, comp, v, p, j) == x;
      } else {
        var p: nat, q: nat :| i <= p && j + 1 <= q && CellOf(C, comp, v, p, q) && Val(C, comp, v, p, q) == y;
      }
    }
  }

  ghost predicate GridOk<S>(C: Setup<S>, comp: seq<Bound>) {
    Ready(C.P, C.G) && |comp| == |C.G.buckets|
  }

  lemma Cells<S>(C: Setup<S>, comp: seq<Bound>, v: nat)
    requires GridOk(C, comp) && v < C.P.nVertices
    ensures |C.G.start| == |C.G.nx| == |C.G.ny| == C.P.nVertices && C.G.nx[v] >= 1 && C.G.ny[v] >= 1
    ensures forall i: nat, j: nat :: i < C.G.nx[v] && j < C.G.ny[v] ==> CellOf(C, comp, v, i, j)
  {
    assert RangeOk(C.P, C.G, C.P.nVertices, v);
    forall i: nat, j: nat | i < C.G.nx[v] && j < C.G.ny[v]
      ensures CellOf(C, comp, v, i, j)
    {
      RankFacts(C.P, C.G, C.dir, v, i, j);
    }
  }

  /** Writing one cell changes no other. */
  lemma Written<S>(C: Setup<S>, comp: seq<Bound>, v: nat, i: nat, j: nat, x: Bound)
    requires GridOk(C, comp) && v < C.P.nVertices && CellOf(C, comp, v, i, j)
    ensures var more := comp[RankCell(C.G, C.dir, v, i, j) := x];
            && (forall p: nat, q: nat :: Val(C, more, v, p, q) == if p == i && q == j then x else Val(C, comp, v, p, q))
            && (forall b: nat :: b < |comp| && C.G.buckets[b].vertex != v ==> more[b] == comp[b])
  {
    var more := comp[RankCell(C.G, C.dir, v, i, j) := x];
    RankFacts(C.P, C.G, C.dir, v, i, j);
    forall p: nat, q: nat ensures Val(C, more, v, p, q) == if p == i && q == j then x else Val(C, comp, v, p, q) {
      if CellOf(C, comp, v, p, q) && RankCell(C.G, C.dir, v, p, q) == RankCell(C.G, C.dir, v, i, j) {
        RankFacts(C.P, C.G, C.dir, v, p, q);
        RankUnique(C.P, C.G, C.dir, RankCell(C.G, C.dir, v, i, j), v, i, j, p, q);
      }
    }
  }

  ghost predicate OtherVertices<S>(C: Setup<S>, comp: seq<Bound>, more: seq<Bound>, v: nat)
    requires |comp| == |C.G.buckets|
  {
    |more| == |comp| && forall b: nat :: b < |comp| && C.G.buckets[b].vertex != v ==> more[b] == comp[b]
  }

  /** Rows after i, and row i up to column j, hold the column minima. */
  ghost predicate RowsSwept<S>(C: Setup<S>, comp: seq<Bound>, more: seq<Bound>, v: nat, i: nat, j: nat) {
    |more| == |comp| && forall p: nat, q: nat :: CellOf(C, comp, v, p, q) ==>
      if p > i || (p == i && q < j) then ColumnMin(C, comp, v, p, q, Val(C, more, v, p, q))
          else Val(C, more, v, p, q) == Val(C, comp, v, p, q)
  }

  /** Rows before i, and row i from column j on, hold the quadrant minima. */
  ghost predicate ColumnsSwept<S>(C: Setup<S>, comp: seq<Bound>, half: seq<Bound>, more: seq<Bound>, v: nat, i: nat,
                                  j: nat) {
    |more| == |half| == |comp| && forall p: nat, q: nat :: CellOf(C, comp, v, p, q) ==>
      if p < i || (p == i && q >= j) then QuadrantMin(C, comp, v, p, q, Val(C, more, v, p, q))
          else Val(C, more, v, p, q) == Val(C, half, v, p, q)
  }

  /** The sweep along the first axis: row after row takes the minimum with its neighbour. */
  method SweepRows<S>(C: Setup<S>, comp: seq<Bound>, v: nat) returns (more: seq<Bound>)
    requires GridOk(C, comp) && v < C.P.nVertices
    ensures OtherVertices(C, comp, more, v)
    ensures forall p: nat, q: nat :: CellOf(C, comp, v, p, q) ==> ColumnMin(C, comp, v, p, q, Val(C, more, v, p, q))
  {
    hide CellOf, Val, RankCell, ColumnMin, GridUpTo, Widths;
    Cells(C, comp, v);
    more := comp;
    var nx, ny := C.G.nx[v], C.G.ny[v];
    LastRow(C, comp, v);
    for i := nx - 1 downto 0
      invariant OtherVertices(C, comp, more, v) && RowsSwept(C, comp, more, v, i, ny)
    {
      NextRow(C, comp, more, v, i);
      for j := 0 to ny
        invariant OtherVertices(C, comp, more, v) && RowsSwept(C, comp, more, v, i, j)
      {
        Cells(C, more, v);
        RowCell(C, comp, more, v, i, j);
        RowWritten(C, comp, more, v, i, j, MinBound(Val(C, more, v, i, j), Val(C, more, v, i + 1, j)));
        more := SetCell(C, more, v, i, j, MinBound(Val(C, more, v, i, j), Val(C, more, v, i + 1, j)));
      }
    }
    Cells(C, comp, v);
    forall p: nat, q: nat | CellOf(C, comp, v, p, q)
      ensures ColumnMin(C, comp, v, p, q, Val(C, more, v, p, q))
    {
      Inside2(C, comp, v, p, q);
    }
  }

  function SetCell<S>(C: Setup<S>, comp: seq<Bound>, v: nat, i: nat, j: nat, x: Bound): seq<Bound>
    requires CellOf(C, comp, v, i, j)
  {
    comp[RankCell(C.G, C.dir, v, i, j) := x]
  }

  lemma Inside2<S>(C: Setup<S>, comp: seq<Bound>, v: nat, p: nat, q: nat)
    requires CellOf(C, comp, v, p, q)
    ensures v < |C.G.nx| && v < |C.G.ny| && p < C.G.nx[v] && q < C.G.ny[v]
  {
  }

  lemma LastRow<S>(C: Setup<S>, comp: seq<Bound>, v: nat)
    requires GridOk(C, comp) && v < C.P.nVertices && |C.G.nx| == |C.G.ny| == C.P.nVertices && C.G.nx[v] >= 1
    ensures RowsSwept(C, comp, comp, v, C.G.nx[v] - 1, C.G.ny[v])
  {
  }

  lemma NextRow<S>(C: Setup<S>, comp: seq<Bound>, more: seq<Bound>, v: nat, i: nat)
    requires v < |C.G.ny| && RowsSwept(C, comp, more, v, i + 1, C.G.ny[v])
    ensures RowsSwept(C, comp, more, v, i, 0)
  {
    hide ColumnMin, Val, RankCell;
  }

  /** The new value of cell (i, j) is its column minimum. */
  lemma RowCell<S>(C: Setup<S>, comp: seq<Bound>, more: seq<Bound>, v: nat, i: nat, j: nat)
    requires RowsSwept(C, comp, more, v, i, j) && CellOf(C, comp, v, i, j) && CellOf(C, comp, v, i + 1, j)
    ensures ColumnMin(C, comp, v, i, j, MinBound(Val(C, more, v, i, j), Val(C, more, v, i + 1, j)))
  {
    hide CellOf, Val, RankCell, ColumnMin;
    ColumnStep(C, comp, v, i, j, Val(C, more, v, i + 1, j));
  }

  lemma RowWritten<S>(C: Setup<S>, comp: seq<Bound>, more: seq<Bound>, v: nat, i: nat, j: nat, x: Bound)
    requires GridOk(C, comp) && v < C.P.nVertices && OtherVertices(C, comp, more, v)
             && RowsSwept(C, comp, more, v, i, j)
    requires CellOf(C, comp, v, i, j) && CellOf(C, more, v, i, j) && ColumnMin(C, comp, v, i, j, x)
    ensures OtherVertices(C, comp, SetCell(C, more, v, i, j, x), v)
            && RowsSwept(C, comp, SetCell(C, more, v, i, j, x), v, i, j + 1)
  {
    hide RankCell, ColumnMin, GridUpTo, Val;
    Written(C, more, v, i, j, x);
  }

  lemma ColumnWritten<S>(C: Setup<S>, comp: seq<Bound>, half: seq<Bound>, more: seq<Bound>, v: nat, i: nat, j: nat,
                         x: Bound)
    requires GridOk(C, comp) && v < C.P.nVertices && OtherVertices(C, comp, more, v)
             && ColumnsSwept(C, comp, half, more, v, i, j + 1)
    requires CellOf(C, comp, v, i, j) && CellOf(C, more, v, i, j) && QuadrantMin(C, comp, v, i, j, x)
    ensures OtherVertices(C, comp, SetCell(C, more, v, i, j, x), v)
            && ColumnsSwept(C, comp, half, SetCell(C, more, v, i, j, x), v, i, j)
  {
    hide RankCell, QuadrantMin, GridUpTo, Val;
    Written(C, more, v, i, j, x);
  }

  /** The sweep along the second axis, a serial scan in each row. */
  method SweepColumns<S>(C: Setup<S>, ghost comp: seq<Bound>, half: seq<Bound>, v: nat) returns (more: seq<Bound>)
    requires GridOk(C, comp) && v < C.P.nVertices && OtherVertices(C, comp, half, v)
    requires forall p: nat, q: nat :: CellOf(C, comp, v, p, q) ==> ColumnMin(C, comp, v, p, q, Val(C, half, v, p, q))
    ensures OtherVertices(C, comp, more, v)
    ensures forall p: nat, q: nat :: CellOf(C, comp, v, p, q) ==> QuadrantMin(C, comp, v, p, q, Val(C, more, v, p, q))
  {
    hide CellOf, Val, RankCell, ColumnMin, QuadrantMin, GridUpTo, Widths;
    Cells(C, comp, v);
    more := half;
    var nx, ny := C.G.nx[v], C.G.ny[v];
    NoColumns(C, comp, half, v);
    for i := 0 to nx
      invariant OtherVertices(C, comp, more, v) && ColumnsSwept(C, comp, half, more, v, i, ny)
    {
      LastColumn(C, comp, half, more, v, i);
      for j := ny - 1 downto 0
        invariant OtherVertices(C, comp, more, v) && ColumnsSwept(C, comp, half, more, v, i, j)
      {
        Cells(C, more, v);
        ColumnCell(C, comp, half, more, v, i, j);
        ColumnWritten(C, comp, half, more, v, i, j, MinBound(Val(C, more, v, i, j), Val(C, more, v, i, j + 1)));
        more := SetCell(C, more, v, i, j, MinBound(Val(C, more, v, i, j), Val(C, more, v, i, j + 1)));
      }
      NextColumns(C, comp, half, more, v, i);
    }
    Cells(C, comp, v);
    forall p: nat, q: nat | CellOf(C, comp, v, p, q)
      ensures QuadrantMin(C, comp, v, p, q, Val(C, more, v, p, q))
    {
      Inside2(C, comp, v, p, q);
    }
  }

  lemma NoColumns<S>(C: Setup<S>, comp: seq<Bound>, half: seq<Bound>, v: nat)
    requires |half| == |comp| && v < |C.G.ny|
    ensures ColumnsSwept(C, comp, half, half, v, 0, C.G.ny[v])
  {
  }

  lemma LastColumn<S>(C: Setup<S>, comp: seq<Bound>, half: seq<Bound>, more: seq<Bound>, v: nat, i: nat)
    requires v < |C.G.ny| && C.G.ny[v] >= 1 && ColumnsSwept(C, comp, half, more, v, i, C.G.ny[v])
    requires forall p: nat, q: nat :: CellOf(C, comp, v, p, q) ==> ColumnMin(C, comp, v, p, q, Val(C, half, v, p, q))
    ensures ColumnsSwept(C, comp, half, more, v, i, C.G.ny[v] - 1)
  {
    hide Val, RankCell, ColumnMin, QuadrantMin;
    var j: nat := C.G.ny[v] - 1;
    if CellOf(C, comp, v, i, j) {
      EmptyQuadrant(C, comp, v, i);
      QuadrantStep(C, comp, v, i, j, Val(C, half, v, i, j), Inf);
    }
  }

  lemma EmptyQuadrant<S>(C: Setup<S>, comp: seq<Bound>, v: nat, i: nat)
    requires v < |C.G.ny|
    ensures QuadrantMin(C, comp, v, i, C.G.ny[v], Inf)
  {
  }

  lemma NextColumns<S>(C: Setup<S>, comp: seq<Bound>, half: seq<Bound>, more: seq<Bound>, v: nat, i: nat)
    requires v < |C.G.ny| && ColumnsSwept(C, comp, half, more, v, i, 0)
    ensures ColumnsSwept(C, comp, half, more, v, i + 1, C.G.ny[v])
  {
    hide Val, RankCell, QuadrantMin;
  }

  lemma ColumnCell<S>(C: Setup<S>, comp: seq<Bound>, half: seq<Bound>, more: seq<Bound>, v: nat, i: nat, j: nat)
    requires ColumnsSwept(C, comp, half, more, v, i, j + 1) && CellOf(C, comp, v, i, j) && CellOf(C, comp, v, i, j + 1)
    requires ColumnMin(C, comp, v, i, j, Val(C, half, v, i, j))
    ensures QuadrantMin(C, comp, v, i, j, MinBound(Val(C, more, v, i, j), Val(C, more, v, i, j + 1)))
  {
    hide CellOf, Val, RankCell, ColumnMin, QuadrantMin;
    QuadrantStep(C, comp, v, i, j, Val(C, half, v, i, j), Val(C, more, v, i, j + 1));
  }

  // ----- The bounds -----

  /** x is the least of the values of b and of the better-supplied buckets behind it. */
  ghost predicate SuffixMin<S>(C: Setup<S>, comp: seq<Bound>, b: nat, x: Bound)
    requires GridOk(C, comp)
  {
    && (forall c: nat :: Beyond(C.P, C.G, C.dir, b, c) ==> x.AtMost(comp[c]))
    && (x.Fin? ==> exists c: nat :: Beyond(C.P, C.G, C.dir, b, c) && comp[c] == x)
  }

  lemma QuadrantIsSuffix<S>(C: Setup<S>, comp: seq<Bound>, b: nat, v: nat, i: nat, j: nat, x: Bound)
    requires GridOk(C, comp) && AtRank(C.P, C.G, C.dir, b, v, i, j) && QuadrantMin(C, comp, v, i, j, x)
    ensures SuffixMin(C, comp, b, x)
  {
    hide BucketOk, RangeOk;
    forall c: nat | Beyond(C.P, C.G, C.dir, b, c) ensures x.AtMost(comp[c]) {
      var p, q := HasRank(C.P, C.G, C.dir, c);
      BeyondRank(C.P, C.G, C.dir, b, c, v, i, j, p, q);
      assert CellOf(C, comp, v, p, q) && Val(C, comp, v, p, q) == comp[c];
    }
    if x.Fin? {
      var p: nat, q: nat :| i <= p && j <= q && CellOf(C, comp, v, p, q) && Val(C, comp, v, p, q) == x;
      RankFacts(C.P, C.G, C.dir, v, p, q);
      BeyondRank(C.P, C.G, C.dir, b, RankCell(C.G, C.dir, v, p, q), v, i, j, p, q);
    }
  }

  /** The sweep over all vertices. */
  method Sweep<S>(C: Setup<S>, comp: seq<Bound>) returns (more: seq<Bound>)
    requires GridOk(C, comp)
    ensures |more| == |comp| && forall b: nat :: b < |more| ==> SuffixMin(C, comp, b, more[b])
  {
    hide CellOf, Val, RankCell, QuadrantMin, GridUpTo, Widths, SuffixMin;
    more := comp;
    for v := 0 to C.P.nVertices
      invariant |more| == |comp|
      invariant forall b: nat :: b < |more| && C.G.buckets[b].vertex < v ==> SuffixMin(C, comp, b, more[b])
      invariant forall b: nat :: b < |more| && C.G.buckets[b].vertex >= v ==> more[b] == comp[b]
    {
      ghost var before := more;
      var half := SweepRows(C, more, v);
      more := SweepColumns(C, more, half, v);
      forall b: nat | b < |more| && C.G.buckets[b].vertex <= v ensures SuffixMin(C, comp, b, more[b]) {
        if C.G.buckets[b].vertex == v { SweptVertex(C, comp, before, more, v, b); }
      }
    }
    forall b: nat | b < |more| ensures SuffixMin(C, comp, b, more[b]) { BucketFacts(C.P, C.G, b); }
  }

  lemma SweptVertex<S>(C: Setup<S>, comp: seq<Bound>, before: seq<Bound>, more: seq<Bound>, v: nat, b: nat)
    requires GridOk(C, comp) && GridOk(C, before) && b < |more| == |comp| && C.G.buckets[b].vertex == v
    requires forall c: nat :: c < |before| && C.G.buckets[c].vertex >= v ==> before[c] == comp[c]
    requires forall p: nat, q: nat ::
             CellOf(C, before, v, p, q) ==> QuadrantMin(C, before, v, p, q, Val(C, more, v, p, q))
    ensures SuffixMin(C, comp, b, more[b])
  {
    hide BucketOk, RangeOk, QuadrantMin;
    var i, j := HasRank(C.P, C.G, C.dir, b);
    assert CellOf(C, before, v, i, j) && Val(C, more, v, i, j) == more[b];
    QuadrantIsSuffix(C, before, b, v, i, j, more[b]);
    forall c: nat | Beyond(C.P, C.G, C.dir, b, c) ensures before[c] == comp[c] {}
  }

  /** What compute_completion_bounds leaves: first the exact walk lengths, then their suffix minima. */
  ghost predicate BoundsOfWalks<S>(C: Setup<S>, exact: seq<Bound>, comp: seq<Bound>) {
    && GridOk(C, exact) && |comp| == |exact| == |C.arcs|
    && (forall b: nat :: b < |exact| ==> Below(C, b, exact[b]) && Attained(C, b, exact[b]))
    && (forall b: nat :: b < |comp| ==> SuffixMin(C, exact, b, comp[b]))
  }

  /** x is the length of a shortest walk to the end vertex from b or a bucket behind it; Inf if there is none. */
  ghost predicate ShortestBehind<S>(C: Setup<S>, b: nat, x: Bound)
    requires Ready(C.P, C.G)
  {
    && (forall c: nat, w :: Beyond(C.P, C.G, C.dir, b, c) && Walk(C, c, w) ==> x.AtMost(Fin(Length(C, w))))
    && (x.Fin? ==> exists c: nat, w :: Beyond(C.P, C.G, C.dir, b, c) && Walk(C, c, w) && Length(C, w) == x.val)
  }

  lemma IsShortest<S(!new)>(C: Setup<S>, exact: seq<Bound>, comp: seq<Bound>, b: nat)
    requires BoundsOfWalks(C, exact, comp) && b < |comp| && Ready(C.P, C.G)
    ensures ShortestBehind(C, b, comp[b])
  {
    hide Walk, Length, BucketOk, RangeOk;
    assert SuffixMin(C, exact, b, comp[b]);
    forall c: nat, w | Beyond(C.P, C.G, C.dir, b, c) && Walk(C, c, w) ensures comp[b].AtMost(Fin(Length(C, w))) {
      WalkStart(C, c, w);
      assert Below(C, c, exact[c]);
    }
    if comp[b].Fin? {
      var c: nat :| Beyond(C.P, C.G, C.dir, b, c) && exact[c] == comp[b];
      assert Attained(C, c, exact[c]);
      var w :| Walk(C, c, w) && Length(C, w) == exact[c].val;
    }
  }

  lemma WalkStart<S>(C: Setup<S>, b: nat, w: seq<BucketArc>)
    requires Walk(C, b, w)
    ensures b < |C.arcs|
  {
  }

  lemma IsGroupOf<S(!new)>(C: Setup<S>, scc: nat)
    requires SetupOk(C) && scc < C.count
    ensures scc < |C.groups| && IsGroup(C, scc, C.groups[scc])
  {
    hide TopoOrder, Disposable;
    GroupMembers(C, scc);
  }

  lemma AllDone<S(!new)>(C: Setup<S>, comp: seq<Bound>)
    requires SetupOk(C) && ExactUpTo(C, comp, C.count)
    ensures GridOk(C, comp) && |comp| == |C.arcs| && forall b: nat ::
            b < |comp| ==> Below(C, b, comp[b]) && Attained(C, b, comp[b])
  {
    hide Grouped, Disposable, Below, Attained;
  }

  lemma StartExact<S(!new)>(C: Setup<S>, comp: seq<Bound>)
    requires SetupOk(C) && |comp| == |C.G.buckets|
    requires forall b: nat :: b < |comp| ==> comp[b] == if Terminal(C, b) then Fin(0.0) else Inf
    ensures ExactUpTo(C, comp, 0)
  {
    hide Grouped, Disposable;
    forall b: nat | b < |comp| ensures Attained(C, b, comp[b]) {
      if Terminal(C, b) { assert Walk(C, b, []) && Length(C, []) == 0.0; }
    }
  }

  /**
   * compute_completion_bounds. Without a negative cycle the passes reach the shortest walks to the end
   * vertex, component by component from the end of the order; the sweep then takes minima over the
   * buckets behind.
   */
  method ComputeCompletion<S(!new)>(C: Setup<S>) returns (comp: seq<Bound>, ghost exact: seq<Bound>)
    requires SetupOk(C) && NoNegativeCycle(C)
    ensures Ready(C.P, C.G) && |comp| == |C.G.buckets| && forall b: nat :: b < |comp| ==> ShortestBehind(C, b, comp[b])
    ensures BoundsOfWalks(C, exact, comp)
  {
    hide SetupOk, NoNegativeCycle, Below, Attained, ExactUpTo, GridUpTo, ShortestBehind, SuffixMin;
    SetupReady(C);
    SetupArcsOk(C);
    comp := seq(|C.G.buckets|, b requires 0 <= b < |C.G.buckets| => if C.G.buckets[b].vertex == C.P.top.End(C.dir)
           then Fin(0.0) else Inf);
    StartExact(C, comp);
    for scc := 0 to C.count
      invariant ExactUpTo(C, comp, scc)
    {
      IsGroupOf(C, scc);
      comp := RelaxScc(C, scc, C.groups[scc], comp);
    }
    AllDone(C, comp);
    exact := comp;
    comp := Sweep(C, comp);
    forall b: nat | b < |comp| ensures ShortestBehind(C, b, comp[b]) { IsShortest(C, exact, comp, b); }
  }
}
