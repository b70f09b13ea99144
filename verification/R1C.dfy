/** Limited-memory rank-1 cuts, one bit per cut (r1c.h). */
module R1Cs {
  import opened Resources
  import opened Bits64

  /** A cut as the caller gives it; the first part of a memory arc is its arc id. */
  datatype R1Cut = R1Cut(baseSet: seq<int>, multipliers: seq<real>, memoryArcs: seq<(int, int)>, dual: real)

  datatype CutError = TooManyCuts | SizeMismatch | NotOneHalf

  datatype Result<T> = Ok(value: T) | Err(error: CutError)

  datatype R1C = R1C(active: nat, betas: seq<real>, keep: seq<bv64>, toggle: seq<bv64>) {
    function Keep(a: nat): bv64 { if a < |keep| then keep[a] else 0 }

    function Toggle(v: nat): bv64 { if v < |toggle| then toggle[v] else 0 }

    /** Memory reset: only cuts with the arc in their memory keep their bit. */
    function Along(s: bv64, a: nat): bv64 { if active == 0 then s else And(s, Keep(a)) }

    /** Toggle the bits of the cuts the vertex belongs to; a bit that was set pays. */
    function ToVertex(s: bv64, v: nat): (bv64, real) {
      if active == 0 then (s, 0.0) else (Xor(s, Toggle(v)), CutSum(betas, And(s, Toggle(v)), |betas|))
    }

    /** What s is charged against t when it claims to dominate: the cuts t has half of and s does not. */
    function Domination(s: bv64, t: bv64): real {
      if active == 0 then 0.0 else CutSum(betas, Without(t, s), |betas|)
    }

    /** Joining pays for the cuts that both parts have half of. */
    function Join(s: bv64, a: nat, t: bv64): real {
      if active == 0 then 0.0 else CutSum(betas, And(Along(s, a), t), |betas|)
    }
  }

  /** Minus the betas of the cuts whose bit is set. */
  function CutSum(betas: seq<real>, mask: bv64, n: nat): real
    requires n <= |betas|
  {
    if n == 0 then 0.0 else CutSum(betas, mask, n - 1) - (if Bit(mask, n - 1) then betas[n - 1] else 0.0)
  }

  // ----- Cost of a mask -----

  lemma {:induction false} CutSumEqual(betas: seq<real>, x: bv64, y: bv64, n: nat)
    requires n <= |betas| && forall c: nat :: c < n ==> (Bit(x, c) <==> Bit(y, c))
    ensures CutSum(betas, x, n) == CutSum(betas, y, n)
  {
    hide Bit;
    if n > 0 { CutSumEqual(betas, x, y, n - 1); }
  }

  lemma {:induction false} CutSumCleared(betas: seq<real>, x: bv64, y: bv64, k: nat, n: nat)
    requires n <= |betas| && Bit(x, k) && forall c: nat :: Bit(y, c) <==> Bit(x, c) && c != k
    ensures CutSum(betas, y, n) == CutSum(betas, x, n) + if k < n then betas[k] else 0.0
  {
    hide Bit;
    if n > 0 {
      CutSumCleared(betas, x, y, k, n - 1);
    }
  }

  /** compute_overflow_cost: the loop over the set bits, lowest first. */
  method ComputeOverflowCost(r: R1C, mask: bv64) returns (cost: real)
    requires r.active == |r.betas| <= 64
    ensures cost == CutSum(r.betas, mask, |r.betas|)
  {
    hide ClearLowest, Bit, Fits;
    cost := 0.0;
    var rest := mask;
    ghost var fuel: nat := 64;
    Fits64(rest);
    while rest != 0
      invariant Fits(rest, 64)
      invariant cost + CutSum(r.betas, rest, |r.betas|) == CutSum(r.betas, mask, |r.betas|)
      decreases Ones(rest, 64)
    {
      var bit := TrailingZeros(rest, 64);
      var next := ClearLowest(rest);
      forall p: nat ensures Bit(next, p) <==> Bit(rest, p) && p != bit { LowestCleared(rest, 64, p); }
      LowestCleared(rest, 64, bit);
      CutSumCleared(r.betas, rest, next, bit, |r.betas|);
      OnesCleared(rest, next, bit, 64);
      ClearFits(rest, 64);
      if bit < r.active { cost := cost - r.betas[bit]; }
      rest := next;
    }
    NoCuts(r.betas, |r.betas|);
  }

  lemma {:induction false} NoCuts(betas: seq<real>, n: nat)
    requires n <= |betas|
    ensures CutSum(betas, 0, n) == 0.0
  {
    hide Bit;
    if n > 0 {
      BitZero(n - 1);
      NoCuts(betas, n - 1);
    }
  }

  /** Number of set bits among the first n. */
  ghost function Ones(x: bv64, n: nat): nat {
    if n == 0 then 0 else Ones(x, n - 1) + if Bit(x, n - 1) then 1 else 0
  }

  lemma {:induction false} OnesCleared(x: bv64, y: bv64, k: nat, n: nat)
    requires Bit(x, k) && forall c: nat :: Bit(y, c) <==> Bit(x, c) && c != k
    ensures Ones(y, n) == Ones(x, n) - if k < n then 1 else 0
  {
    hide Bit;
    if n > 0 { OnesCleared(x, y, k, n - 1); }
  }

  // ----- set_cuts -----

  ghost predicate InMemory(cut: R1Cut, a: nat) { exists i: nat :: i < |cut.memoryArcs| && cut.memoryArcs[i].0 == a }

  predicate InBase(cut: R1Cut, v: nat) { v as int in cut.baseSet }

  ghost predicate KeepsBit(cuts: seq<R1Cut>, a: nat, c: nat) { c < |cuts| && InMemory(cuts[c], a) }

  ghost predicate TogglesBit(cuts: seq<R1Cut>, v: nat, c: nat) { c < |cuts| && InBase(cuts[c], v) }

  /** The masks and betas say what the cuts say. */
  ghost predicate BuiltFrom(r: R1C, cuts: seq<R1Cut>, nVertices: nat, nArcs: nat) {
    && r.active == |r.betas| == |cuts| <= 64 && |r.keep| == nArcs && |r.toggle| == nVertices
    && (forall c: nat :: c < |cuts| ==> r.betas[c] == -cuts[c].dual)
    && (forall a: nat, c: nat :: a < nArcs ==> (Bit(r.keep[a], c) <==> KeepsBit(cuts, a, c)))
    && (forall v: nat, c: nat :: v < nVertices ==> (Bit(r.toggle[v], c) <==> TogglesBit(cuts, v, c)))
  }

  predicate Half3(p: real) { -0.000000001 <= p - 0.5 <= 0.000000001 }

  ghost predicate Acceptable(cut: R1Cut) {
    |cut.baseSet| == |cut.multipliers| && forall i: nat :: i < |cut.multipliers| ==> Half3(cut.multipliers[i])
  }

  /** set_cuts: checked cuts become masks. */
  method SetCuts(cuts: seq<R1Cut>, nVertices: nat, nArcs: nat) returns (res: Result<R1C>)
    ensures res.Ok? <==> |cuts| <= 64 && forall c: nat :: c < |cuts| ==> Acceptable(cuts[c])
    ensures res.Ok? ==> BuiltFrom(res.value, cuts, nVertices, nArcs)
    ensures |cuts| > 64 ==> res == Err(TooManyCuts)
  {
    hide Bit;
    if |cuts| > 64 { return Err(TooManyCuts); }
    for c := 0 to |cuts|
      invariant forall d: nat :: d < c ==> Acceptable(cuts[d])
    {
      if |cuts[c].baseSet| != |cuts[c].multipliers| { return Err(SizeMismatch); }
      for i := 0 to |cuts[c].multipliers|
        invariant forall j: nat :: j < i ==> Half3(cuts[c].multipliers[j])
      {
        if !Half3(cuts[c].multipliers[i]) { return Err(NotOneHalf); }
      }
    }
    var keep, toggle := BuildMasks(cuts, nVertices, nArcs);
    var betas := seq(|cuts|, c requires 0 <= c < |cuts| => -cuts[c].dual);
    Assembled(cuts, nVertices, nArcs, betas, keep, toggle);
    return Ok(R1C(|cuts|, betas, keep, toggle));
  }

  lemma Assembled(cuts: seq<R1Cut>, nVertices: nat, nArcs: nat, betas: seq<real>, keep: seq<bv64>, toggle: seq<bv64>)
    requires |betas| == |cuts| <= 64 && |keep| == nArcs && |toggle| == nVertices
    requires forall c: nat :: c < |cuts| ==> betas[c] == -cuts[c].dual
    requires forall a: nat, c: nat :: a < nArcs ==> (Bit(keep[a], c) <==> KeepsBit(cuts, a, c))
    requires forall v: nat, c: nat :: v < nVertices ==> (Bit(toggle[v], c) <==> TogglesBit(cuts, v, c))
    ensures BuiltFrom(R1C(|cuts|, betas, keep, toggle), cuts, nVertices, nArcs)
  {
    hide Bit, KeepsBit, TogglesBit;
  }

  /** Bit c of the masks of the indices below |masks| is set for the indices listed. */
  ghost predicate MarkedWith(before: seq<bv64>, masks: seq<bv64>, c: nat, list: seq<int>) {
    |masks| == |before| && forall a: nat, d: nat ::
        a < |masks| ==> (Bit(masks[a], d) <==> Bit(before[a], d) || (d == c && a as int in list))
  }

  method Mark(before: seq<bv64>, c: nat, list: seq<int>) returns (masks: seq<bv64>)
    requires c < 64
    ensures MarkedWith(before, masks, c, list)
  {
    hide Bit, Mask, Or;
    masks := before;
    for i := 0 to |list|
      invariant MarkedWith(before, masks, c, list[..i])
    {
      assert list[..i + 1] == list[..i] + [list[i]];
      var a := list[i];
      if 0 <= a < |masks| {
        forall d: nat ensures Bit(Or(masks[a], Mask(c)), d) <==> Bit(masks[a], d) || d == c {
          BitOr(masks[a], Mask(c), d);
          BitMask(c, d);
        }
        masks := masks[a := Or(masks[a], Mask(c))];
      }
    }
    assert list[..|list|] == list;
  }

  function ArcIds(arcs: seq<(int, int)>): (r: seq<int>)
    ensures |r| == |arcs| && forall i: nat :: i < |r| ==> r[i] == arcs[i].0
  {
    if arcs == [] then [] else [arcs[0].0] + ArcIds(arcs[1..])
  }

  /** build_masks. */
  method BuildMasks(cuts: seq<R1Cut>, nVertices: nat, nArcs: nat) returns (keep: seq<bv64>, toggle: seq<bv64>)
    requires |cuts| <= 64
    ensures |keep| == nArcs && |toggle| == nVertices
    ensures forall a: nat, c: nat :: a < nArcs ==> (Bit(keep[a], c) <==> KeepsBit(cuts, a, c))
    ensures forall v: nat, c: nat :: v < nVertices ==> (Bit(toggle[v], c) <==> TogglesBit(cuts, v, c))
  {
    hide Bit;
    keep, toggle := seq(nArcs, a => 0), seq(nVertices, v => 0);
    forall c: nat ensures !Bit(0, c) { BitZero(c); }
    for n := 0 to |cuts|
      invariant |keep| == nArcs && |toggle| == nVertices
      invariant forall a: nat, c: nat :: a < nArcs ==> (Bit(keep[a], c) <==> KeepsBit(cuts[..n], a, c))
      invariant forall v: nat, c: nat :: v < nVertices ==> (Bit(toggle[v], c) <==> TogglesBit(cuts[..n], v, c))
    {
      var ids := ArcIds(cuts[n].memoryArcs);
      forall a: nat ensures a as int in ids <==> InMemory(cuts[n], a) {
        if InMemory(cuts[n], a) {
          var i: nat :| i < |cuts[n].memoryArcs| && cuts[n].memoryArcs[i].0 == a;
          assert ids[i] == a;
        }
      }
      keep := Mark(keep, n, ids);
      toggle := Mark(toggle, n, cuts[n].baseSet);
      forall a: nat, c: nat
        ensures KeepsBit(cuts[..n + 1], a, c) <==> KeepsBit(cuts[..n], a, c) || (c == n && InMemory(cuts[n], a))
      {
      }
      forall v: nat, c: nat
        ensures TogglesBit(cuts[..n + 1], v, c) <==> TogglesBit(cuts[..n], v, c) || (c == n && InBase(cuts[n], v))
      {
      }
    }
    assert cuts[..|cuts|] == cuts;
  }

  // ----- The split law -----

  /** Equal totals bit by bit mean equal costs. */
  lemma {:induction false} SameTotal(betas: seq<real>, a: bv64, b: bv64, c: bv64, d: bv64, n: nat)
    requires n <= |betas|
    requires forall i: nat :: i < n ==> Tick(a, i) + Tick(b, i) == Tick(c, i) + Tick(d, i)
    ensures CutSum(betas, a, n) + CutSum(betas, b, n) == CutSum(betas, c, n) + CutSum(betas, d, n)
  {
    hide Bit;
    if n > 0 {
      SameTotal(betas, a, b, c, d, n - 1);
      assert Tick(a, n - 1) + Tick(b, n - 1) == Tick(c, n - 1) + Tick(d, n - 1);
    }
  }

  function Tick(x: bv64, i: nat): nat { if Bit(x, i) then 1 else 0 }

  lemma ShiftTick(x: bv64, y: bv64, g: bv64, i: nat)
    ensures Tick(And(y, g), i) + Tick(And(x, Xor(y, g)), i) == Tick(And(x, g), i) + Tick(And(Xor(x, g), y), i)
  {
    hide Bit, And, Xor;
    BitAnd(y, g, i);
    BitAnd(x, g, i);
    BitXor(y, g, i);
    BitXor(x, g, i);
    BitAnd(x, Xor(y, g), i);
    BitAnd(Xor(x, g), y, i);
  }

  lemma AndAssoc(x: bv64, k: bv64, t: bv64, i: nat)
    ensures Bit(And(And(x, k), t), i) <==> Bit(And(x, And(t, k)), i)
  {
    hide Bit, And;
    BitAnd(And(x, k), t, i);
    BitAnd(x, k, i);
    BitAnd(x, And(t, k), i);
    BitAnd(t, k, i);
  }

  /** Moving the split point over vertex v changes nothing: arc a leads to v, arc b away from it. */
  lemma ShiftCost(r: R1C, s: bv64, a: nat, v: nat, b: nat, t: bv64)
    ensures var bw := r.ToVertex(r.Along(t, b), v);
            var fw := r.ToVertex(r.Along(s, a), v);
            bw.1 + r.Join(s, a, bw.0) == fw.1 + r.Join(fw.0, b, t)
  {
    hide Bit, And, Xor, Tick, CutSum;
    if r.active != 0 {
      var x, y, g, n := r.Along(s, a), r.Along(t, b), r.Toggle(v), |r.betas|;
      forall i: nat | i < n
        ensures Tick(And(y, g), i) + Tick(And(x, Xor(y, g)), i) == Tick(And(x, g), i) + Tick(And(Xor(x, g), y), i)
      {
        ShiftTick(x, y, g, i);
      }
      SameTotal(r.betas, And(y, g), And(x, Xor(y, g)), And(x, g), And(Xor(x, g), y), n);
      var joined := And(And(Xor(x, g), r.Keep(b)), t);
      forall i: nat | i < n
        ensures Bit(joined, i) <==> Bit(And(Xor(x, g), y), i)
      {
        AndAssoc(Xor(x, g), r.Keep(b), t, i);
      }
      CutSumEqual(r.betas, joined, And(Xor(x, g), y), n);
    }
  }

  /** Joining with a fresh backward label at the sink is extending into the sink. */
  lemma SinkCost(r: R1C, s: bv64, a: nat, v: nat)
    requires r.active == |r.betas|
    ensures r.ToVertex(0, v).1 == 0.0 && r.Join(s, a, r.ToVertex(0, v).0) == r.ToVertex(r.Along(s, a), v).1
  {
    if r.active != 0 {
      var x, g, n := r.Along(s, a), r.Toggle(v), |r.betas|;
      hide Bit, And, Xor;
      forall i: nat ensures !Bit(And(0, g), i) && (Bit(And(x, Xor(0, g)), i) <==> Bit(And(x, g), i)) && !Bit(0, i) {
        BitZero(i);
        BitAnd(0, g, i);
        BitXor(0, g, i);
        BitAnd(x, Xor(0, g), i);
        BitAnd(x, g, i);
      }
      CutSumEqual(r.betas, And(0, g), 0, n);
      NoCuts(r.betas, n);
      CutSumEqual(r.betas, And(x, Xor(0, g)), And(x, g), n);
    }
  }

  /** State and cut cost of a forward label. */
  function Forwards(r: R1C, top: Topology, arcs: seq<nat>): (bv64, real) {
    if arcs == [] then r.ToVertex(0, top.source) else
    var m := |arcs| - 1;
    var prev := Forwards(r, top, arcs[..m]);
    var next := r.ToVertex(r.Along(prev.0, arcs[m]), top.to(arcs[m]));
    (next.0, prev.1 + next.1)
  }

  /** State and cut cost of a backward label whose arcs lead to the sink. */
  function Backwards(r: R1C, top: Topology, arcs: seq<nat>): (bv64, real) {
    if arcs == [] then r.ToVertex(0, top.sink) else
    var prev := Backwards(r, top, arcs[1..]);
    var next := r.ToVertex(r.Along(prev.0, arcs[0]), top.from(arcs[0]));
    (next.0, prev.1 + next.1)
  }

  /** Consecutive arcs meet, and the last one enters the sink. */
  ghost predicate ToSink(top: Topology, a: nat, t: seq<nat>)
    decreases |t|
  {
    if t == [] then top.to(a) == top.sink else top.to(a) == top.from(t[0]) && ToSink(top, t[0], t[1..])
  }

  /**
   * The split law: for any path and any split arc, prefix cost, join cost and suffix cost add up to the
   * cost of the whole path.
   */
  lemma {:induction false} SplitLaw(r: R1C, top: Topology, p: seq<nat>, a: nat, t: seq<nat>)
    requires r.active == |r.betas| && ToSink(top, a, t)
    ensures Forwards(r, top, p + [a] + t).1 ==
            Forwards(r, top, p).1 + r.Join(Forwards(r, top, p).0, a, Backwards(r, top, t).0) + Backwards(r, top, t).1
    decreases |t|
  {
    hide CutSum, And, Xor, Bit;
    assert (p + [a])[..|p|] == p;
    if t == [] {
      assert p + [a] + t == p + [a];
      SinkCost(r, Forwards(r, top, p).0, a, top.sink);
    } else {
      var b, rest := t[0], t[1..];
      assert p + [a] + t == (p + [a]) + [b] + rest;
      SplitLaw(r, top, p + [a], b, rest);
      ShiftCost(r, Forwards(r, top, p).0, a, top.to(a), b, Backwards(r, top, rest).0);
    }
  }

  // ----- What the cost means -----

  /** The vertices of a path, cut wherever an arc is not in the memory of the cut. */
  ghost function Segments(top: Topology, cut: R1Cut, arcs: seq<nat>): (r: seq<seq<nat>>)
    ensures |r| > 0
  {
    if arcs == [] then [[top.source]] else
    var m := |arcs| - 1;
    var prev, v := Segments(top, cut, arcs[..m]), top.to(arcs[m]);
    if InMemory(cut, arcs[m]) then prev[|prev| - 1 := prev[|prev| - 1] + [v]] else prev + [[v]]
  }

  /** How often a stretch of vertices visits the base set. */
  function Visits(cut: R1Cut, stretch: seq<nat>): nat {
    if stretch == [] then 0 else Visits(cut, stretch[..|stretch| - 1]) + if InBase(cut, stretch[|stretch| - 1]) then 1
         else 0
  }

  /** The sum of floor(visits / 2) over the stretches. */
  function Halves(cut: R1Cut, stretches: seq<seq<nat>>): nat {
    if stretches == [] then 0 else
    Halves(cut, stretches[..|stretches| - 1]) + Visits(cut, stretches[|stretches| - 1]) / 2
  }

  ghost function CutHalves(top: Topology, cut: R1Cut, arcs: seq<nat>): nat { Halves(cut, Segments(top, cut, arcs)) }

  ghost function LastVisits(top: Topology, cut: R1Cut, arcs: seq<nat>): nat {
    var segs := Segments(top, cut, arcs);
    Visits(cut, segs[|segs| - 1])
  }

  /** Minus the sum of beta times halves over the first n cuts. */
  ghost function Charged(top: Topology, cuts: seq<R1Cut>, betas: seq<real>, arcs: seq<nat>, n: nat): real
    requires n <= |cuts| && n <= |betas|
  {
    if n == 0 then 0.0 else
    Charged(top, cuts, betas, arcs, n - 1) - betas[n - 1] * CutHalves(top, cuts[n - 1], arcs) as real
  }

  lemma VisitsOne(cut: R1Cut, v: nat)
    ensures Visits(cut, [v]) == if InBase(cut, v) then 1 else 0
  {
    assert [v][..0] == [];
    assert Visits(cut, []) == 0;
  }

  lemma SegmentStep(top: Topology, cut: R1Cut, arcs: seq<nat>, a: nat)
    ensures var u, hit := (if InMemory(cut, a) then LastVisits(top, cut, arcs) else 0),
            if InBase(cut, top.to(a)) then 1 else 0;
            && LastVisits(top, cut, arcs + [a]) == u + hit
            && CutHalves(top, cut, arcs + [a]) == CutHalves(top, cut, arcs) + if u % 2 == 1 && hit == 1 then 1 else 0
  {
    var more := arcs + [a];
    assert more[..|arcs|] == arcs;
    var prev, v := Segments(top, cut, arcs), top.to(a);
    var m := |prev| - 1;
    var last := prev[m];
    if InMemory(cut, a) {
      var next := prev[m := last + [v]];
      assert next[..m] == prev[..m];
      assert (last + [v])[..|last|] == last;
      assert Segments(top, cut, more) == next;
    } else {
      var next := prev + [[v]];
      assert next[..m + 1] == prev;
      VisitsOne(cut, v);
      assert Segments(top, cut, more) == next;
    }
  }

  lemma SegmentStart(top: Topology, cut: R1Cut)
    ensures LastVisits(top, cut, []) == (if InBase(cut, top.source) then 1 else 0) && CutHalves(top, cut, []) == 0
  {
    VisitsOne(cut, top.source);
    var segs := [[top.source]];
    assert Segments(top, cut, []) == segs;
    assert segs[..0] == [];
    assert Halves(cut, segs) == Halves(cut, []) + Visits(cut, [top.source]) / 2;
  }

  ghost predicate ArcsIn(top: Topology, arcs: seq<nat>, nVertices: nat, nArcs: nat) {
    top.source < nVertices && forall i: nat :: i < |arcs| ==> arcs[i] < nArcs && top.to(arcs[i]) < nVertices
  }

  /** Bit c after a path is set exactly when the last segment has an odd number of visits. */
  ghost predicate ParityAt(r: R1C, top: Topology, cuts: seq<R1Cut>, arcs: seq<nat>, c: nat) {
    Bit(Forwards(r, top, arcs).0, c) <==> c < |cuts| && LastVisits(top, cuts[c], arcs) % 2 == 1
  }

  lemma {:induction false} ChargedStep(top: Topology, cuts: seq<R1Cut>, betas: seq<real>, arcs: seq<nat>, a: nat,
                                       mask: bv64, n: nat)
    requires n <= |cuts| && n <= |betas|
    requires forall c: nat ::
             c < n ==> CutHalves(top, cuts[c], arcs + [a]) == CutHalves(top, cuts[c], arcs) + Tick(mask, c)
    ensures Charged(top, cuts, betas, arcs + [a], n) == Charged(top, cuts, betas, arcs, n) + CutSum(betas, mask, n)
  {
    hide Bit, CutHalves;
    if n > 0 {
      ChargedStep(top, cuts, betas, arcs, a, mask, n - 1);
      var h, k := CutHalves(top, cuts[n - 1], arcs), Tick(mask, n - 1);
      assert CutHalves(top, cuts[n - 1], arcs + [a]) == h + k;
      assert betas[n - 1] * (h + k) as real == betas[n - 1] * h as real + betas[n - 1] * k as real;
    }
  }

  lemma {:induction false} ChargedStart(top: Topology, cuts: seq<R1Cut>, betas: seq<real>, n: nat)
    requires n <= |cuts| && n <= |betas|
    ensures Charged(top, cuts, betas, [], n) == 0.0
  {
    if n > 0 {
      ChargedStart(top, cuts, betas, n - 1);
      SegmentStart(top, cuts[n - 1]);
    }
  }

  lemma StepBits(r: R1C, cuts: seq<R1Cut>, nVertices: nat, nArcs: nat, top: Topology, s: bv64, a: nat, c: nat)
    requires BuiltFrom(r, cuts, nVertices, nArcs) && |cuts| > 0 && a < nArcs && top.to(a) < nVertices
    ensures var x, g := r.Along(s, a), r.Toggle(top.to(a));
            && (Bit(And(x, g), c) <==> Bit(s, c) && c < |cuts| && InMemory(cuts[c], a) && InBase(cuts[c], top.to(a)))
            && (Bit(Xor(x, g), c) <==>
              (Bit(s, c) && c < |cuts| && InMemory(cuts[c], a)) != (c < |cuts| && InBase(cuts[c], top.to(a))))
  {
    hide Bit, And, Xor;
    BitAnd(s, r.Keep(a), c);
    BitAnd(r.Along(s, a), r.Toggle(top.to(a)), c);
    BitXor(r.Along(s, a), r.Toggle(top.to(a)), c);
  }

  /**
   * The cut cost of a whole path: for each cut, minus beta times the sum of floor(visits / 2) over the
   * maximal segments of the path that the memory of the cut connects.
   */
  lemma {:induction false} CostMeaning(r: R1C, cuts: seq<R1Cut>, nVertices: nat, nArcs: nat, top: Topology,
                                       arcs: seq<nat>)
    requires BuiltFrom(r, cuts, nVertices, nArcs) && ArcsIn(top, arcs, nVertices, nArcs)
    ensures Forwards(r, top, arcs).1 == Charged(top, cuts, r.betas, arcs, |cuts|)
    ensures |cuts| > 0 ==> forall c: nat :: ParityAt(r, top, cuts, arcs, c)
  {
    hide Bit, And, Xor, CutSum, Charged, CutHalves, LastVisits, Segments;
    if |cuts| == 0 {
      NoCutsNoCost(r, top, cuts, arcs);
    } else if arcs == [] {
      CostStart(r, cuts, nVertices, nArcs, top);
    } else {
      var m := |arcs| - 1;
      var prev, a := arcs[..m], arcs[m];
      assert arcs == prev + [a];
      CostMeaning(r, cuts, nVertices, nArcs, top, prev);
      CostStep(r, cuts, nVertices, nArcs, top, prev, a);
    }
  }

  lemma CostStart(r: R1C, cuts: seq<R1Cut>, nVertices: nat, nArcs: nat, top: Topology)
    requires BuiltFrom(r, cuts, nVertices, nArcs) && ArcsIn(top, [], nVertices, nArcs) && |cuts| > 0
    ensures Forwards(r, top, []).1 == Charged(top, cuts, r.betas, [], |cuts|)
    ensures forall c: nat :: ParityAt(r, top, cuts, [], c)
  {
    hide Bit, And, Xor, CutHalves, LastVisits, Segments, Charged;
    var g := r.Toggle(top.source);
    ChargedStart(top, cuts, r.betas, |cuts|);
    forall c: nat ensures ParityAt(r, top, cuts, [], c) && !Bit(And(0, g), c) && !Bit(0, c) {
      BitZero(c);
      BitAnd(0, g, c);
      BitXor(0, g, c);
      if c < |cuts| { SegmentStart(top, cuts[c]); }
    }
    CutSumEqual(r.betas, And(0, g), 0, |r.betas|);
    NoCuts(r.betas, |r.betas|);
  }

  /** One step of one cut. */
  lemma CutStep(r: R1C, cuts: seq<R1Cut>, nVertices: nat, nArcs: nat, top: Topology, prev: seq<nat>, a: nat, c: nat)
    requires BuiltFrom(r, cuts, nVertices, nArcs) && |cuts| > 0 && a < nArcs && top.to(a) < nVertices
    requires ParityAt(r, top, cuts, prev, c)
    ensures ParityAt(r, top, cuts, prev + [a], c)
    ensures c < |cuts| ==>
              CutHalves(top, cuts[c], prev + [a]) == CutHalves(top, cuts[c], prev)
              + Tick(And(r.Along(Forwards(r, top, prev).0, a), r.Toggle(top.to(a))), c)
  {
    hide Bit, And, Xor, CutHalves, LastVisits, CutSum, BuiltFrom;
    assert r.active != 0 by { ActiveIs(r, cuts, nVertices, nArcs); }
    assert (prev + [a])[..|prev|] == prev;
    StepBits(r, cuts, nVertices, nArcs, top, Forwards(r, top, prev).0, a, c);
    if c < |cuts| { SegmentStep(top, cuts[c], prev, a); }
  }

  lemma ActiveIs(r: R1C, cuts: seq<R1Cut>, nVertices: nat, nArcs: nat)
    requires BuiltFrom(r, cuts, nVertices, nArcs)
    ensures r.active == |cuts| == |r.betas|
  {
  }

  lemma CostStep(r: R1C, cuts: seq<R1Cut>, nVertices: nat, nArcs: nat, top: Topology, prev: seq<nat>, a: nat)
    requires BuiltFrom(r, cuts, nVertices, nArcs) && |cuts| > 0 && a < nArcs && top.to(a) < nVertices
    requires Forwards(r, top, prev).1 == Charged(top, cuts, r.betas, prev, |cuts|)
    requires forall c: nat :: ParityAt(r, top, cuts, prev, c)
    ensures Forwards(r, top, prev + [a]).1 == Charged(top, cuts, r.betas, prev + [a], |cuts|)
    ensures forall c: nat :: ParityAt(r, top, cuts, prev + [a], c)
  {
    hide Bit, And, Xor, CutHalves, Charged, CutSum, BuiltFrom, ParityAt, Tick;
    ActiveIs(r, cuts, nVertices, nArcs);
    assert (prev + [a])[..|prev|] == prev;
    var mask := And(r.Along(Forwards(r, top, prev).0, a), r.Toggle(top.to(a)));
    var more := prev + [a];
    forall c: nat
      ensures ParityAt(r, top, cuts, more, c)
      ensures c < |cuts| ==> CutHalves(top, cuts[c], more) == CutHalves(top, cuts[c], prev) + Tick(mask, c)
    {
      CutStep(r, cuts, nVertices, nArcs, top, prev, a, c);
    }
    ChargedStep(top, cuts, r.betas, prev, a, mask, |cuts|);
  }

  lemma {:induction false} NoCutsNoCost(r: R1C, top: Topology, cuts: seq<R1Cut>, arcs: seq<nat>)
    requires r.active == 0 && |cuts| == 0
    ensures Forwards(r, top, arcs).1 == 0.0 == Charged(top, cuts, r.betas, arcs, 0)
  {
    if arcs != [] { NoCutsNoCost(r, top, cuts, arcs[..|arcs| - 1]); }
  }

  // ----- The dominance rule -----

  /** State s at cost x claims to dominate state t at cost y. */
  predicate Claims(r: R1C, s: bv64, x: real, t: bv64, y: real) { x + r.Domination(s, t) <= y }

  /** The same claim when both have gone over arc a to vertex v: memory reset first, then the visit. */
  predicate ClaimsAfter(r: R1C, s: bv64, x: real, t: bv64, y: real, a: nat, v: nat) {
    var s', t' := r.ToVertex(r.Along(s, a), v), r.ToVertex(r.Along(t, a), v);
    Claims(r, s'.0, x + s'.1, t'.0, y + t'.1)
  }

  /** Whatever a label with state s claims of one with state t, it still may after the step. */
  ghost predicate StepKept(r: R1C, s: bv64, t: bv64, a: nat, v: nat) {
    forall x: real, y: real :: Claims(r, s, x, t, y) ==> ClaimsAfter(r, s, x, t, y, a, v)
  }

  ghost predicate StepsKept(r: R1C, a: nat, v: nat) { forall s: bv64, t: bv64 :: StepKept(r, s, t, a, v) }

  /** Cut c does the step no harm: it is free if its bit is kept and toggled, and no bonus if its bit is reset. */
  predicate Harmless(r: R1C, a: nat, v: nat, c: nat)
    requires c < |r.betas|
  {
    && (Bit(r.Keep(a), c) && Bit(r.Toggle(v), c) ==> r.betas[c] == 0.0)
    && (!Bit(r.Keep(a), c) ==> r.betas[c] <= 0.0)
  }

  /** What cut c adds to the cost of a mask. */
  function Weight(betas: seq<real>, m: bv64, c: nat): real
    requires c < |betas|
  {
    if Bit(m, c) then -betas[c] else 0.0
  }

  /** What the dominating label pays and is charged after the step. */
  function PaidBy(r: R1C, s: bv64, t: bv64, a: nat, v: nat): (bv64, bv64) {
    var k, g := r.Keep(a), r.Toggle(v);
    (And(And(s, k), g), Without(Xor(And(t, k), g), Xor(And(s, k), g)))
  }

  /** What it was charged before, and what the dominated label pays. */
  function OwedBy(r: R1C, s: bv64, t: bv64, a: nat, v: nat): (bv64, bv64) {
    (Without(t, s), And(And(t, r.Keep(a)), r.Toggle(v)))
  }

  /** The step keeps the claim exactly if no more is paid and charged than was owed. */
  lemma StepKeptIff(r: R1C, s: bv64, t: bv64, a: nat, v: nat)
    requires r.active == |r.betas| > 0
    ensures var n, p, o := |r.betas|, PaidBy(r, s, t, a, v), OwedBy(r, s, t, a, v);
            StepKept(r, s, t, a, v) <==>
              CutSum(r.betas, p.0, n) + CutSum(r.betas, p.1, n) <= CutSum(r.betas, o.0, n) + CutSum(r.betas, o.1, n)
  {
    hide CutSum, And, Xor, Without;
    var x, y := -r.Domination(s, t), 0.0;
    assert Claims(r, s, x, t, y);
    if StepKept(r, s, t, a, v) { assert ClaimsAfter(r, s, x, t, y, a, v); }
  }

  /** If no cut pays more than it owes, neither do all together. */
  lemma {:induction false} CutSumsOrdered(betas: seq<real>, p: (bv64, bv64), o: (bv64, bv64), n: nat)
    requires n <= |betas|
    requires forall c: nat ::
             c < n ==> Weight(betas, p.0, c) + Weight(betas, p.1, c) <= Weight(betas, o.0, c) + Weight(betas, o.1, c)
    ensures CutSum(betas, p.0, n) + CutSum(betas, p.1, n) <= CutSum(betas, o.0, n) + CutSum(betas, o.1, n)
  {
    hide Bit;
    if n > 0 {
      CutSumsOrdered(betas, p, o, n - 1);
      var c: nat := n - 1;
      assert Weight(betas, p.0, c) + Weight(betas, p.1, c) <= Weight(betas, o.0, c) + Weight(betas, o.1, c);
    }
  }

  /** Bit c alone. */
  lemma {:induction false} CutSumOnly(betas: seq<real>, x: bv64, c: nat, n: nat)
    requires c < |betas| && n <= |betas| && forall i: nat :: Bit(x, i) ==> i == c
    ensures CutSum(betas, x, n) == if c < n then Weight(betas, x, c) else 0.0
  {
    hide Bit;
    if n > 0 { CutSumOnly(betas, x, c, n - 1); }
  }

  /** The four masks, bit by bit. */
  lemma MaskBits(r: R1C, s: bv64, t: bv64, a: nat, v: nat, c: nat)
    ensures var k, g, p, o := Bit(r.Keep(a), c), Bit(r.Toggle(v), c), PaidBy(r, s, t, a, v), OwedBy(r, s, t, a, v);
            && (Bit(p.0, c) <==> Bit(s, c) && k && g)
            && (Bit(p.1, c) <==> ((Bit(t, c) && k) != g) && !((Bit(s, c) && k) != g))
            && (Bit(o.0, c) <==> Bit(t, c) && !Bit(s, c))
            && (Bit(o.1, c) <==> Bit(t, c) && k && g)
  {
    hide Bit, And, Xor, Without;
    var k, g := r.Keep(a), r.Toggle(v);
    BitAnd(s, k, c);
    BitAnd(t, k, c);
    BitAnd(And(s, k), g, c);
    BitAnd(And(t, k), g, c);
    BitXor(And(s, k), g, c);
    BitXor(And(t, k), g, c);
    BitWithout(t, s, c);
    BitWithout(Xor(And(t, k), g), Xor(And(s, k), g), c);
  }

  /** A label with half of cut c alone against one with nothing, and the other way round. */
  lemma HalfAgainstNone(r: R1C, a: nat, v: nat, c: nat)
    requires r.active == |r.betas| && c < r.active <= 64
    ensures StepKept(r, Mask(c), 0, a, v) && StepKept(r, 0, Mask(c), a, v) ==> Harmless(r, a, v, c)
  {
    hide Bit, Mask, PaidBy, OwedBy, CutSum, StepKept;
    var n := |r.betas|;
    forall i: nat ensures (Bit(Mask(c), i) <==> i == c) && !Bit(0, i) {
      BitMask(c, i);
      BitZero(i);
    }
    OnlyCut(r, Mask(c), 0, a, v, c);
    OnlyCut(r, 0, Mask(c), a, v, c);
    MaskBits(r, Mask(c), 0, a, v, c);
    MaskBits(r, 0, Mask(c), a, v, c);
    StepKeptIff(r, Mask(c), 0, a, v);
    StepKeptIff(r, 0, Mask(c), a, v);
  }

  /** States that differ in bit c at most pay and owe for cut c alone. */
  lemma OnlyCut(r: R1C, s: bv64, t: bv64, a: nat, v: nat, c: nat)
    requires c < |r.betas| && forall i: nat :: i != c ==> !Bit(s, i) && !Bit(t, i)
    ensures var n, p, o := |r.betas|, PaidBy(r, s, t, a, v), OwedBy(r, s, t, a, v);
            && CutSum(r.betas, p.0, n) == Weight(r.betas, p.0, c) && CutSum(r.betas, p.1, n) == Weight(r.betas, p.1, c)
            && CutSum(r.betas, o.0, n) == Weight(r.betas, o.0, c) && CutSum(r.betas, o.1, n) == Weight(r.betas, o.1, c)
  {
    hide Bit, PaidBy, OwedBy, CutSum;
    var n, p, o := |r.betas|, PaidBy(r, s, t, a, v), OwedBy(r, s, t, a, v);
    forall i: nat
      ensures (Bit(p.0, i) || Bit(p.1, i) || Bit(o.0, i) || Bit(o.1, i)) ==> i == c
    {
      MaskBits(r, s, t, a, v, i);
    }
    CutSumOnly(r.betas, p.0, c, n);
    CutSumOnly(r.betas, p.1, c, n);
    CutSumOnly(r.betas, o.0, c, n);
    CutSumOnly(r.betas, o.1, c, n);
  }

  lemma HarmlessKept(r: R1C, s: bv64, t: bv64, a: nat, v: nat)
    requires r.active == |r.betas| && forall c: nat :: c < r.active ==> Harmless(r, a, v, c)
    ensures StepKept(r, s, t, a, v)
  {
    hide Bit, PaidBy, OwedBy, CutSum;
    if r.active > 0 {
      var n, p, o := |r.betas|, PaidBy(r, s, t, a, v), OwedBy(r, s, t, a, v);
      forall c: nat | c < n
        ensures Weight(r.betas, p.0, c) + Weight(r.betas, p.1, c) <= Weight(r.betas, o.0, c) + Weight(r.betas, o.1, c)
      {
        assert Harmless(r, a, v, c);
        MaskBits(r, s, t, a, v, c);
      }
      CutSumsOrdered(r.betas, p, o, n);
      StepKeptIff(r, s, t, a, v);
    }
  }

  /**
   * Exactly when dominance may be tested with this cost: the claims of all states survive the step over arc a to
   * vertex v if and only if every cut with a in its memory and v in its base set has beta 0, and every cut without a
   * in its memory has no positive beta.
   */
  lemma DominationSoundIff(r: R1C, a: nat, v: nat)
    requires r.active == |r.betas| <= 64
    ensures StepsKept(r, a, v) <==> forall c: nat :: c < r.active ==> Harmless(r, a, v, c)
  {
    hide Bit, StepKept, Harmless, Mask;
    if StepsKept(r, a, v) {
      forall c: nat | c < r.active ensures Harmless(r, a, v, c) {
        assert StepKept(r, Mask(c), 0, a, v) && StepKept(r, 0, Mask(c), a, v);
        HalfAgainstNone(r, a, v, c);
      }
    }
    if forall c: nat :: c < r.active ==> Harmless(r, a, v, c) {
      forall s: bv64, t: bv64 ensures StepKept(r, s, t, a, v) { HarmlessKept(r, s, t, a, v); }
    }
  }

  /** State and cost after following arcs. */
  function After(r: R1C, top: Topology, s: bv64, x: real, arcs: seq<nat>): (bv64, real)
    decreases |arcs|
  {
    if arcs == [] then (s, x) else
    var next := r.ToVertex(r.Along(s, arcs[0]), top.to(arcs[0]));
    After(r, top, next.0, x + next.1, arcs[1..])
  }

  lemma ClaimStep(r: R1C, s: bv64, x: real, t: bv64, y: real, a: nat, v: nat)
    requires StepKept(r, s, t, a, v) && Claims(r, s, x, t, y)
    ensures ClaimsAfter(r, s, x, t, y, a, v)
  {
  }

  /** Where the steps keep claims, so does every path. */
  lemma {:induction false} ClaimsLast(r: R1C, top: Topology, s: bv64, x: real, t: bv64, y: real, arcs: seq<nat>)
    requires Claims(r, s, x, t, y) && forall i: nat :: i < |arcs| ==> StepsKept(r, arcs[i], top.to(arcs[i]))
    ensures var s', t' := After(r, top, s, x, arcs), After(r, top, t, y, arcs); Claims(r, s'.0, s'.1, t'.0, t'.1)
    decreases |arcs|
  {
    hide StepKept;
    if arcs != [] {
      var a, v := arcs[0], top.to(arcs[0]);
      assert StepsKept(r, a, v) && StepKept(r, s, t, a, v);
      ClaimStep(r, s, x, t, y, a, v);
      var s', t' := r.ToVertex(r.Along(s, a), v), r.ToVertex(r.Along(t, a), v);
      ClaimsLast(r, top, s'.0, x + s'.1, t'.0, y + t'.1, arcs[1..]);
    }
  }

  // ----- A cut that breaks it -----

  /** Vertices 0, 1 and 2 with a multiplier of one half each, arcs 1 and 3 in the memory, dual value 1. */
  function Triangle(): R1Cut { R1Cut([0, 1, 2], [0.5, 0.5, 0.5], [(1, 0), (3, 0)], 1.0) }

  /** Arcs 4 to 1, 1 to 3, 4 to 3 and 3 to 0. */
  function TwoWays(): Topology {
    Topology(a => if a == 1 then 1 else if a == 3 then 3 else 4,
             a => if a == 0 then 1 else if a == 3 then 0 else 3, 4, 0)
  }

  lemma OneCut(betas: seq<real>, x: bv64)
    requires |betas| == 1
    ensures CutSum(betas, x, 1) == Weight(betas, x, 0)
  {
    hide Bit;
    assert CutSum(betas, x, 0) == 0.0;
  }

  /** One step, seen at bit 0. */
  lemma BitStep(r: R1C, x: bv64, a: nat, v: nat)
    requires r.active == |r.betas| == 1
    ensures var k, g, next := Bit(r.Keep(a), 0), Bit(r.Toggle(v), 0), r.ToVertex(r.Along(x, a), v);
            && (Bit(next.0, 0) <==> (Bit(x, 0) && k) != g)
            && next.1 == if Bit(x, 0) && k && g then -r.betas[0] else 0.0
  {
    hide Bit, And, Xor, CutSum;
    BitAnd(x, r.Keep(a), 0);
    BitAnd(r.Along(x, a), r.Toggle(v), 0);
    BitXor(r.Along(x, a), r.Toggle(v), 0);
    OneCut(r.betas, And(r.Along(x, a), r.Toggle(v)));
  }

  lemma DominationBit(r: R1C, s: bv64, t: bv64)
    requires r.active == |r.betas| == 1
    ensures r.Domination(s, t) == if Bit(t, 0) && !Bit(s, 0) then -r.betas[0] else 0.0
  {
    hide Bit, Without, CutSum;
    BitWithout(t, s, 0);
    OneCut(r.betas, Without(t, s));
  }

  lemma TriangleBits(r: R1C)
    requires BuiltFrom(r, [Triangle()], 5, 4)
    ensures r.betas == [-1.0]
    ensures forall a: nat :: a < 4 ==> (Bit(r.Keep(a), 0) <==> a == 1 || a == 3)
    ensures forall v: nat :: v < 5 ==> (Bit(r.Toggle(v), 0) <==> v < 3)
  {
    hide Bit;
    var cuts := [Triangle()];
    assert r.betas[0] == -1.0;
    assert Triangle().memoryArcs[0].0 == 1 && Triangle().memoryArcs[1].0 == 3;
    forall a: nat | a < 4
      ensures Bit(r.Keep(a), 0) <==> a == 1 || a == 3
    {
      assert Bit(r.keep[a], 0) <==> KeepsBit(cuts, a, 0);
    }
    forall v: nat | v < 5
      ensures Bit(r.Toggle(v), 0) <==> v < 3
    {
      assert Bit(r.toggle[v], 0) <==> TogglesBit(cuts, v, 0);
    }
  }

  /** The states and costs of the four paths. */
  lemma FourPaths(r: R1C)
    requires BuiltFrom(r, [Triangle()], 5, 4)
    ensures var top := TwoWays();
            var p, q := Forwards(r, top, [0, 1]), Forwards(r, top, [2]);
            var p', q' := Forwards(r, top, [0, 1, 3]), Forwards(r, top, [2, 3]);
            && Bit(p.0, 0) && !Bit(q.0, 0) && p.1 == 0.0 == q.1
            && !Bit(p'.0, 0) && Bit(q'.0, 0) && p'.1 == 1.0 && q'.1 == 0.0
  {
    hide Bit, Mask, And, Xor, Without, CutSum;
    var top := TwoWays();
    TriangleBits(r);
    BitZero(0);
    assert [0, 1, 3][..2] == [0, 1] && [0, 1][..1] == [0] && [0][..0] == [] && [2, 3][..1] == [2] && [2][..0] == [];
    StartBit(r);
    BitStep(r, Forwards(r, top, []).0, 0, 1);
    BitStep(r, Forwards(r, top, [0]).0, 1, 3);
    BitStep(r, Forwards(r, top, [0, 1]).0, 3, 0);
    BitStep(r, Forwards(r, top, []).0, 2, 3);
    BitStep(r, Forwards(r, top, [2]).0, 3, 0);
  }

  lemma StartBit(r: R1C)
    requires BuiltFrom(r, [Triangle()], 5, 4)
    ensures !Bit(Forwards(r, TwoWays(), []).0, 0) && Forwards(r, TwoWays(), []).1 == 0.0
  {
    hide Bit, And, Xor, CutSum;
    TriangleBits(r);
    BitZero(0);
    BitXor(0, r.Toggle(4), 0);
    BitAnd(0, r.Toggle(4), 0);
    OneCut(r.betas, And(0, r.Toggle(4)));
  }

  /**
   * set_cuts accepts this cut, and the rule fails on it: of two paths to vertex 3 that have paid nothing, the one with
   * half of the cut may claim to dominate the one with none; one arc on, to vertex 0, it has paid 1 and the other
   * still nothing, and the claim is gone.
   */
  method ClaimBroken() returns (r: R1C)
    ensures BuiltFrom(r, [Triangle()], 5, 4)
    ensures var top := TwoWays();
            var p, q := Forwards(r, top, [0, 1]), Forwards(r, top, [2]);
            var p', q' := Forwards(r, top, [0, 1, 3]), Forwards(r, top, [2, 3]);
            && Claims(r, p.0, p.1, q.0, q.1) && p'.1 == 1.0 && q'.1 == 0.0 && !Claims(r, p'.0, p'.1, q'.0, q'.1)
  {
    hide Bit, Mask, And, Xor, Without, Forwards;
    assert Acceptable(Triangle());
    var res := SetCuts([Triangle()], 5, 4);
    r := res.value;
    FourPaths(r);
    TriangleBits(r);
    DominationBit(r, Forwards(r, TwoWays(), [0, 1]).0, Forwards(r, TwoWays(), [2]).0);
    DominationBit(r, Forwards(r, TwoWays(), [0, 1, 3]).0, Forwards(r, TwoWays(), [2, 3]).0);
  }
}
