/** The ng-path resource with its local bit positions (resources/ng_path.h). */
module NgPaths {
  import opened Types
  import opened Resources
  import opened Bits

  /** Per arc: the position to check and the pairs of positions to copy, for both directions. */
  datatype ArcInfo = ArcInfo(fwCheck: int, fwPairs: seq<(nat, nat)>, bwCheck: int, bwPairs: seq<(nat, nat)>)

  // ----- Local positions -----

  /** The positions one vertex gives to its neighbours: a row of the position table, and the first unused position. */
  function Assign(list: seq<int>, n: nat): (r: (seq<int>, nat))
    ensures |r.0| == n
  {
    if list == [] then (seq(n, i => -1), 0) else
    var (row, pos) := Assign(list[..|list| - 1], n);
    var w := list[|list| - 1];
    if 0 <= w < n && pos < 31 then (row[w := pos], pos + 1) else (row, pos)
  }

  /** The entries that name a vertex name different ones. */
  ghost predicate Clean(list: seq<int>, n: nat) {
    forall i: nat, j: nat :: i < j < |list| && 0 <= list[i] < n ==> list[i] != list[j]
  }

  lemma {:induction false} AssignFacts(list: seq<int>, n: nat)
    ensures Assign(list, n).1 <= 31
    ensures forall w: nat :: w < n ==> -1 <= Assign(list, n).0[w] < Assign(list, n).1
    ensures forall w: nat :: w < n && Assign(list, n).0[w] >= 0 ==> w in list
    ensures forall w: nat, x: nat ::
            w < x < n && Assign(list, n).0[w] >= 0 ==> Assign(list, n).0[w] != Assign(list, n).0[x]
  {
    if list != [] {
      var rest := list[..|list| - 1];
      AssignFacts(rest, n);
      assert list == rest + [list[|list| - 1]];
    }
  }

  /** The tables the constructor fills. The topology is what its arc arrays say. */
  datatype Ng = Ng(n: nat, neighbors: seq<seq<int>>, positions: seq<seq<int>>, selfBits: seq<nat>, arcs: seq<ArcInfo>,
        top: Topology) {
    /** Position of w among the neighbours of v, or -1. */
    function Pos(v: nat, w: nat): int {
      if v < |positions| && w < |positions[v]| then positions[v][w] else -1
    }

    function Self(v: nat): nat { if v < |selfBits| then selfBits[v] else 0 }

    function ListOf(v: nat): seq<int> { if v < |neighbors| then neighbors[v] else [] }

    /** The pairs for the common neighbours of u and v. */
    function ScanPairs(list: seq<int>, u: nat, v: nat): seq<(nat, nat)> {
      if list == [] then [] else
      var pairs := ScanPairs(list[..|list| - 1], u, v);
      var w := list[|list| - 1];
      if 0 <= w < n && Pos(u, w) >= 0 && Pos(v, w) >= 0 && |pairs| < 32 then pairs + [(Pos(u, w), Pos(v, w))] else pairs
    }

    /** All pairs for a move from u to v, the last one for u itself. */
    function PairsFor(u: nat, v: nat): seq<(nat, nat)> {
      var pairs := ScanPairs(ListOf(u), u, v);
      if Pos(v, u) >= 0 && |pairs| < 32 then pairs + [(Self(u), Pos(v, u))] else pairs
    }

    function ArcFor(u: nat, v: nat): ArcInfo { ArcInfo(Pos(u, v), PairsFor(u, v), Pos(v, u), PairsFor(v, u)) }

    function Info(a: nat): ArcInfo { if a < |arcs| then arcs[a] else ArcFor(top.from(a), top.to(a)) }

    // ----- The resource -----

    function InitState(dir: Direction): bv32 { 0 }

    function ExtendAlongArc(dir: Direction, s: bv32, a: nat): (bv32, Bound) {
      var check, pairs := if dir.Forward? then Info(a).fwCheck
          else Info(a).bwCheck, if dir.Forward? then Info(a).fwPairs else Info(a).bwPairs;
      if check >= 0 && And(s, Mask(check)) != 0 then (0, Inf) else (Shifted(s, pairs), Fin(0.0))
    }

    function ExtendToVertex(dir: Direction, s: bv32, v: nat): (bv32, Bound) {
      var marked := Or(s, Mask(Self(v)));
      (if Pos(v, v) >= 0 then Or(marked, Mask(Pos(v, v))) else marked, Fin(0.0))
    }

    function DominationCost(dir: Direction, v: nat, s: bv32, t: bv32): Bound { if Without(s, t) != 0 then Inf
                            else Fin(0.0) }

    function ConcatenationCost(v: nat, fw: bv32, bw: bv32): Bound { if And(fw, bw) != 0 then Inf else Fin(0.0) }

    /** compress_state */
    function Compressed(v: nat, s: bv32): bv32 { Without(s, Mask(Self(v))) }

    function NoCutBits(s: bv32): bv64 { 0 }

    function AsResource(): Resource<bv32> {
      Resource(1, InitState, ExtendAlongArc, ExtendToVertex, DominationCost, ConcatenationCost, 0.0,
               true, Compressed, false, NoCutBits, 0.0)
    }
  }

  /** The bits s has at the first positions of the pairs, moved to the second ones. */
  function Shifted(s: bv32, pairs: seq<(nat, nat)>): bv32 {
    if pairs == [] then 0 else
    var r := Shifted(s, pairs[..|pairs| - 1]);
    var (p, q) := pairs[|pairs| - 1];
    if And(s, Mask(p)) != 0 then Or(r, Mask(q)) else r
  }

  /** The loop of extend_along_arc. */
  method ShiftPairs(s: bv32, pairs: seq<(nat, nat)>) returns (r: bv32)
    ensures r == Shifted(s, pairs)
  {
    r := 0;
    for i := 0 to |pairs|
      invariant r == Shifted(s, pairs[..i])
    {
      assert pairs[..i + 1][..i] == pairs[..i];
      var (p, q) := pairs[i];
      if And(s, Mask(p)) != 0 { r := Or(r, Mask(q)); }
    }
    assert pairs[..|pairs|] == pairs;
  }

  // ----- The constructor -----

  ghost predicate Tables(ng: Ng) {
    && |ng.positions| == |ng.selfBits| == ng.n <= |ng.neighbors|
    && (forall v: nat :: v < ng.n ==>
        ng.positions[v] == Assign(ng.neighbors[v], ng.n).0 && ng.selfBits[v] == Assign(ng.neighbors[v], ng.n).1)
  }

  ghost predicate Built(ng: Ng) {
    Tables(ng) && forall a: nat :: a < |ng.arcs| ==> ng.arcs[a] == ng.ArcFor(ng.top.from(a), ng.top.to(a))
  }

  /** One row of the position table. */
  method AssignRow(list: seq<int>, n: nat) returns (row: seq<int>, pos: nat)
    ensures (row, pos) == Assign(list, n)
  {
    row, pos := seq(n, i => -1), 0;
    for i := 0 to |list|
      invariant (row, pos) == Assign(list[..i], n)
    {
      assert list[..i + 1][..i] == list[..i];
      var w := list[i];
      if 0 <= w < n && pos < 31 { row, pos := row[w := pos], pos + 1; }
    }
    assert list[..|list|] == list;
  }

  /** The scan that collects the pairs of one arc in one direction. */
  method CollectPairs(ng: Ng, u: nat, v: nat) returns (pairs: seq<(nat, nat)>)
    ensures pairs == ng.PairsFor(u, v)
  {
    pairs := [];
    var list := ng.ListOf(u);
    for i := 0 to |list|
      invariant pairs == ng.ScanPairs(list[..i], u, v)
    {
      assert list[..i + 1][..i] == list[..i];
      var w := list[i];
      if w < 0 || w >= ng.n { continue; }
      var p, q := ng.Pos(u, w), ng.Pos(v, w);
      if p >= 0 && q >= 0 && |pairs| < 32 { pairs := pairs + [(p, q)]; }
    }
    assert list[..|list|] == list;
    var back := ng.Pos(v, u);
    if back >= 0 && |pairs| < 32 { pairs := pairs + [(ng.Self(u), back)]; }
  }

  /** Empty lists for the vertices that have none. */
  function Missing(n: nat, lists: seq<seq<int>>): seq<seq<int>> {
    if |lists| < n then seq(n - |lists|, i => []) else []
  }

  /** The constructor; missing neighbour lists count as empty, and lists beyond the last vertex are not looked at. */
  method Construct(n: nat, nArcs: nat, top: Topology, lists: seq<seq<int>>) returns (ng: Ng)
    ensures Built(ng) && ng.n == n && ng.top == top && |ng.arcs| == nArcs
    ensures ng.neighbors == lists + Missing(n, lists)
    ensures forall v: nat :: v < n ==> ng.neighbors[v] == if v < |lists| then lists[v] else []
  {
    var neighbors := lists + Missing(n, lists);
    var positions, selfBits := [], [];
    for v := 0 to n
      invariant |positions| == |selfBits| == v
      invariant forall u: nat ::
                u < v ==> positions[u] == Assign(neighbors[u], n).0 && selfBits[u] == Assign(neighbors[u], n).1
    {
      var row, pos := AssignRow(neighbors[v], n);
      positions, selfBits := positions + [row], selfBits + [pos];
    }
    var base := Ng(n, neighbors, positions, selfBits, [], top);
    var arcs := [];
    for a := 0 to nArcs
      invariant |arcs| == a
      invariant forall e: nat :: e < a ==> arcs[e] == base.ArcFor(top.from(e), top.to(e))
    {
      var u, v := top.from(a), top.to(a);
      var fw := CollectPairs(base, u, v);
      var bw := CollectPairs(base, v, u);
      arcs := arcs + [ArcInfo(base.Pos(u, v), fw, base.Pos(v, u), bw)];
    }
    ng := Ng(n, neighbors, positions, selfBits, arcs, top);
    forall a: nat | a < |ng.arcs|
      ensures ng.arcs[a] == ng.ArcFor(top.from(a), top.to(a))
    {
      SameTables(base, ng, top.from(a), top.to(a));
    }
  }

  lemma SameTables(base: Ng, ng: Ng, u: nat, v: nat)
    requires ng == base.(arcs := ng.arcs)
    ensures ng.ArcFor(u, v) == base.ArcFor(u, v)
  {
    SamePairs(base, ng, base.ListOf(u), u, v);
    SamePairs(base, ng, base.ListOf(v), v, u);
  }

  lemma {:induction false} SamePairs(base: Ng, ng: Ng, list: seq<int>, u: nat, v: nat)
    requires ng == base.(arcs := ng.arcs)
    ensures ng.ScanPairs(list, u, v) == base.ScanPairs(list, u, v)
  {
    if list != [] { SamePairs(base, ng, list[..|list| - 1], u, v); }
  }

  // ----- What the tables mean -----

  ghost predicate AllClean(ng: Ng) {
    forall v: nat :: v < ng.n && v < |ng.neighbors| ==> Clean(ng.neighbors[v], ng.n)
  }

  /** w is one of the neighbours v keeps track of. */
  predicate In(ng: Ng, v: nat, w: nat) { ng.Pos(v, w) >= 0 }

  lemma Positions(ng: Ng, v: nat)
    requires Tables(ng)
    ensures ng.Self(v) <= 31
    ensures forall w: nat ::
            -1 <= ng.Pos(v, w) <= 30 && (In(ng, v, w) ==>
              ng.Pos(v, w) < ng.Self(v) && v < ng.n && w < ng.n && w in ng.ListOf(v))
    ensures forall w: nat, x: nat :: In(ng, v, w) && ng.Pos(v, w) == ng.Pos(v, x) ==> w == x
  {
    if v < ng.n { AssignFacts(ng.neighbors[v], ng.n); }
  }

  /** The pairs mean: w is a neighbour of both. */
  ghost predicate Common(ng: Ng, u: nat, v: nat, pair: (nat, nat)) {
    exists w: nat :: In(ng, u, w) && In(ng, v, w) && pair == (ng.Pos(u, w), ng.Pos(v, w))
  }

  lemma {:induction false} AssignLate(list: seq<int>, n: nat, w: nat, k: nat)
    requires w < n && k <= |list| && Clean(list, n) && w !in list[..k] && Assign(list, n).0[w] >= 0
    ensures Assign(list[..k], n).1 <= Assign(list, n).0[w]
    decreases |list|
  {
    var m := |list| - 1;
    if k == |list| {
      assert list[..k] == list;
      AssignFacts(list, n);
    } else {
      var rest := list[..m];
      assert list[..k] == rest[..k];
      if Assign(rest, n).0[w] >= 0 {
        AssignFacts(rest, n);
        var h :| 0 <= h < m && rest[h] == w;
        assert list[m] != w;
        AssignLate(rest, n, w, k);
      } else {
        AssignGrows(rest, n, k);
      }
    }
  }

  lemma {:induction false} AssignGrows(list: seq<int>, n: nat, k: nat)
    requires k <= |list|
    ensures Assign(list[..k], n).1 <= Assign(list, n).1
    decreases |list|
  {
    if k < |list| {
      var rest := list[..|list| - 1];
      assert list[..k] == rest[..k];
      AssignGrows(rest, n, k);
    } else {
      assert list[..k] == list;
    }
  }

  /** Entry w of a list is tracked by both u and v. */
  predicate Both(ng: Ng, u: nat, v: nat, w: int) { 0 <= w < ng.n && ng.Pos(u, w) >= 0 && ng.Pos(v, w) >= 0 }

  /** How many entries of the list both u and v track, repeats counted. */
  function Shared(ng: Ng, list: seq<int>, u: nat, v: nat): nat {
    if list == [] then 0 else Shared(ng, list[..|list| - 1], u, v) + if Both(ng, u, v, list[|list| - 1]) then 1 else 0
  }

  lemma {:induction false} ScanLength(ng: Ng, list: seq<int>, u: nat, v: nat)
    ensures |ng.ScanPairs(list, u, v)| == if Shared(ng, list, u, v) < 32 then Shared(ng, list, u, v) else 32
  {
    if list != [] { ScanLength(ng, list[..|list| - 1], u, v); }
  }

  /** Entry k of u's list is tracked by both, comes before the limit of 32 pairs, and gives the pair x. */
  ghost predicate Taken(ng: Ng, u: nat, v: nat, k: nat, x: (nat, nat)) {
    && k < |ng.ListOf(u)| && Both(ng, u, v, ng.ListOf(u)[k]) && Shared(ng, ng.ListOf(u)[..k], u, v) < 32
    && x == (ng.Pos(u, ng.ListOf(u)[k]), ng.Pos(v, ng.ListOf(u)[k]))
  }

  lemma {:induction false} ScanMeaning(ng: Ng, u: nat, v: nat, k: nat)
    requires k <= |ng.ListOf(u)|
    ensures forall x :: x in ng.ScanPairs(ng.ListOf(u)[..k], u, v) <==> exists h: nat :: h < k && Taken(ng, u, v, h, x)
    decreases k
  {
    if k > 0 {
      var list := ng.ListOf(u);
      ScanMeaning(ng, u, v, k - 1);
      ScanLength(ng, list[..k - 1], u, v);
      assert list[..k][..k - 1] == list[..k - 1];
      forall x ensures x in ng.ScanPairs(list[..k], u, v) <==> exists h: nat :: h < k && Taken(ng, u, v, h, x) {
        assert Taken(ng, u, v, k - 1, x) <==> x in ng.ScanPairs(list[..k], u, v)[|ng.ScanPairs(list[..k - 1], u, v)|..];
      }
    }
  }

  /** Entry k of u's list is w, and comes before the limit. */
  ghost predicate Early(ng: Ng, u: nat, v: nat, w: nat, k: nat) {
    k < |ng.ListOf(u)| && ng.ListOf(u)[k] == w && Shared(ng, ng.ListOf(u)[..k], u, v) < 32
  }

  /** The limit cuts off nothing on a move from u to v: no common neighbour, and not u itself. */
  ghost predicate Fits(ng: Ng, u: nat, v: nat) {
    && (forall w: nat :: In(ng, u, w) && In(ng, v, w) ==> exists k: nat :: Early(ng, u, v, w, k))
    && (In(ng, v, u) ==> Shared(ng, ng.ListOf(u), u, v) < 32)
  }

  lemma TakenIsCommon(ng: Ng, u: nat, v: nat, k: nat, x: (nat, nat))
    requires Taken(ng, u, v, k, x)
    ensures Common(ng, u, v, x)
  {
    var w: nat := ng.ListOf(u)[k];
    assert In(ng, u, w) && In(ng, v, w);
  }

  /** The pairs are never more than they should be, and u itself is there if there is room. */
  lemma PairsWithin(ng: Ng, u: nat, v: nat)
    requires Tables(ng)
    ensures forall x ::
            x in ng.PairsFor(u, v) ==> Common(ng, u, v, x) || (In(ng, v, u) && x == (ng.Self(u), ng.Pos(v, u)))
    ensures forall x :: x in ng.PairsFor(u, v) && x.0 != ng.Self(u) ==> exists k: nat :: Taken(ng, u, v, k, x)
    ensures forall k: nat, x :: Taken(ng, u, v, k, x) ==> x in ng.PairsFor(u, v)
    ensures In(ng, v, u) ==>
              ((ng.Self(u), ng.Pos(v, u) as nat) in ng.PairsFor(u, v) <==> Shared(ng, ng.ListOf(u), u, v) < 32)
  {
    var list := ng.ListOf(u);
    assert list[..|list|] == list;
    ScanMeaning(ng, u, v, |list|);
    ScanLength(ng, list, u, v);
    Positions(ng, u);
    forall x | x in ng.ScanPairs(list, u, v) ensures Common(ng, u, v, x) && x.0 != ng.Self(u) {
      var k: nat :| k < |list| && Taken(ng, u, v, k, x);
      TakenIsCommon(ng, u, v, k, x);
    }
  }

  lemma PairsMeaning(ng: Ng, u: nat, v: nat)
    requires Tables(ng) && Fits(ng, u, v)
    ensures forall x ::
            x in ng.PairsFor(u, v) <==> Common(ng, u, v, x) || (In(ng, v, u) && x == (ng.Self(u), ng.Pos(v, u)))
  {
    hide Shared;
    PairsWithin(ng, u, v);
    forall x | Common(ng, u, v, x) ensures x in ng.PairsFor(u, v) {
      var w: nat :| In(ng, u, w) && In(ng, v, w) && x == (ng.Pos(u, w), ng.Pos(v, w));
      var k: nat :| Early(ng, u, v, w, k);
      Positions(ng, u);
      assert Taken(ng, u, v, k, x);
    }
  }

  // ----- Lists without repeated entries always fit -----

  /** No more shared entries than positions given out. */
  lemma {:induction false} FewShared(ng: Ng, u: nat, v: nat, k: nat)
    requires Tables(ng) && AllClean(ng) && u < ng.n && k <= |ng.ListOf(u)|
    ensures Shared(ng, ng.ListOf(u)[..k], u, v) <= Assign(ng.ListOf(u)[..k], ng.n).1
    decreases k
  {
    if k > 0 {
      var list := ng.ListOf(u);
      FewShared(ng, u, v, k - 1);
      assert list[..k][..k - 1] == list[..k - 1];
      var w := list[k - 1];
      if 0 <= w < ng.n && ng.Pos(u, w) >= 0 {
        assert w !in list[..k - 1];
        AssignLate(list, ng.n, w, k - 1);
        AssignFacts(list, ng.n);
      }
    }
  }

  lemma CleanFits(ng: Ng, u: nat, v: nat)
    requires Tables(ng) && AllClean(ng)
    ensures Fits(ng, u, v)
  {
    hide Shared, Assign;
    var list := ng.ListOf(u);
    Positions(ng, u);
    Positions(ng, v);
    forall w: nat | In(ng, u, w) && In(ng, v, w) ensures exists k: nat :: Early(ng, u, v, w, k) {
      var k: nat :| k < |list| && list[k] == w;
      FewShared(ng, u, v, k);
      AssignFacts(list[..k], ng.n);
      assert Early(ng, u, v, w, k);
    }
    if In(ng, v, u) {
      assert list[..|list|] == list;
      FewShared(ng, u, v, |list|);
      AssignFacts(list, ng.n);
    }
  }

  /** Every move along an arc, in either direction, fits. */
  ghost predicate Roomy(ng: Ng) {
    forall a: nat :: Fits(ng, ng.top.from(a), ng.top.to(a)) && Fits(ng, ng.top.to(a), ng.top.from(a))
  }

  lemma CleanRoomy(ng: Ng)
    requires Tables(ng) && AllClean(ng)
    ensures Roomy(ng)
  {
    forall a: nat ensures Fits(ng, ng.top.from(a), ng.top.to(a)) && Fits(ng, ng.top.to(a), ng.top.from(a)) {
      CleanFits(ng, ng.top.from(a), ng.top.to(a));
      CleanFits(ng, ng.top.to(a), ng.top.from(a));
    }
  }

  // ----- What the operations mean -----

  /** State s at v remembers neighbour w. */
  predicate Holds(ng: Ng, v: nat, s: bv32, w: nat) { In(ng, v, w) && Bit(s, ng.Pos(v, w)) }

  /** States labels carry at v: the self bit, v itself if v is its own neighbour, and bits of neighbours only. */
  ghost predicate Proper(ng: Ng, v: nat, s: bv32) {
    && Bit(s, ng.Self(v)) && (In(ng, v, v) ==> Holds(ng, v, s, v))
    && (forall p: nat :: p < 32 && Bit(s, p) ==> p == ng.Self(v) || BitOf(ng, v, p))
  }

  ghost predicate BitOf(ng: Ng, v: nat, p: nat) {
    exists w: nat :: In(ng, v, w) && ng.Pos(v, w) == p
  }

  lemma {:induction false} ShiftedBits(s: bv32, pairs: seq<(nat, nat)>, q: nat)
    requires forall x :: x in pairs ==> x.1 < 32
    ensures Bit(Shifted(s, pairs), q) <==> exists x :: x in pairs && x.1 == q && Bit(s, x.0)
  {
    hide And, Or, Mask;
    if pairs == [] {
      NoBitsInZero(q);
    } else {
      var rest, x := pairs[..|pairs| - 1], pairs[|pairs| - 1];
      assert pairs == rest + [x];
      ShiftedBits(s, rest, q);
      BitOr(Shifted(s, rest), x.1, q);
      assert x in pairs;
      if exists y :: y in pairs && y.1 == q && Bit(s, y.0) {
        var y :| y in pairs && y.1 == q && Bit(s, y.0);
        assert y in rest || y == x;
      }
    }
  }

  lemma Along(ng: Ng, dir: Direction, s: bv32, a: nat)
    requires Built(ng)
    ensures var u, v := ng.top.Tail(dir, a), ng.top.Head(dir, a);
            ng.ExtendAlongArc(dir, s, a) == if Holds(ng, u, s, v) then (0, Inf)
            else (Shifted(s, ng.PairsFor(u, v)), Fin(0.0))
  {
    hide Mask;
  }

  /** r keeps exactly what s remembers at u and v tracks, and remembers u. */
  ghost predicate Passed(ng: Ng, u: nat, v: nat, s: bv32, r: bv32) {
    forall w: nat :: Holds(ng, v, r, w) <==> In(ng, v, w) && (Holds(ng, u, s, w) || (w == u && Bit(s, ng.Self(u))))
  }

  ghost predicate MovedRight(ng: Ng, u: nat, v: nat, s: bv32) { Passed(ng, u, v, s, Shifted(s, ng.PairsFor(u, v))) }

  lemma Moved(ng: Ng, u: nat, v: nat, s: bv32)
    requires Tables(ng) && Fits(ng, u, v)
    ensures MovedRight(ng, u, v, s)
  {
    hide Mask, And, Bit, Shared, Fits;
    PairsMeaning(ng, u, v);
    var pairs := ng.PairsFor(u, v);
    var r := Shifted(s, pairs);
    MovedWithin(ng, u, v, s, r);
    forall w: nat
      ensures Holds(ng, v, r, w) <==> In(ng, v, w) && (Holds(ng, u, s, w) || (w == u && Bit(s, ng.Self(u))))
    {
      if In(ng, v, w) {
        MovedBit(ng, u, v, s, w);
      }
    }
  }

  /** Only bits of v's neighbours are ever set, each by one of the pairs. */
  lemma MovedWithin(ng: Ng, u: nat, v: nat, s: bv32, r: bv32)
    requires Tables(ng) && r == Shifted(s, ng.PairsFor(u, v))
    ensures forall p: nat :: Bit(r, p) ==> BitOf(ng, v, p)
    ensures forall p: nat :: Bit(r, p) <==> exists x :: x in ng.PairsFor(u, v) && x.1 == p && Bit(s, x.0)
  {
    hide Mask, And, Bit, Shared;
    PairsWithin(ng, u, v);
    Positions(ng, v);
    var pairs := ng.PairsFor(u, v);
    forall p: nat
      ensures (Bit(r, p) ==> BitOf(ng, v, p)) && (Bit(r, p) <==> exists x :: x in pairs && x.1 == p && Bit(s, x.0))
    {
      ShiftedBits(s, pairs, p);
      if Bit(r, p) {
        var x :| x in pairs && x.1 == p && Bit(s, x.0);
        PairTarget(ng, u, v, x);
      }
    }
  }

  lemma PairTarget(ng: Ng, u: nat, v: nat, x: (nat, nat))
    requires Common(ng, u, v, x) || (In(ng, v, u) && x == (ng.Self(u), ng.Pos(v, u)))
    ensures BitOf(ng, v, x.1)
  {
    if Common(ng, u, v, x) {
      var w: nat :| In(ng, u, w) && In(ng, v, w) && x == (ng.Pos(u, w), ng.Pos(v, w));
    } else {
      assert In(ng, v, u) && ng.Pos(v, u) == x.1;
    }
  }

  lemma MovedBit(ng: Ng, u: nat, v: nat, s: bv32, w: nat)
    requires Tables(ng) && Fits(ng, u, v) && In(ng, v, w)
    ensures (exists x :: x in ng.PairsFor(u, v) && x.1 == ng.Pos(v, w) && Bit(s, x.0)) <==>
              Holds(ng, u, s, w) || (w == u && Bit(s, ng.Self(u)))
  {
    hide Mask, And, Bit;
    PairsMeaning(ng, u, v);
    Positions(ng, u);
    Positions(ng, v);
    var pairs := ng.PairsFor(u, v);
    if exists x :: x in pairs && x.1 == ng.Pos(v, w) && Bit(s, x.0) {
      var x :| x in pairs && x.1 == ng.Pos(v, w) && Bit(s, x.0);
      if Common(ng, u, v, x) {
        var y: nat :| In(ng, u, y) && In(ng, v, y) && x == (ng.Pos(u, y), ng.Pos(v, y));
        assert y == w;
      }
    }
    if Holds(ng, u, s, w) {
      var x := (ng.Pos(u, w) as nat, ng.Pos(v, w) as nat);
      assert Common(ng, u, v, x) && x in pairs;
    }
    if w == u && Bit(s, ng.Self(u)) { assert (ng.Self(u), ng.Pos(v, u)) in pairs; }
  }

  lemma MaskBit(p: nat, q: nat)
    requires p < 32
    ensures Bit(Mask(p), q) <==> p == q
  {
    BitOr(0, p, q);
    NoBitsInZero(q);
    OrZero(Mask(p));
    hide And, Or, Mask;
  }

  /** The state with the single bit p shows whether a pair starts at p. */
  lemma LonePair(ng: Ng, u: nat, v: nat, w: nat, p: nat)
    requires Tables(ng) && In(ng, v, w) && p < 32 && MovedRight(ng, u, v, Mask(p))
    requires Holds(ng, u, Mask(p), w) || (w == u && Bit(Mask(p), ng.Self(u)))
    ensures (p, ng.Pos(v, w) as nat) in ng.PairsFor(u, v)
  {
    hide Mask, And, Bit, Shared, Shifted;
    var r := Shifted(Mask(p), ng.PairsFor(u, v));
    assert Holds(ng, v, r, w);
    MovedWithin(ng, u, v, Mask(p), r);
    var q: nat := ng.Pos(v, w);
    assert Bit(r, q);
    var x :| x in ng.PairsFor(u, v) && x.1 == q && Bit(Mask(p), x.0);
    MaskBit(p, x.0);
  }

  /** Moves keep what they should, whatever the state, exactly if the limit of 32 pairs cuts off nothing. */
  lemma MovedIff(ng: Ng, u: nat, v: nat)
    requires Tables(ng)
    ensures (forall s: bv32 :: MovedRight(ng, u, v, s)) <==> Fits(ng, u, v)
  {
    hide Mask, And, Bit, Shared, MovedRight;
    if Fits(ng, u, v) {
      forall s: bv32 ensures MovedRight(ng, u, v, s) { Moved(ng, u, v, s); }
    }
    if forall s: bv32 :: MovedRight(ng, u, v, s) {
      PairsWithin(ng, u, v);
      Positions(ng, u);
      forall w: nat | In(ng, u, w) && In(ng, v, w) ensures exists k: nat :: Early(ng, u, v, w, k) {
        var p: nat := ng.Pos(u, w);
        MaskBit(p, p);
        assert MovedRight(ng, u, v, Mask(p));
        LonePair(ng, u, v, w, p);
        var k: nat :| Taken(ng, u, v, k, (p, ng.Pos(v, w) as nat));
        assert Early(ng, u, v, w, k);
      }
      if In(ng, v, u) {
        MaskBit(ng.Self(u), ng.Self(u));
        assert MovedRight(ng, u, v, Mask(ng.Self(u)));
        LonePair(ng, u, v, u, ng.Self(u));
      }
    }
  }

  /** Arriving sets the self bit, and v's own position if it has one. */
  lemma Arrived(ng: Ng, dir: Direction, s: bv32, v: nat)
    requires Tables(ng)
    ensures var r := ng.ExtendToVertex(dir, s, v).0;
            && (forall p: nat :: Bit(r, p) <==> Bit(s, p) || p == ng.Self(v) || (In(ng, v, v) && p == ng.Pos(v, v)))
            && (forall w: nat :: Holds(ng, v, r, w) <==> Holds(ng, v, s, w) || (w == v && In(ng, v, v)))
  {
    hide Mask, And, Or, Bit;
    Positions(ng, v);
    var r := ng.ExtendToVertex(dir, s, v).0;
    forall p: nat ensures Bit(r, p) <==> Bit(s, p) || p == ng.Self(v) || (In(ng, v, v) && p == ng.Pos(v, v)) {
      BitOr(s, ng.Self(v), p);
      if ng.Pos(v, v) >= 0 { BitOr(Or(s, Mask(ng.Self(v))), ng.Pos(v, v), p); }
    }
  }

  /** The state of a label after one step. */
  function NextState(ng: Ng, dir: Direction, s: bv32, a: nat): bv32 {
    ng.ExtendToVertex(dir, Shifted(s, ng.PairsFor(ng.top.Tail(dir, a), ng.top.Head(dir, a))), ng.top.Head(dir, a)).0
  }

  lemma StepIs(ng: Ng, dir: Direction, s: bv32, a: nat)
    requires Built(ng)
    ensures var r := Advance(ng.AsResource(), dir, s, a, ng.top.Head(dir, a));
            if Holds(ng, ng.top.Tail(dir, a), s, ng.top.Head(dir, a)) then r.1 == Inf
                else r == (NextState(ng, dir, s, a), Fin(0.0))
  {
    hide Mask, And, Bit, Shifted, Holds;
    var u, v := ng.top.Tail(dir, a), ng.top.Head(dir, a);
    AlongIs(ng, dir, s, a);
    Along(ng, dir, s, a);
    AtVertexIs(ng, dir, Shifted(s, ng.PairsFor(u, v)), v);
  }

  lemma NextHolds(ng: Ng, dir: Direction, s: bv32, a: nat)
    requires Built(ng) && Roomy(ng) && Bit(s, ng.Self(ng.top.Tail(dir, a)))
    ensures var u, v := ng.top.Tail(dir, a), ng.top.Head(dir, a);
            forall w: nat :: Holds(ng, v, NextState(ng, dir, s, a), w) <==>
              (In(ng, v, w) && (Holds(ng, u, s, w) || w == u)) || (w == v && In(ng, v, v))
  {
    hide Mask, And, Bit, Shifted, Holds, In;
    var u, v := ng.top.Tail(dir, a), ng.top.Head(dir, a);
    Moved(ng, u, v, s);
    Arrived(ng, dir, Shifted(s, ng.PairsFor(u, v)), v);
  }

  lemma NextProper(ng: Ng, dir: Direction, s: bv32, a: nat)
    requires Built(ng)
    ensures Proper(ng, ng.top.Head(dir, a), NextState(ng, dir, s, a))
  {
    hide Mask, And, Bit, Shifted;
    var u, v := ng.top.Tail(dir, a), ng.top.Head(dir, a);
    var m := Shifted(s, ng.PairsFor(u, v));
    MovedWithin(ng, u, v, s, m);
    Arrived(ng, dir, m, v);
    ArrivedProper(ng, dir, m, v);
  }

  lemma ArrivedProper(ng: Ng, dir: Direction, m: bv32, v: nat)
    requires Tables(ng) && forall p: nat :: Bit(m, p) ==> BitOf(ng, v, p)
    ensures Proper(ng, v, ng.ExtendToVertex(dir, m, v).0)
  {
    hide Mask, And, Or, Bit;
    Arrived(ng, dir, m, v);
    var r := ng.ExtendToVertex(dir, m, v).0;
    forall p: nat | p < 32 && Bit(r, p) ensures p == ng.Self(v) || BitOf(ng, v, p) {
      if In(ng, v, v) && p == ng.Pos(v, v) { assert BitOf(ng, v, p); }
    }
  }

  /** One step of a label. */
  lemma Stepped(ng: Ng, dir: Direction, s: bv32, a: nat)
    requires Built(ng) && Roomy(ng) && Bit(s, ng.Self(ng.top.Tail(dir, a)))
    ensures var u, v := ng.top.Tail(dir, a), ng.top.Head(dir, a);
            var r := Advance(ng.AsResource(), dir, s, a, v);
            && (r.1.Fin? <==> !Holds(ng, u, s, v)) && (r.1.Fin? ==> r.1 == Fin(0.0))
            && (r.1.Fin? ==> Proper(ng, v, r.0))
            && (r.1.Fin? ==> forall w: nat ::
            Holds(ng, v, r.0, w) <==> (In(ng, v, w) && (Holds(ng, u, s, w) || w == u)) || (w == v && In(ng, v, v)))
  {
    hide *;
    StepIs(ng, dir, s, a);
    NextHolds(ng, dir, s, a);
    NextProper(ng, dir, s, a);
  }

  lemma AlongIs(ng: Ng, dir: Direction, s: bv32, a: nat)
    ensures ng.AsResource().extendAlongArc(dir, s, a) == ng.ExtendAlongArc(dir, s, a)
  {
  }

  lemma AtVertexIs(ng: Ng, dir: Direction, s: bv32, v: nat)
    ensures ng.AsResource().extendToVertex(dir, s, v) == ng.ExtendToVertex(dir, s, v)
    ensures ng.ExtendToVertex(dir, s, v).1 == Fin(0.0)
  {
  }

  lemma Started(ng: Ng, dir: Direction, v: nat)
    requires Tables(ng)
    ensures var r := Initial(ng.AsResource(), dir, v);
            r.1 == Fin(0.0) && Proper(ng, v, r.0) && forall w: nat :: Holds(ng, v, r.0, w) <==> w == v && In(ng, v, v)
  {
    hide Mask, And, Bit;
    AtVertexIs(ng, dir, 0, v);
    Arrived(ng, dir, 0, v);
    forall p: nat ensures !Bit(0, p) { NoBitsInZero(p); }
  }

  /** Joining over an arc: its head is not remembered, and no vertex is remembered on both sides. */
  lemma JoinedNg(ng: Ng, s: bv32, a: nat, t: bv32)
    requires Built(ng) && Roomy(ng) && Bit(s, ng.Self(ng.top.from(a))) && Proper(ng, ng.top.to(a), t)
    ensures var u, v := ng.top.from(a), ng.top.to(a);
            var c := JoinCost(ng.AsResource(), s, a, v, t);
            && (c.Fin? ==> c == Fin(0.0))
            && (c.Fin? <==> !Holds(ng, u, s, v) && forall w: nat ::
            In(ng, v, w) && (Holds(ng, u, s, w) || w == u) ==> !Holds(ng, v, t, w))
  {
    hide *;
    JoinValue(ng, s, a, t);
    JoinBits(ng, s, a, t);
  }

  lemma JoinValue(ng: Ng, s: bv32, a: nat, t: bv32)
    requires Built(ng)
    ensures var u, v := ng.top.from(a), ng.top.to(a);
            JoinCost(ng.AsResource(), s, a, v, t) ==
            if Holds(ng, u, s, v) || And(Shifted(s, ng.PairsFor(u, v)), t) != 0 then Inf else Fin(0.0)
  {
    hide Mask, And, Bit, Shifted, Holds;
    var u, v := ng.top.from(a), ng.top.to(a);
    AlongIs(ng, Forward, s, a);
    Along(ng, Forward, s, a);
    ConcatIs(ng, v, Shifted(s, ng.PairsFor(u, v)), t);
  }

  lemma JoinBits(ng: Ng, s: bv32, a: nat, t: bv32)
    requires Built(ng) && Roomy(ng) && Bit(s, ng.Self(ng.top.from(a)))
    ensures var u, v := ng.top.from(a), ng.top.to(a);
            And(Shifted(s, ng.PairsFor(u, v)), t) == 0 <==>
            forall w: nat :: In(ng, v, w) && (Holds(ng, u, s, w) || w == u) ==> !Holds(ng, v, t, w)
  {
    hide Mask, And, Bit, Shifted, Fits, BitOf, Holds, In, MovedRight;
    var u, v := ng.top.from(a), ng.top.to(a);
    var m := Shifted(s, ng.PairsFor(u, v));
    Moved(ng, u, v, s);
    MovedWithin(ng, u, v, s, m);
    ApartIff(ng, v, m, t);
    PassedApart(ng, u, v, s, m, t);
  }

  lemma PassedApart(ng: Ng, u: nat, v: nat, s: bv32, m: bv32, t: bv32)
    requires MovedRight(ng, u, v, s) && m == Shifted(s, ng.PairsFor(u, v)) && Bit(s, ng.Self(u))
    ensures (forall w: nat :: Holds(ng, v, m, w) ==> !Holds(ng, v, t, w))
            <==> forall w: nat :: In(ng, v, w) && (Holds(ng, u, s, w) || w == u) ==> !Holds(ng, v, t, w)
  {
    hide Mask, And, Bit, Shifted, Holds;
    assert Passed(ng, u, v, s, m);
  }

  /** A state that only remembers neighbours has no bit in common with t exactly if no neighbour is in both. */
  lemma ApartIff(ng: Ng, v: nat, m: bv32, t: bv32)
    requires Tables(ng) && forall p: nat :: Bit(m, p) ==> BitOf(ng, v, p)
    ensures And(m, t) == 0 <==> forall w: nat :: Holds(ng, v, m, w) ==> !Holds(ng, v, t, w)
  {
    hide Mask, And, Bit;
    Positions(ng, v);
    DisjointIff(m, t);
    if And(m, t) == 0 {
      forall w: nat | Holds(ng, v, m, w) ensures !Holds(ng, v, t, w) { assert Bit(m, ng.Pos(v, w)); }
    }
    if forall w: nat :: Holds(ng, v, m, w) ==> !Holds(ng, v, t, w) {
      forall p: nat | p < 32 && Bit(m, p) ensures !Bit(t, p) {
        var w: nat :| In(ng, v, w) && ng.Pos(v, w) == p;
        assert Holds(ng, v, m, w);
      }
    }
  }

  lemma ConcatIs(ng: Ng, v: nat, s: bv32, t: bv32)
    ensures ng.AsResource().concatenationCost(v, s, t) == if And(s, t) != 0 then Inf else Fin(0.0)
  {
    hide And;
  }

  // ----- Which neighbours are tracked -----

  /** How many entries name a vertex. */
  function Named(list: seq<int>, n: nat): nat {
    if list == [] then 0 else Named(list[..|list| - 1], n) + if 0 <= list[|list| - 1] < n then 1 else 0
  }

  lemma {:induction false} CountNamed(list: seq<int>, n: nat)
    ensures Assign(list, n).1 == if Named(list, n) < 31 then Named(list, n) else 31
  {
    if list != [] { CountNamed(list[..|list| - 1], n); }
  }

  /** Entry k names w, and fewer than 31 entries before it name vertices. */
  ghost predicate EarlyEntry(list: seq<int>, n: nat, w: nat, k: nat) {
    k < |list| && list[k] == w && Named(list[..k], n) < 31
  }

  /** Without repeated entries, exactly the first 31 named vertices get a position. */
  lemma {:induction false} FirstTracked(list: seq<int>, n: nat, w: nat)
    requires Clean(list, n) && w < n
    ensures Assign(list, n).0[w] >= 0 <==> exists k: nat :: EarlyEntry(list, n, w, k)
  {
    if list != [] {
      var m := |list| - 1;
      var rest := list[..m];
      FirstTracked(rest, n, w);
      forall k: nat | k < m
        ensures EarlyEntry(list, n, w, k) <==> EarlyEntry(rest, n, w, k)
      {
        assert list[..k] == rest[..k];
      }
      if list[m] == w {
        AssignFacts(rest, n);
        CountNamed(rest, n);
        assert forall h: nat :: h < m ==> rest[h] == list[h] && list[h] != w;
        assert w !in rest;
        assert Assign(list, n).0[w] >= 0 <==> EarlyEntry(list, n, w, m);
      } else {
        assert Assign(list, n).0[w] == Assign(rest, n).0[w];
      }
    }
  }

  // ----- Why entries must not repeat -----

  function Copies(k: nat, w: int): seq<int> { seq(k, i => w) }

  lemma {:induction false} CopiesFill(ng: Ng, u: nat, v: nat, w: nat, k: nat)
    requires w < ng.n && ng.Pos(u, w) >= 0 && ng.Pos(v, w) >= 0
    ensures |ng.ScanPairs(Copies(k, w), u, v)| == if k < 32 then k else 32
    ensures forall x :: x in ng.ScanPairs(Copies(k, w), u, v) ==> x == (ng.Pos(u, w), ng.Pos(v, w))
  {
    if k > 0 {
      assert Copies(k, w)[..k - 1] == Copies(k - 1, w);
      CopiesFill(ng, u, v, w, k - 1);
    }
  }

  lemma {:induction false} CopiesAssigned(n: nat, w: nat, k: nat)
    requires w < n && k >= 1
    ensures Assign(Copies(k, w), n).0[w] >= 0 && Assign(Copies(k, w), n).1 >= 1
  {
    assert Copies(k, w)[..k - 1] == Copies(k - 1, w);
    if k > 1 { CopiesAssigned(n, w, k - 1); } else { assert Copies(0, w) == []; }
  }

  /**
   * A list that repeats an entry can use up all pairs, so that the vertex the label comes from is
   * forgotten: here vertex 1 tracks vertex 0, but after a move from 0 to 1 it does not remember it.
   */
  lemma RepeatsForget(ng: Ng, s: bv32)
    requires Tables(ng) && ng.n == 2 && ng.neighbors == [Copies(40, 1), [1, 0]]
    ensures In(ng, 1, 0) && !Holds(ng, 1, Shifted(s, ng.PairsFor(0, 1)), 0)
  {
    hide Mask, And, Bit;
    CopiesAssigned(2, 1, 40);
    assert [1, 0][..1] == [1] && [1][..0] == [];
    assert Assign([], 2) == (seq(2, i => -1), 0);
    assert Assign([1], 2).0[1] == 0 && Assign([1], 2).0[0] == -1 && Assign([1], 2).1 == 1;
    assert Assign([1, 0], 2).0[1] == 0 && Assign([1, 0], 2).0[0] == 1;
    CopiesFill(ng, 0, 1, 1, 40);
    var pairs := ng.PairsFor(0, 1);
    assert forall x :: x in pairs ==> x.1 == 0;
    ShiftedBits(s, pairs, 1);
  }
}
