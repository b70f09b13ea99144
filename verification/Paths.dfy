/** Rebuilding paths from parent chains (Label::get_path, Label::get_backward_subpath). */
module Paths {
  import opened Types
  import opened Resources
  import opened BucketArcs
  import opened BucketOrder
  import opened LabelStores
  import opened LabelingSpec
  import opened Exactness

  /** A returned path. */
  datatype Path = Path(vertices: seq<nat>, arcs: seq<nat>, reducedCost: real, originalCost: real)

  function Reversed<T>(s: seq<T>): (r: seq<T>)
    ensures |r| == |s|
  {
    if s == [] then [] else Reversed(s[1..]) + [s[0]]
  }

  lemma {:induction false} ReversedAppend<T>(s: seq<T>, t: seq<T>)
    ensures Reversed(s + t) == Reversed(t) + Reversed(s)
  {
    if s == [] {
      assert s + t == t;
    } else {
      assert (s + t)[0] == s[0] && (s + t)[1..] == s[1..] + t;
      ReversedAppend(s[1..], t);
    }
  }

  lemma {:induction false} ReversedTwice<T>(s: seq<T>)
    ensures Reversed(Reversed(s)) == s
  {
    if s != [] {
      ReversedAppend(Reversed(s[1..]), [s[0]]);
      ReversedTwice(s[1..]);
    }
  }

  /** The vertices along the parent chain of a label, oldest first. */
  function Places<S>(pool: seq<Label<S>>, i: nat): seq<nat>
    requires i < |pool|
    decreases i
  {
    if pool[i].parent < 0 || pool[i].parent >= i then [pool[i].node.vertex]
    else Places(pool, pool[i].parent) + [pool[i].node.vertex]
  }

  ghost predicate Chains<S>(pool: seq<Label<S>>) {
    forall i: nat :: i < |pool| ==> pool[i].parent < i
  }

  function RestPlaces<S>(pool: seq<Label<S>>, i: int): seq<nat>
    requires i < |pool|
  {
    if i < 0 then [] else Reversed(Places(pool, i))
  }

  function RestTrace<S>(pool: seq<Label<S>>, i: int): seq<nat> { if i < 0 then [] else Reversed(Trace(pool, i)) }

  lemma ChainStep<S>(pool: seq<Label<S>>, i: nat)
    requires i < |pool| && Chains(pool)
    ensures RestPlaces(pool, i) == [pool[i].node.vertex] + RestPlaces(pool, pool[i].parent)
    ensures RestTrace(pool, i) == if pool[i].parent < 0 then [] else [pool[i].arc] + RestTrace(pool, pool[i].parent)
  {
    var L := pool[i];
    if L.parent >= 0 {
      ReversedAppend(Places(pool, L.parent), [L.node.vertex]);
      ReversedAppend(Trace(pool, L.parent), [L.arc]);
    }
  }

  lemma MoveOne<T>(whole: seq<T>, done: seq<T>, x: T, rest: seq<T>, more: seq<T>)
    requires whole == done + rest && rest == [x] + more
    ensures whole == (done + [x]) + more
  {
  }

  /** The loop both functions share: newest first. */
  method WalkBack<S>(pool: seq<Label<S>>, i: nat) returns (vertices: seq<nat>, arcs: seq<nat>)
    requires i < |pool| && Chains(pool)
    ensures vertices == Reversed(Places(pool, i)) && arcs == Reversed(Trace(pool, i))
  {
    hide RestPlaces, RestTrace, Reversed, Places, Trace;
    vertices, arcs := [], [];
    var cur: int := i;
    RestFacts(pool, i);
    while cur >= 0
      invariant cur <= i
      invariant RestPlaces(pool, i) == vertices + RestPlaces(pool, cur)
      invariant RestTrace(pool, i) == arcs + RestTrace(pool, cur)
    {
      var L := pool[cur];
      ChainStep(pool, cur);
      MoveOne(RestPlaces(pool, i), vertices, L.node.vertex, RestPlaces(pool, cur), RestPlaces(pool, L.parent));
      if L.parent >= 0 {
        MoveOne(RestTrace(pool, i), arcs, L.arc, RestTrace(pool, cur), RestTrace(pool, L.parent));
        arcs := arcs + [L.arc];
      } else {
        RestFacts(pool, L.parent);
      }
      vertices := vertices + [L.node.vertex];
      cur := L.parent;
    }
    RestFacts(pool, cur);
  }

  lemma RestFacts<S>(pool: seq<Label<S>>, i: int)
    requires i < |pool|
    ensures if i < 0 then RestPlaces(pool, i) == [] && RestTrace(pool, i) == []
            else RestPlaces(pool, i) == Reversed(Places(pool, i)) && RestTrace(pool, i) == Reversed(Trace(pool, i))
  {
  }

  /** get_path. */
  method GetPath<S>(pool: seq<Label<S>>, i: nat) returns (vertices: seq<nat>, arcs: seq<nat>)
    requires i < |pool| && Chains(pool)
    ensures vertices == Places(pool, i) && arcs == Trace(pool, i)
  {
    vertices, arcs := WalkBack(pool, i);
    vertices, arcs := Reversed(vertices), Reversed(arcs);
    ReversedTwice(Places(pool, i));
    ReversedTwice(Trace(pool, i));
  }

  /** get_backward_subpath: a backward chain already leads towards the sink. */
  method GetBackwardSubpath<S>(pool: seq<Label<S>>, i: nat) returns (vertices: seq<nat>, arcs: seq<nat>)
    requires i < |pool| && Chains(pool)
    ensures vertices == Reversed(Places(pool, i)) && arcs == Reversed(Trace(pool, i))
  {
    vertices, arcs := WalkBack(pool, i);
  }

  /** The arcs connect the vertices one after the other, in the sense of a label of direction dir. */
  ghost predicate Connects(top: Topology, dir: Direction, vertices: seq<nat>, arcs: seq<nat>) {
    && |vertices| == |arcs| + 1
    && (forall i: nat :: i < |arcs| ==> top.Tail(dir, arcs[i]) == vertices[i])
    && (forall i: nat :: i < |arcs| ==> top.Head(dir, arcs[i]) == vertices[i + 1])
  }

  lemma ConnectsMore(top: Topology, dir: Direction, vertices: seq<nat>, arcs: seq<nat>, a: nat)
    requires Connects(top, dir, vertices, arcs) && top.Tail(dir, a) == vertices[|arcs|]
    ensures Connects(top, dir, vertices + [top.Head(dir, a)], arcs + [a])
    ensures (vertices + [top.Head(dir, a)])[0] == vertices[0]
            && (vertices + [top.Head(dir, a)])[|arcs + [a]|] == top.Head(dir, a)
  {
  }

  /** The parent chain of a label is a connected walk from the start vertex. */
  lemma {:induction false} ChainConnectsIn<S>(C: Setup<S>, pool: seq<Label<S>>, i: nat)
    requires Layout(C) && PoolOk(C, pool) && i < |pool|
    ensures Connects(C.P.top, C.dir, Places(pool, i), Trace(pool, i))
    ensures Places(pool, i)[0] == C.P.top.Start(C.dir) && Places(pool, i)[|Trace(pool, i)|] == pool[i].node.vertex
    decreases i
  {
    hide TopoOrder, Grouped, Connects, FullArcs;
    assert LabelOk(C, pool, i);
    var L := pool[i];
    if L.parent >= 0 {
      ChainConnectsIn(C, pool, L.parent);
      var base :| ExtendsFrom(C, pool[L.parent].bucket, pool[L.parent].node, L.arc, base, L.node);
      ConnectsMore(C.P.top, C.dir, Places(pool, L.parent), Trace(pool, L.parent), L.arc);
    } else {
      assert Connects(C.P.top, C.dir, [L.node.vertex], []) by { SingleVertex(C.P.top, C.dir, L.node.vertex); }
    }
  }

  lemma ChainConnects<S(!new)>(C: Setup<S>, s: Store<S>, i: nat)
    requires SetupOk(C) && StoreOk(C, s) && i < |s.pool|
    ensures Connects(C.P.top, C.dir, Places(s.pool, i), Trace(s.pool, i))
    ensures Places(s.pool, i)[0] == C.P.top.Start(C.dir)
            && Places(s.pool, i)[|Trace(s.pool, i)|] == s.pool[i].node.vertex
  {
    hide LabelOk, Layout, Connects;
    ChainConnectsIn(C, s.pool, i);
  }

  lemma SingleVertex(top: Topology, dir: Direction, v: nat)
    ensures Connects(top, dir, [v], [])
  {
  }

  lemma StoreChains<S(!new)>(C: Setup<S>, s: Store<S>)
    requires SetupOk(C) && StoreOk(C, s)
    ensures Chains(s.pool)
  {
    forall i: nat | i < |s.pool| ensures s.pool[i].parent < i { assert LabelOk(C, s.pool, i); }
  }

  lemma {:induction false} ReversedAt<T>(s: seq<T>, i: nat)
    requires i < |s|
    ensures Reversed(s)[i] == s[|s| - 1 - i]
  {
    var rest := Reversed(s[1..]);
    assert Reversed(s) == rest + [s[0]];
    if i < |s| - 1 { ReversedAt(s[1..], i); }
  }

  /** Reversing a backward walk gives a forward walk. */
  lemma ReversedConnects(top: Topology, vertices: seq<nat>, arcs: seq<nat>)
    requires Connects(top, Backward, vertices, arcs)
    ensures Connects(top, Forward, Reversed(vertices), Reversed(arcs))
  {
    hide Reversed;
    var u, b := Reversed(vertices), Reversed(arcs);
    forall i: nat | i < |b| ensures top.Tail(Forward, b[i]) == u[i] && top.Head(Forward, b[i]) == u[i + 1] {
      ReversedAt(arcs, i);
      ReversedAt(vertices, i);
      ReversedAt(vertices, i + 1);
    }
  }
}
