/**
 * The problem data, labels without their bookkeeping, extension and dominance
 * (problem_view.h, label.h and the label part of bucket_graph.h).
 */
module Problems {
  import opened Types
  import opened Resources

  /**
   * A ProblemView with its resource pack. The arrays it points to are functions of the index.
   * An instance with one main resource has a second one that is zero everywhere.
   */
  datatype Problem<!S> = Problem(
    nVertices: nat,
    nArcs: nat,
    top: Topology,
    cost: nat -> real,
    baseCost: nat -> real,
    consumption: nat -> Vec,
    lb: nat -> Vec,
    ub: nat -> Vec,
    nondisposableX: bool,
    nondisposableY: bool,
    pack: Resource<S>)

  ghost predicate WellFormed<S>(P: Problem<S>) {
    && P.top.source < P.nVertices
    && P.top.sink < P.nVertices
    && (forall a: nat :: a < P.nArcs ==> P.top.from(a) < P.nVertices && P.top.to(a) < P.nVertices)
  }

  /** What a label says about the partial path it stands for. */
  datatype Node<S> = Node(vertex: nat, cost: real, realCost: real, q: Vec, states: S)

  // ----- Extension -----

  function Arrival<S>(P: Problem<S>, dir: Direction, base: Vec, a: nat): Vec {
    var v, d := P.top.Head(dir, a), P.consumption(a);
    if dir.Forward? then Vec(Max(base.x + d.x, P.lb(v).x), Max(base.y + d.y, P.lb(v).y))
    else Vec(Min(base.x - d.x, P.ub(v).x), Min(base.y - d.y, P.ub(v).y))
  }

  predicate InWindow<S>(P: Problem<S>, dir: Direction, v: nat, q: Vec) {
    if dir.Forward? then q.AtMost(P.ub(v)) else P.lb(v).AtMost(q)
  }

  /** extend_label: base is the label's own resource vector, or the boosted one on a jump arc. */
  function Extend<S>(P: Problem<S>, dir: Direction, n: Node<S>, a: nat, base: Vec): Option<Node<S>> {
    var v := P.top.Head(dir, a);
    var q := Arrival(P, dir, base, a);
    if !InWindow(P, dir, v, q) then None else
    var next := Advance(P.pack, dir, n.states, a, v);
    if next.1.Inf? then None
    else Some(Node(v, n.cost + P.cost(a) + next.1.val, n.realCost + P.baseCost(a), q, next.0))
  }

  /** One step of a walk. */
  function Step<S>(P: Problem<S>, dir: Direction, n: Node<S>, a: nat): Option<Node<S>> {
    if a < P.nArcs && P.top.Tail(dir, a) == n.vertex then Extend(P, dir, n, a, n.q) else None
  }

  /** create_initial_label. */
  function InitialNode<S>(P: Problem<S>, dir: Direction): Option<Node<S>> {
    var v := P.top.Start(dir);
    var start := Initial(P.pack, dir, v);
    if start.1.Inf? then None
    else Some(Node(v, start.1.val, 0.0, if dir.Forward? then P.lb(v) else P.ub(v), start.0))
  }

  /** Follow the arcs in the order a label of this direction takes them. */
  function Run<S>(P: Problem<S>, dir: Direction, n: Node<S>, arcs: seq<nat>): Option<Node<S>>
    decreases |arcs|
  {
    if arcs == [] then Some(n) else
    var m := Step(P, dir, n, arcs[0]);
    if m.None? then None else Run(P, dir, m.value, arcs[1..])
  }

  // ----- Dominance -----

  predicate QNoWorse<S>(P: Problem<S>, dir: Direction, q: Vec, r: Vec) {
    && (if P.nondisposableX then q.x == r.x else if dir.Forward? then q.x <= r.x else q.x >= r.x)
    && (if P.nondisposableY then q.y == r.y else if dir.Forward? then q.y <= r.y else q.y >= r.y)
  }

  predicate Dominates<S>(P: Problem<S>, dir: Direction, m: Node<S>, n: Node<S>) {
    && m.vertex == n.vertex
    && QNoWorse(P, dir, m.q, n.q)
    && !(m.cost > n.cost - P.pack.minDominationCost)
    && P.pack.dominationCost(dir, m.vertex, m.states, n.states).Add(m.cost).AtMost(Fin(n.cost))
  }

  // ----- Dominance is a transitive simulation -----

  lemma DominatesIff<S(!new)>(P: Problem<S>, dir: Direction, m: Node<S>, n: Node<S>)
    requires Disposable(P.pack, P.top)
    ensures Dominates(P, dir, m, n) <==>
              m.vertex == n.vertex && QNoWorse(P, dir, m.q, n.q) && m.cost <= n.cost
              && Dom(P.pack, dir, m.vertex, m.states, n.states)
  {
    assert CostFreeAt(P.pack, dir, m.states, n.states, m.vertex);
  }

  lemma DominatesOrder<S(!new)>(P: Problem<S>, dir: Direction, k: Node<S>, m: Node<S>, n: Node<S>)
    requires Disposable(P.pack, P.top)
    ensures Dominates(P, dir, n, n)
    ensures Dominates(P, dir, k, m) && Dominates(P, dir, m, n) ==> Dominates(P, dir, k, n)
  {
    DominatesIff(P, dir, n, n);
    DominatesIff(P, dir, k, m);
    DominatesIff(P, dir, m, n);
    DominatesIff(P, dir, k, n);
    assert DomOrderAt(P.pack, dir, k.vertex, k.states, m.states, n.states);
    assert DomOrderAt(P.pack, dir, n.vertex, n.states, n.states, n.states);
  }

  lemma ExtendCost<S(!new)>(P: Problem<S>, dir: Direction, n: Node<S>, a: nat, base: Vec)
    requires Disposable(P.pack, P.top)
    requires Extend(P, dir, n, a, base).Some?
    ensures Extend(P, dir, n, a, base).value.cost == n.cost + P.cost(a)
  {
    assert CostFreeAt(P.pack, dir, n.states, n.states, a);
    var along := P.pack.extendAlongArc(dir, n.states, a);
    assert CostFreeAt(P.pack, dir, along.0, along.0, P.top.Head(dir, a));
  }

  /** Extension keeps dominance, also when the two labels start from boosted resources. */
  lemma DominatesExtend<S(!new)>(P: Problem<S>, dir: Direction, m: Node<S>, p: Vec, n: Node<S>, q: Vec, a: nat)
    requires Disposable(P.pack, P.top)
    requires Dominates(P, dir, m, n) && QNoWorse(P, dir, p, q)
    requires P.top.Tail(dir, a) == n.vertex
    requires Extend(P, dir, n, a, q).Some?
    ensures Extend(P, dir, m, a, p).Some?
    ensures Dominates(P, dir, Extend(P, dir, m, a, p).value, Extend(P, dir, n, a, q).value)
  {
    DominatesIff(P, dir, m, n);
    assert SimulationAt(P.pack, P.top, dir, m.states, n.states, a);
    ExtendCost(P, dir, n, a, q);
    ExtendCost(P, dir, m, a, p);
    DominatesIff(P, dir, Extend(P, dir, m, a, p).value, Extend(P, dir, n, a, q).value);
  }

  /** Whatever a dominated label can still do, the dominating one can do at no greater cost. */
  lemma {:induction false} DominatesRun<S(!new)>(P: Problem<S>, dir: Direction, m: Node<S>, n: Node<S>, arcs: seq<nat>)
    requires Disposable(P.pack, P.top)
    requires Dominates(P, dir, m, n)
    requires Run(P, dir, n, arcs).Some?
    ensures Run(P, dir, m, arcs).Some?
    ensures Dominates(P, dir, Run(P, dir, m, arcs).value, Run(P, dir, n, arcs).value)
    decreases |arcs|
  {
    if arcs != [] {
      DominatesExtend(P, dir, m, m.q, n, n.q, arcs[0]);
      DominatesRun(P, dir, Step(P, dir, m, arcs[0]).value, Step(P, dir, n, arcs[0]).value, arcs[1..]);
    }
  }

  lemma {:induction false} RunAppend<S>(P: Problem<S>, dir: Direction, n: Node<S>, p: seq<nat>, s: seq<nat>)
    ensures Run(P, dir, n, p + s) ==
            (var m := Run(P, dir, n, p); if m.None? then None else Run(P, dir, m.value, s))
    decreases |p|
  {
    if p == [] {
      assert p + s == s;
    } else {
      assert (p + s)[0] == p[0] && (p + s)[1..] == p[1..] + s;
      var m := Step(P, dir, n, p[0]);
      if m.Some? {
        RunAppend(P, dir, m.value, p[1..], s);
      }
    }
  }

  /** The cost of a walk is the sum of its arc costs. */
  function WalkCost<S>(P: Problem<S>, arcs: seq<nat>): real {
    if arcs == [] then 0.0 else P.cost(arcs[0]) + WalkCost(P, arcs[1..])
  }

  lemma {:induction false} RunCost<S(!new)>(P: Problem<S>, dir: Direction, n: Node<S>, arcs: seq<nat>)
    requires Disposable(P.pack, P.top)
    requires Run(P, dir, n, arcs).Some?
    ensures Run(P, dir, n, arcs).value.cost == n.cost + WalkCost(P, arcs)
    decreases |arcs|
  {
    if arcs != [] {
      ExtendCost(P, dir, n, arcs[0], n.q);
      RunCost(P, dir, Step(P, dir, n, arcs[0]).value, arcs[1..]);
    }
  }
}
