/** Splitting a path: a forward part, an arc and a backward part join exactly when the whole path is feasible. */
module Joins {
  import opened Types
  import opened Resources
  import opened Problems
  import opened Exactness
  import opened Paths

  /** Forward node u and backward node w may be joined over arc a. */
  ghost predicate JoinPair<S>(P: Problem<S>, u: Node<S>, a: nat, w: Node<S>) {
    && a < P.nArcs && u.vertex == P.top.from(a) && w.vertex == P.top.to(a)
    && Arrival(P, Forward, u.q, a).AtMost(w.q)
    && JoinCost(P.pack, u.states, a, P.top.to(a), w.states).Fin?
  }

  /** The backward node that the forward arcs t lead to the sink from. */
  function Suffix<S>(P: Problem<S>, t: seq<nat>): Option<Node<S>> {
    var start := InitialNode(P, Backward);
    if start.None? then None else Run(P, Backward, start.value, Reversed(t))
  }

  lemma SuffixStep<S>(P: Problem<S>, b: nat, t: seq<nat>)
    ensures Suffix(P, [b] + t) ==
            (var w := Suffix(P, t); if w.None? then None else Step(P, Backward, w.value, b))
  {
    var start := InitialNode(P, Backward);
    assert ([b] + t)[1..] == t;
    if start.Some? {
      RunAppend(P, Backward, start.value, Reversed(t), [b]);
      var w := Run(P, Backward, start.value, Reversed(t));
      if w.Some? {
        var x := Step(P, Backward, w.value, b);
        assert Run(P, Backward, w.value, [b]) == x by { assert [b][1..] == []; }
      }
    }
  }

  /** Facts about the states labels can carry. */
  ghost predicate Carries<S>(P: Problem<S>, inv: Invariant<S>, dir: Direction, n: Node<S>) {
    inv(dir, n.vertex, n.states)
  }

  lemma CarriesStep<S(!new)>(P: Problem<S>, inv: Invariant<S>, dir: Direction, n: Node<S>, a: nat)
    requires Invariants(P.pack, P.top, inv) && Carries(P, inv, dir, n) && Step(P, dir, n, a).Some?
    ensures Carries(P, inv, dir, Step(P, dir, n, a).value)
  {
    assert InvariantAt(P.pack, P.top, inv, dir, n.states, a);
  }

  lemma CarriesInitial<S(!new)>(P: Problem<S>, inv: Invariant<S>, dir: Direction)
    requires Invariants(P.pack, P.top, inv) && InitialNode(P, dir).Some?
    ensures Carries(P, inv, dir, InitialNode(P, dir).value)
  {
    assert InvariantAt(P.pack, P.top, inv, dir, P.pack.initState(dir), 0);
  }

  lemma {:induction false} CarriesRun<S(!new)>(P: Problem<S>, inv: Invariant<S>, dir: Direction, n: Node<S>,
                                               arcs: seq<nat>)
    requires Invariants(P.pack, P.top, inv) && Carries(P, inv, dir, n) && Run(P, dir, n, arcs).Some?
    ensures Carries(P, inv, dir, Run(P, dir, n, arcs).value)
    decreases |arcs|
  {
    if arcs != [] {
      CarriesStep(P, inv, dir, n, arcs[0]);
      CarriesRun(P, inv, dir, Step(P, dir, n, arcs[0]).value, arcs[1..]);
    }
  }

  lemma SuffixFacts<S(!new)>(P: Problem<S>, inv: Invariant<S>, t: seq<nat>)
    requires Invariants(P.pack, P.top, inv) && Suffix(P, t).Some?
    requires P.lb(P.top.sink).AtMost(P.ub(P.top.sink))
    ensures Carries(P, inv, Backward, Suffix(P, t).value)
    ensures P.lb(Suffix(P, t).value.vertex).AtMost(Suffix(P, t).value.q)
  {
    var start := InitialNode(P, Backward).value;
    CarriesInitial(P, inv, Backward);
    CarriesRun(P, inv, Backward, start, Reversed(t));
    RunInside(P, Backward, start, Reversed(t));
  }

  lemma {:induction false} RunInside<S>(P: Problem<S>, dir: Direction, n: Node<S>, arcs: seq<nat>)
    requires InWindow(P, dir, n.vertex, n.q) && Run(P, dir, n, arcs).Some?
    ensures InWindow(P, dir, Run(P, dir, n, arcs).value.vertex, Run(P, dir, n, arcs).value.q)
    decreases |arcs|
  {
    if arcs != [] { RunInside(P, dir, Step(P, dir, n, arcs[0]).value, arcs[1..]); }
  }

  /** The law packs and windows obey together: moving the split point over one vertex changes nothing. */
  lemma ShiftSplit<S(!new)>(P: Problem<S>, inv: Invariant<S>, u: Node<S>, a: nat, b: nat, w: Node<S>)
    requires Shifts(P.pack, P.top, inv) && Carries(P, inv, Forward, u) && Carries(P, inv, Backward, w)
    requires P.lb(w.vertex).AtMost(w.q)
    ensures (Step(P, Backward, w, b).Some? && JoinPair(P, u, a, Step(P, Backward, w, b).value) && b < P.nArcs)
            <==> (Step(P, Forward, u, a).Some? && JoinPair(P, Step(P, Forward, u, a).value, b, w))
  {
    if a < P.nArcs && b < P.nArcs && u.vertex == P.top.from(a) && w.vertex == P.top.to(b)
         && P.top.to(a) == P.top.from(b) {
      assert ShiftAt(P.pack, P.top, inv, u.states, a, b, w.states);
      ShiftWindows(P, u.q, a, b, w.q);
    }
  }

  lemma ShiftWindows<S>(P: Problem<S>, p: Vec, a: nat, b: nat, q: Vec)
    requires P.top.to(a) == P.top.from(b) && P.lb(P.top.to(b)).AtMost(q)
    ensures var j := P.top.to(a);
            (InWindow(P, Backward, j, Arrival(P, Backward, q, b))
            && Arrival(P, Forward, p, a).AtMost(Arrival(P, Backward, q, b)))
            <==> (InWindow(P, Forward, j, Arrival(P, Forward, p, a))
            && Arrival(P, Forward, Arrival(P, Forward, p, a), b).AtMost(q))
  {
  }

  /** Joining with the empty suffix is stepping into the sink. */
  lemma SinkSplit<S(!new)>(P: Problem<S>, inv: Invariant<S>, u: Node<S>, a: nat)
    requires SinkJoins(P.pack, P.top, inv) && Carries(P, inv, Forward, u)
    ensures (Suffix(P, []).Some? && JoinPair(P, u, a, Suffix(P, []).value))
            <==> (Step(P, Forward, u, a).Some? && Step(P, Forward, u, a).value.vertex == P.top.sink)
  {
    if a < P.nArcs && u.vertex == P.top.from(a) && P.top.to(a) == P.top.sink {
      assert SinkJoinAt(P.pack, P.top, inv, u.states, a);
    }
  }

  ghost predicate ReachesSink<S>(P: Problem<S>, n: Node<S>, arcs: seq<nat>) {
    Run(P, Forward, n, arcs).Some? && Run(P, Forward, n, arcs).value.vertex == P.top.sink
  }

  /** u joins over a with the suffix t exactly when a followed by t leads from u to the sink. */
  lemma {:induction false} JoinIffFeasible<S(!new)>(P: Problem<S>, inv: Invariant<S>, u: Node<S>, a: nat, t: seq<nat>)
    requires Joinable(P.pack, P.top, inv) && Carries(P, inv, Forward, u)
    requires P.lb(P.top.sink).AtMost(P.ub(P.top.sink))
    ensures (Suffix(P, t).Some? && JoinPair(P, u, a, Suffix(P, t).value)) <==> ReachesSink(P, u, [a] + t)
    decreases |t|
  {
    hide JoinPair, Step, JoinMonotone, Shifts, Invariants, SinkJoins, Carries;
    var m := Step(P, Forward, u, a);
    assert ([a] + t)[0] == a && ([a] + t)[1..] == t;
    if t == [] {
      SinkSplit(P, inv, u, a);
      if m.Some? { assert Run(P, Forward, m.value, t) == m; }
    } else {
      var b, rest := t[0], t[1..];
      assert t == [b] + rest;
      SuffixStep(P, b, rest);
      var w := Suffix(P, rest);
      if m.Some? {
        CarriesStep(P, inv, Forward, u, a);
        JoinIffFeasible(P, inv, m.value, b, rest);
      }
      if w.Some? {
        SuffixFacts(P, inv, rest);
        ShiftSplit(P, inv, u, a, b, w.value);
        JoinArc(P, m, b, w.value);
      }
      StepArc(P, w, b);
    }
  }

  lemma JoinArc<S>(P: Problem<S>, m: Option<Node<S>>, b: nat, w: Node<S>)
    ensures m.Some? && JoinPair(P, m.value, b, w) ==> b < P.nArcs
  {
  }

  lemma StepArc<S>(P: Problem<S>, w: Option<Node<S>>, b: nat)
    ensures w.Some? && Step(P, Backward, w.value, b).Some? ==> b < P.nArcs
  {
  }

  // ----- Costs -----

  lemma InitialFree<S(!new)>(P: Problem<S>, dir: Direction)
    requires Disposable(P.pack, P.top) && InitialNode(P, dir).Some?
    ensures InitialNode(P, dir).value.cost == 0.0
  {
    assert CostFreeAt(P.pack, dir, P.pack.initState(dir), P.pack.initState(dir), P.top.Start(dir));
  }

  lemma {:induction false} WalkCostAppend<S>(P: Problem<S>, p: seq<nat>, t: seq<nat>)
    ensures WalkCost(P, p + t) == WalkCost(P, p) + WalkCost(P, t)
  {
    if p == [] {
      assert p + t == t;
    } else {
      assert (p + t)[0] == p[0] && (p + t)[1..] == p[1..] + t;
      WalkCostAppend(P, p[1..], t);
    }
  }

  lemma {:induction false} WalkCostReversed<S>(P: Problem<S>, t: seq<nat>)
    ensures WalkCost(P, Reversed(t)) == WalkCost(P, t)
  {
    if t != [] {
      WalkCostAppend(P, Reversed(t[1..]), [t[0]]);
      WalkCostReversed(P, t[1..]);
      assert [t[0]][1..] == [];
    }
  }

  lemma SuffixCost<S(!new)>(P: Problem<S>, t: seq<nat>)
    requires Disposable(P.pack, P.top) && Suffix(P, t).Some?
    ensures Suffix(P, t).value.cost == WalkCost(P, t)
  {
    InitialFree(P, Backward);
    RunCost(P, Backward, InitialNode(P, Backward).value, Reversed(t));
    WalkCostReversed(P, t);
  }

  /** The cost of the whole is the cost of its two parts and of the arc between them. */
  lemma JoinedCost<S(!new)>(P: Problem<S>, u: Node<S>, a: nat, t: seq<nat>)
    requires Disposable(P.pack, P.top) && Suffix(P, t).Some? && Run(P, Forward, u, [a] + t).Some?
    ensures Run(P, Forward, u, [a] + t).value.cost == u.cost + P.cost(a) + Suffix(P, t).value.cost
  {
    RunCost(P, Forward, u, [a] + t);
    WalkCostAppend(P, [a], t);
    assert [a][1..] == [];
    SuffixCost(P, t);
  }

  // ----- Better parts join at least as well -----

  lemma JoinDominates<S(!new)>(P: Problem<S>, u: Node<S>, u': Node<S>, a: nat, w: Node<S>, w': Node<S>)
    requires Disposable(P.pack, P.top) && JoinMonotone(P.pack, P.top)
    requires Dominates(P, Forward, u', u) && Dominates(P, Backward, w', w) && JoinPair(P, u, a, w)
    ensures JoinPair(P, u', a, w')
  {
    DominatesIff(P, Forward, u', u);
    DominatesIff(P, Backward, w', w);
    assert JoinMonotoneAt(P.pack, P.top, u'.states, u.states, a, w'.states, w.states);
  }

  lemma JoinDelayed<S>(P: Problem<S>, u0: Node<S>, u: Node<S>, a: nat, w0: Node<S>, w: Node<S>)
    requires Delayed(Forward, u0, u) && Delayed(Backward, w0, w) && JoinPair(P, u, a, w)
    ensures JoinPair(P, u0, a, w0)
  {
  }

  // ----- A feasible walk seen from both ends -----

  /** The node after the first k arcs. */
  function Prefix<S>(P: Problem<S>, p: seq<nat>, k: nat): Option<Node<S>>
    requires k <= |p|
  {
    var start := InitialNode(P, Forward);
    if start.None? then None else Run(P, Forward, start.value, p[..k])
  }

  /** At every arc of a feasible walk the two parts exist, join and add up. */
  lemma SplitAt<S(!new)>(P: Problem<S>, inv: Invariant<S>, p: seq<nat>, z: Node<S>, k: nat)
    requires Disposable(P.pack, P.top) && Joinable(P.pack, P.top, inv)
    requires P.lb(P.top.sink).AtMost(P.ub(P.top.sink))
    requires FeasibleWalk(P, p, z) && k < |p|
    ensures Prefix(P, p, k).Some? && Suffix(P, p[k + 1..]).Some?
    ensures JoinPair(P, Prefix(P, p, k).value, p[k], Suffix(P, p[k + 1..]).value)
    ensures z.cost == Prefix(P, p, k).value.cost + P.cost(p[k]) + Suffix(P, p[k + 1..]).value.cost
  {
    hide JoinPair, Step, JoinMonotone, Shifts, SinkJoins, Carries, Disposable;
    var start := InitialNode(P, Forward).value;
    assert p == p[..k] + p[k..];
    RunAppend(P, Forward, start, p[..k], p[k..]);
    var u := Prefix(P, p, k).value;
    assert p[k..] == [p[k]] + p[k + 1..];
    CarriesInitial(P, inv, Forward);
    CarriesRun(P, inv, Forward, start, p[..k]);
    JoinIffFeasible(P, inv, u, p[k], p[k + 1..]);
    JoinedCost(P, u, p[k], p[k + 1..]);
  }

  /** The next prefix extends the last one. */
  lemma PrefixNext<S>(P: Problem<S>, p: seq<nat>, k: nat)
    requires k < |p|
    ensures Prefix(P, p, k + 1) ==
            (var u := Prefix(P, p, k); if u.None? then None else Step(P, Forward, u.value, p[k]))
  {
    var start := InitialNode(P, Forward);
    assert p[..k + 1] == p[..k] + [p[k]];
    if start.Some? {
      RunAppend(P, Forward, start.value, p[..k], [p[k]]);
      var u := Run(P, Forward, start.value, p[..k]);
      if u.Some? {
        var x := Step(P, Forward, u.value, p[k]);
        assert Run(P, Forward, u.value, [p[k]]) == x by { assert [p[k]][1..] == []; }
      }
    }
  }

  /** A joined pair of true labels is a feasible walk of the joined cost. */
  lemma JoinIsWalk<S(!new)>(P: Problem<S>, inv: Invariant<S>, p: seq<nat>, u: Node<S>, a: nat, t: seq<nat>, w: Node<S>)
    requires Disposable(P.pack, P.top) && Joinable(P.pack, P.top, inv)
    requires P.lb(P.top.sink).AtMost(P.ub(P.top.sink))
    requires InitialNode(P, Forward).Some? && Run(P, Forward, InitialNode(P, Forward).value, p) == Some(u)
    requires Suffix(P, t) == Some(w) && JoinPair(P, u, a, w)
    ensures ReachesSink(P, InitialNode(P, Forward).value, p + [a] + t)
    ensures Run(P, Forward, InitialNode(P, Forward).value, p + [a] + t).value.cost == u.cost + P.cost(a) + w.cost
  {
    hide JoinPair, Step, JoinMonotone, Shifts, SinkJoins, Carries, Disposable;
    var start := InitialNode(P, Forward).value;
    CarriesInitial(P, inv, Forward);
    CarriesRun(P, inv, Forward, start, p);
    JoinIffFeasible(P, inv, u, a, t);
    assert p + [a] + t == p + ([a] + t);
    RunAppend(P, Forward, start, p, [a] + t);
    JoinedCost(P, u, a, t);
  }
}
