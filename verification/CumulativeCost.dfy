/** The cumulative cost resource (resources/cumulative_cost.h). */
module CumulativeCosts {
  import opened Types
  import opened Resources

  /** S is the cost so far; the second part is the arrival time forward, the weight still to serve backward. */
  datatype State = State(S: real, timeOrWeight: real)

  function Times(x: real, y: real): real { x * y }

  datatype CumulativeCost = CumulativeCost(travelTime: nat -> real, weight: nat -> real, maxWeight: real,
        maxTime: real) {
    function InitState(dir: Direction): State { State(0.0, 0.0) }

    function ExtendAlongArc(dir: Direction, s: State, a: nat): (State, Bound) {
      var l, w := travelTime(a), weight(a);
      if dir.Forward? then
        var delta := Times(w, s.timeOrWeight + l);
        (State(s.S + delta, s.timeOrWeight + l), Fin(delta))
      else
        var delta := Times(s.timeOrWeight + w, l);
        (State(s.S + delta, s.timeOrWeight + w), Fin(delta))
    }

    function ExtendToVertex(dir: Direction, s: State, v: nat): (State, Bound) { (s, Fin(0.0)) }

    function DominationCost(dir: Direction, v: nat, s: State, t: State): Bound {
      var gap := s.S - t.S;
      Fin(gap + Times(Max(0.0, s.timeOrWeight - t.timeOrWeight), if dir.Forward? then maxWeight else maxTime))
    }

    function ConcatenationCost(v: nat, fw: State, bw: State): Bound { Fin(Times(fw.timeOrWeight, bw.timeOrWeight)) }

    function NoNg(v: nat, s: State): bv32 { 0 }

    function NoCuts(s: State): bv64 { 0 }

    function AsResource(): Resource<State> {
      Resource(1, InitState, ExtendAlongArc, ExtendToVertex, DominationCost, ConcatenationCost, 0.0, false, NoNg,
            false, NoCuts, 0.0)
    }
  }

  /** State and accumulated cost of a forward label. */
  function Forwards(cc: CumulativeCost, arcs: seq<nat>): (State, real) {
    if arcs == [] then (cc.InitState(Forward), 0.0) else
    var prev := Forwards(cc, arcs[..|arcs| - 1]);
    var next := cc.ExtendAlongArc(Forward, prev.0, arcs[|arcs| - 1]);
    (next.0, prev.1 + next.1.val)
  }

  /** State and accumulated cost of a backward label, whose arcs are taken from the last to the first. */
  function Backwards(cc: CumulativeCost, arcs: seq<nat>): (State, real) {
    if arcs == [] then (cc.InitState(Backward), 0.0) else
    var prev := Backwards(cc, arcs[1..]);
    var next := cc.ExtendAlongArc(Backward, prev.0, arcs[0]);
    (next.0, prev.1 + next.1.val)
  }

  // ----- What it stands for -----

  function Time(cc: CumulativeCost, arcs: seq<nat>): real {
    if arcs == [] then 0.0 else Time(cc, arcs[..|arcs| - 1]) + cc.travelTime(arcs[|arcs| - 1])
  }

  function Weight(cc: CumulativeCost, arcs: seq<nat>): real {
    if arcs == [] then 0.0 else Weight(cc, arcs[..|arcs| - 1]) + cc.weight(arcs[|arcs| - 1])
  }

  /** Each arc's weight times the time of arrival at its end. */
  function Weighted(cc: CumulativeCost, arcs: seq<nat>): real {
    if arcs == [] then 0.0 else Weighted(cc, arcs[..|arcs| - 1]) + Times(cc.weight(arcs[|arcs| - 1]), Time(cc, arcs))
  }

  lemma {:induction false} ForwardMeaning(cc: CumulativeCost, arcs: seq<nat>)
    ensures Forwards(cc, arcs) == (State(Weighted(cc, arcs), Time(cc, arcs)), Weighted(cc, arcs))
  {
    hide Times;
    if arcs != [] { ForwardMeaning(cc, arcs[..|arcs| - 1]); }
  }

  lemma {:induction false} TimeAppend(cc: CumulativeCost, p: seq<nat>, t: seq<nat>)
    ensures Time(cc, p + t) == Time(cc, p) + Time(cc, t) && Weight(cc, p + t) == Weight(cc, p) + Weight(cc, t)
  {
    if t == [] {
      assert p + t == p;
    } else {
      var m := |t| - 1;
      assert (p + t)[..|p| + m] == p + t[..m];
      TimeAppend(cc, p, t[..m]);
    }
  }

  lemma TimesAdd(w: real, x: real, y: real)
    ensures Times(w, x + y) == Times(w, x) + Times(w, y) && Times(x + y, w) == Times(x, w) + Times(y, w)
  {
  }

  lemma TimesComm(x: real, y: real)
    ensures Times(x, y) == Times(y, x)
  {
  }

  lemma TimesZero(x: real)
    ensures Times(x, 0.0) == 0.0
  {
  }

  /** A later part of a path is reached later by the time of the earlier part. */
  lemma {:induction false} WeightedAppend(cc: CumulativeCost, p: seq<nat>, t: seq<nat>)
    ensures Weighted(cc, p + t) == Weighted(cc, p) + Weighted(cc, t) + Times(Time(cc, p), Weight(cc, t))
  {
    hide Times;
    if t == [] {
      assert p + t == p;
      TimesZero(Time(cc, p));
    } else {
      var m := |t| - 1;
      assert (p + t)[..|p| + m] == p + t[..m];
      WeightedAppend(cc, p, t[..m]);
      TimeAppend(cc, p, t);
      TimesAdd(cc.weight(t[m]), Time(cc, p), Time(cc, t));
      TimesAdd(Time(cc, p), Weight(cc, t[..m]), cc.weight(t[m]));
      TimesComm(Time(cc, p), cc.weight(t[m]));
    }
  }

  lemma Single(cc: CumulativeCost, a: nat)
    ensures Time(cc, [a]) == cc.travelTime(a) && Weight(cc, [a]) == cc.weight(a)
            && Weighted(cc, [a]) == Times(cc.weight(a), cc.travelTime(a))
  {
    hide Times;
    assert [a][..0] == [];
    assert Time(cc, []) == 0.0 && Weight(cc, []) == 0.0 && Weighted(cc, []) == 0.0;
    assert Time(cc, [a]) == cc.travelTime(a);
  }

  /** The backward accumulation, weights first, gives the same weighted arrival time. */
  lemma {:induction false} BackwardMeaning(cc: CumulativeCost, arcs: seq<nat>)
    ensures Backwards(cc, arcs) == (State(Weighted(cc, arcs), Weight(cc, arcs)), Weighted(cc, arcs))
    decreases |arcs|
  {
    hide Times;
    if arcs != [] {
      var a, rest := arcs[0], arcs[1..];
      assert arcs == [a] + rest;
      BackwardMeaning(cc, rest);
      Single(cc, a);
      WeightedAppend(cc, [a], rest);
      TimeAppend(cc, [a], rest);
      TimesAdd(cc.travelTime(a), Weight(cc, rest), cc.weight(a));
      TimesComm(cc.travelTime(a), Weight(cc, rest));
    }
  }

  lemma LastStep(cc: CumulativeCost, q: seq<nat>)
    requires q != []
    ensures var fw := Forwards(cc, q[..|q| - 1]);
            var along := cc.ExtendAlongArc(Forward, fw.0, q[|q| - 1]);
            along.1.Fin? && Forwards(cc, q) == (along.0, fw.1 + along.1.val)
  {
    hide Times;
  }

  /**
   * The split law: the weighted arrival cost of a path is that of the prefix, plus the joining arc, plus
   * that of the suffix, plus the time at the join times the weight behind it.
   */
  lemma CumulativeSplit(cc: CumulativeCost, p: seq<nat>, a: nat, t: seq<nat>)
    ensures var fw, bw := Forwards(cc, p), Backwards(cc, t);
            var along := cc.ExtendAlongArc(Forward, fw.0, a);
            Forwards(cc, p + [a] + t).1 == fw.1 + along.1.val + cc.ConcatenationCost(0, along.0, bw.0).val + bw.1
    ensures Forwards(cc, p + [a] + t).1 == Weighted(cc, p + [a] + t)
  {
    ForwardMeaning(cc, p + [a]);
    ForwardMeaning(cc, p + [a] + t);
    BackwardMeaning(cc, t);
    WeightedAppend(cc, p + [a], t);
    LastStep(cc, p + [a]);
    assert (p + [a])[..|p|] == p;
    hide Times, Forwards, Backwards, Weighted, Time, Weight;
  }

  /** The declared lower bound of 0 on domination costs is not one: a cheaper label has a negative cost. */
  lemma CumulativeNotDisposable(cc: CumulativeCost, top: Topology)
    ensures !Disposable(cc.AsResource(), top)
  {
    var R := cc.AsResource();
    var s, t := State(0.0, 0.0), State(1.0, 0.0);
    assert R.dominationCost(Forward, 0, s, t) == cc.DominationCost(Forward, 0, s, t);
    assert !FilterAt(R, Forward, 0, s, t);
  }
}
