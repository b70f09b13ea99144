/** What the states of a standard resource say about the values it may take along a path. */
module StandardPaths {
  import opened Types
  import opened Schedules
  import opened StandardResource

  function WindowsOf(std: Standard): Windows { Windows(std.consumption, std.lb, std.ub) }

  /** State of a label that has followed the arcs over the vertices vs, if each extension was feasible. */
  function Reached(std: Standard, dir: Direction, vs: seq<nat>, arcs: seq<nat>): Option<real>
    requires |vs| == |arcs| + 1
    decreases |arcs|
  {
    if arcs == [] then Feasible(std.ExtendToVertex(dir, std.InitState(dir), vs[0])) else
    var n := |arcs| - 1;
    var before := Reached(std, dir, vs[..n + 1], arcs[..n]);
    if before.None? then None
    else Feasible(std.ExtendToVertex(dir, std.ExtendAlongArc(dir, before.value, arcs[n]).0, vs[n + 1]))
  }

  function Feasible(r: (real, Bound)): Option<real> { if r.1.Fin? then Some(r.0) else None }

  /** The vertex where labels of the direction start. */
  function Origin(std: Standard, dir: Direction): nat { if dir.Forward? then std.source else std.sink }

  /**
   * A state exists exactly if values can be chosen within the windows, each at least what the one before and the arc
   * make it. It is then the best last one: the least in a forward search, the greatest in a backward one.
   */
  lemma {:induction false} ReachedMeaning(std: Standard, dir: Direction, vs: seq<nat>, arcs: seq<nat>)
    requires |vs| == |arcs| + 1 && vs[0] == Origin(std, dir)
    ensures Reached(std, dir, vs, arcs).Some? <==> CanBeTimed(WindowsOf(std), dir, true, vs, arcs)
    ensures Reached(std, dir, vs, arcs).Some? ==>
              BestLast(WindowsOf(std), dir, true, vs, arcs, Reached(std, dir, vs, arcs).value)
    decreases |arcs|
  {
    var W := WindowsOf(std);
    if arcs == [] {
      assert vs == [Origin(std, dir)];
      StartTimed(W, dir, true, Origin(std, dir));
    } else {
      hide CanBeTimed, BestLast;
      var m := |arcs| - 1;
      var vs', arcs', v, a := vs[..m + 1], arcs[..m], vs[m + 1], arcs[m];
      assert vs == vs' + [v] && arcs == arcs' + [a];
      ReachedMeaning(std, dir, vs', arcs');
      if Reached(std, dir, vs', arcs').Some? {
        NextTimed(W, dir, true, vs', arcs', Reached(std, dir, vs', arcs').value, v, a);
      } else {
        NoTimesMore(W, dir, true, vs', arcs', v, a);
      }
      BestIsTimed(W, dir, true, vs, arcs);
    }
  }

  /** Split law: a path can be timed exactly if the states of both its halves exist and may be joined over the arc. */
  lemma StandardSplit(std: Standard, vs1: seq<nat>, arcs1: seq<nat>, a: nat, vs2: seq<nat>, arcs2: seq<nat>, j: nat)
    requires |vs1| == |arcs1| + 1 && vs1[0] == std.source && |vs2| == |arcs2| + 1 && vs2[0] == std.sink
    ensures var s, t := Reached(std, Forward, vs1, arcs1), Reached(std, Backward, vs2, arcs2);
            (s.Some? && t.Some? && std.ConcatenationCost(j, std.ExtendAlongArc(Forward, s.value, a).0, t.value).Fin?)
            <==> WholeTimed(WindowsOf(std), vs1, arcs1, a, vs2, arcs2)
  {
    hide Reached, BestLast, WholeTimed;
    ReachedMeaning(std, Forward, vs1, arcs1);
    ReachedMeaning(std, Backward, vs2, arcs2);
    var W, s, t := WindowsOf(std), Reached(std, Forward, vs1, arcs1), Reached(std, Backward, vs2, arcs2);
    if s.Some? && t.Some? {
      BestSplit(W, vs1, arcs1, s.value, a, vs2, arcs2, t.value);
    } else if WholeTimed(W, vs1, arcs1, a, vs2, arcs2) {
      HalvesTimed(W, vs1, arcs1, a, vs2, arcs2);
      assert false;
    }
  }

  /** Joining is possible with the far half's state o, whichever direction the label of state s has. */
  predicate MayJoin(std: Standard, dir: Direction, v: nat, s: real, o: real) {
    if dir.Forward? then std.ConcatenationCost(v, s, o).Fin? else std.ConcatenationCost(v, o, s).Fin?
  }

  /** Dominance is exact: s dominates t if and only if it is no worse, which is to join wherever t does. */
  lemma StandardDominates(std: Standard, dir: Direction, v: nat, s: real, t: real)
    ensures std.DominationCost(dir, v, s, t).Fin? <==> NoWorse(dir, s, t)
    ensures std.DominationCost(dir, v, s, t).Fin? <==>
              forall o :: MayJoin(std, dir, v, t, o) ==> MayJoin(std, dir, v, s, o)
  {
    if forall o :: MayJoin(std, dir, v, t, o) ==> MayJoin(std, dir, v, s, o) { assert MayJoin(std, dir, v, t, t); }
  }
}
