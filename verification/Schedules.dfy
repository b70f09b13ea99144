/**
 * What the resource vector of a label means: a walk is feasible when values can be chosen along it, and the label holds
 * the best last one.
 */
module Schedules {
  import opened Types
  import opened Paths

  // ----- One resource along a walk -----

  /** One resource: what an arc consumes and the window of each vertex. */
  datatype Windows = Windows(consumption: nat -> real, lb: nat -> real, ub: nat -> real)

  predicate Within(W: Windows, v: nat, t: real) { W.lb(v) <= t <= W.ub(v) }

  /** A label starts at the near end of its window; whether it lies before the far end is looked at if strict. */
  predicate StartsWithin(W: Windows, dir: Direction, strict: bool, v: nat, t: real) {
    if strict then Within(W, v, t) else if dir.Forward? then W.lb(v) <= t else t <= W.ub(v)
  }

  /** From value t at the tail of the arc value u at its head can be had, seen in direction dir. */
  predicate Passes(W: Windows, dir: Direction, t: real, a: nat, u: real) {
    if dir.Forward? then t + W.consumption(a) <= u else u + W.consumption(a) <= t
  }

  ghost predicate TimedAt(W: Windows, dir: Direction, vs: seq<nat>, arcs: seq<nat>, x: seq<real>, i: nat)
    requires |x| == |vs| == |arcs| + 1 && i < |arcs|
  {
    Passes(W, dir, x[i], arcs[i], x[i + 1]) && Within(W, vs[i + 1], x[i + 1])
  }

  /** Values x at the vertices vs, along the arcs, each in its window. */
  ghost predicate Times(W: Windows, dir: Direction, strict: bool, vs: seq<nat>, arcs: seq<nat>, x: seq<real>) {
    && |x| == |vs| == |arcs| + 1
    && StartsWithin(W, dir, strict, vs[0], x[0])
    && (forall i: nat :: i < |arcs| ==> TimedAt(W, dir, vs, arcs, x, i))
  }

  /** t is no worse than u: earlier in a forward search, later in a backward one. */
  predicate NoWorse(dir: Direction, t: real, u: real) { if dir.Forward? then t <= u else u <= t }

  /** t is the best last value that can be had. */
  ghost predicate BestLast(W: Windows, dir: Direction, strict: bool, vs: seq<nat>, arcs: seq<nat>, t: real) {
    && (exists x :: Times(W, dir, strict, vs, arcs, x) && x[|arcs|] == t)
    && (forall x :: Times(W, dir, strict, vs, arcs, x) ==> NoWorse(dir, t, x[|arcs|]))
  }

  ghost predicate CanBeTimed(W: Windows, dir: Direction, strict: bool, vs: seq<nat>, arcs: seq<nat>) {
    exists x :: Times(W, dir, strict, vs, arcs, x)
  }

  lemma BestIsTimed(W: Windows, dir: Direction, strict: bool, vs: seq<nat>, arcs: seq<nat>)
    ensures forall t :: BestLast(W, dir, strict, vs, arcs, t) ==> CanBeTimed(W, dir, strict, vs, arcs)
  {
  }

  /** The near end of the window, or the value carried there if that is worse. */
  function Clamped(W: Windows, dir: Direction, v: nat, t: real): real {
    if dir.Forward? then Max(t, W.lb(v)) else Min(t, W.ub(v))
  }

  function Carried(W: Windows, dir: Direction, t: real, a: nat): real {
    if dir.Forward? then t + W.consumption(a) else t - W.consumption(a)
  }

  /** Without their last values the values still do. */
  lemma TimesFront(W: Windows, dir: Direction, strict: bool, vs: seq<nat>, arcs: seq<nat>, v: nat, a: nat, x: seq<real>)
    requires |vs| == |arcs| + 1 && Times(W, dir, strict, vs + [v], arcs + [a], x)
    ensures Times(W, dir, strict, vs, arcs, x[..|vs|])
    ensures Passes(W, dir, x[|arcs|], a, x[|vs|]) && Within(W, v, x[|vs|])
  {
    assert TimedAt(W, dir, vs + [v], arcs + [a], x, |arcs|);
    forall i: nat | i < |arcs| ensures TimedAt(W, dir, vs, arcs, x[..|vs|], i) {
      assert TimedAt(W, dir, vs + [v], arcs + [a], x, i);
    }
  }

  lemma TimesMore(W: Windows, dir: Direction, strict: bool, vs: seq<nat>, arcs: seq<nat>, v: nat, a: nat, x: seq<real>,
                  u: real)
    requires Times(W, dir, strict, vs, arcs, x) && Passes(W, dir, x[|arcs|], a, u) && Within(W, v, u)
    ensures Times(W, dir, strict, vs + [v], arcs + [a], x + [u])
  {
    forall i: nat | i < |arcs + [a]| ensures TimedAt(W, dir, vs + [v], arcs + [a], x + [u], i) {
      if i < |arcs| { assert TimedAt(W, dir, vs, arcs, x, i); }
    }
  }

  lemma StartTimed(W: Windows, dir: Direction, strict: bool, v: nat)
    ensures var t := if dir.Forward? then W.lb(v) else W.ub(v);
            if strict && !(W.lb(v) <= W.ub(v)) then !CanBeTimed(W, dir, strict, [v], [])
            else BestLast(W, dir, strict, [v], [], t)
  {
    var t := if dir.Forward? then W.lb(v) else W.ub(v);
    if !(strict && !(W.lb(v) <= W.ub(v))) {
      assert Times(W, dir, strict, [v], [], [t]);
    }
  }

  /** The best value after one more arc is the carried best value, clamped; if that misses the window, nothing works. */
  lemma NextTimed(W: Windows, dir: Direction, strict: bool, vs: seq<nat>, arcs: seq<nat>, t: real, v: nat, a: nat)
    requires BestLast(W, dir, strict, vs, arcs, t)
    ensures var u := Clamped(W, dir, v, Carried(W, dir, t, a));
            if Within(W, v, u) then BestLast(W, dir, strict, vs + [v], arcs + [a], u)
            else !CanBeTimed(W, dir, strict, vs + [v], arcs + [a])
  {
    var u := Clamped(W, dir, v, Carried(W, dir, t, a));
    forall x | Times(W, dir, strict, vs + [v], arcs + [a], x)
      ensures NoWorse(dir, u, x[|vs|]) && Within(W, v, u)
    {
      TimesFront(W, dir, strict, vs, arcs, v, a, x);
      assert NoWorse(dir, t, x[..|vs|][|arcs|]);
    }
    if Within(W, v, u) {
      var x :| Times(W, dir, strict, vs, arcs, x) && x[|arcs|] == t;
      TimesMore(W, dir, strict, vs, arcs, v, a, x, u);
    }
  }

  lemma NoTimesMore(W: Windows, dir: Direction, strict: bool, vs: seq<nat>, arcs: seq<nat>, v: nat, a: nat)
    requires |vs| == |arcs| + 1 && !CanBeTimed(W, dir, strict, vs, arcs)
    ensures !CanBeTimed(W, dir, strict, vs + [v], arcs + [a])
  {
    if x :| Times(W, dir, strict, vs + [v], arcs + [a], x) {
      TimesFront(W, dir, strict, vs, arcs, v, a, x);
      assert false;
    }
  }

  // ----- Both ends of a walk -----

  function Opposite(dir: Direction): Direction { if dir.Forward? then Backward else Forward }

  /** Values along a chain are, in reverse, values along the reversed chain for the other direction. */
  lemma TimesReversed(W: Windows, dir: Direction, vs: seq<nat>, arcs: seq<nat>, x: seq<real>)
    requires Times(W, dir, true, vs, arcs, x)
    ensures Times(W, Opposite(dir), true, Reversed(vs), Reversed(arcs), Reversed(x))
  {
    hide Reversed;
    var n := |arcs|;
    ReversedAt(vs, 0);
    ReversedAt(x, 0);
    LastWithin(W, dir, vs, arcs, x, n);
    forall i: nat | i < n ensures TimedAt(W, Opposite(dir), Reversed(vs), Reversed(arcs), Reversed(x), i) {
      ReversedAt(arcs, i);
      ReversedAt(x, i);
      ReversedAt(x, i + 1);
      ReversedAt(vs, i + 1);
      assert TimedAt(W, dir, vs, arcs, x, n - 1 - i);
      LastWithin(W, dir, vs, arcs, x, n - 1 - i);
    }
  }

  lemma LastWithin(W: Windows, dir: Direction, vs: seq<nat>, arcs: seq<nat>, x: seq<real>, i: nat)
    requires Times(W, dir, true, vs, arcs, x) && i < |vs|
    ensures Within(W, vs[i], x[i])
  {
    if i > 0 { assert TimedAt(W, dir, vs, arcs, x, i - 1); }
  }

  /** A walk in two halves: both can be timed, and the arc between them can be passed. */
  lemma TimesJoin(W: Windows, vs1: seq<nat>, arcs1: seq<nat>, x1: seq<real>, a: nat, vs2: seq<nat>, arcs2: seq<nat>,
                  x2: seq<real>)
    requires Times(W, Forward, true, vs1, arcs1, x1) && Times(W, Forward, true, vs2, arcs2, x2)
    requires Passes(W, Forward, x1[|arcs1|], a, x2[0])
    ensures Times(W, Forward, true, vs1 + vs2, arcs1 + [a] + arcs2, x1 + x2)
  {
    var vs, arcs, x, m := vs1 + vs2, arcs1 + [a] + arcs2, x1 + x2, |arcs1|;
    forall i: nat | i < |arcs| ensures TimedAt(W, Forward, vs, arcs, x, i) {
      if i < m {
        assert TimedAt(W, Forward, vs1, arcs1, x1, i);
      } else if i > m {
        assert TimedAt(W, Forward, vs2, arcs2, x2, i - m - 1);
      }
    }
  }

  lemma TimesApart(W: Windows, vs1: seq<nat>, arcs1: seq<nat>, a: nat, vs2: seq<nat>, arcs2: seq<nat>, x: seq<real>)
    requires |vs1| == |arcs1| + 1 && |vs2| == |arcs2| + 1
    requires Times(W, Forward, true, vs1 + vs2, arcs1 + [a] + arcs2, x)
    ensures Times(W, Forward, true, vs1, arcs1, x[..|vs1|]) && Times(W, Forward, true, vs2, arcs2, x[|vs1|..])
    ensures Passes(W, Forward, x[|arcs1|], a, x[|vs1|])
  {
    var vs, arcs, m := vs1 + vs2, arcs1 + [a] + arcs2, |arcs1|;
    assert TimedAt(W, Forward, vs, arcs, x, m);
    forall i: nat | i < |arcs1| ensures TimedAt(W, Forward, vs1, arcs1, x[..|vs1|], i) {
      assert TimedAt(W, Forward, vs, arcs, x, i);
    }
    forall i: nat | i < |arcs2| ensures TimedAt(W, Forward, vs2, arcs2, x[|vs1|..], i) {
      assert TimedAt(W, Forward, vs, arcs, x, m + 1 + i);
    }
  }

  /** The whole walk, given a forward chain and a backward one. */
  ghost predicate WholeTimed(W: Windows, vs1: seq<nat>, arcs1: seq<nat>, a: nat, vs2: seq<nat>, arcs2: seq<nat>) {
    CanBeTimed(W, Forward, true, vs1 + Reversed(vs2), arcs1 + [a] + Reversed(arcs2))
  }

  lemma HalvesTimed(W: Windows, vs1: seq<nat>, arcs1: seq<nat>, a: nat, vs2: seq<nat>, arcs2: seq<nat>)
    requires |vs1| == |arcs1| + 1 && |vs2| == |arcs2| + 1 && WholeTimed(W, vs1, arcs1, a, vs2, arcs2)
    ensures exists x1, x2 :: Times(W, Forward, true, vs1, arcs1, x1) && Times(W, Backward, true, vs2, arcs2, x2)
                             && Passes(W, Forward, x1[|arcs1|], a, x2[|arcs2|])
  {
    hide Reversed;
    var x :| Times(W, Forward, true, vs1 + Reversed(vs2), arcs1 + [a] + Reversed(arcs2), x);
    TimesApart(W, vs1, arcs1, a, Reversed(vs2), Reversed(arcs2), x);
    var y := x[|vs1|..];
    TimesReversed(W, Forward, Reversed(vs2), Reversed(arcs2), y);
    ReversedTwice(vs2);
    ReversedTwice(arcs2);
    ReversedAt(y, |arcs2|);
  }

  /** Split law: the whole can be timed exactly if the best values of the halves pass over the arc between them. */
  lemma BestSplit(W: Windows, vs1: seq<nat>, arcs1: seq<nat>, s: real, a: nat, vs2: seq<nat>, arcs2: seq<nat>, t: real)
    requires BestLast(W, Forward, true, vs1, arcs1, s) && BestLast(W, Backward, true, vs2, arcs2, t)
    ensures WholeTimed(W, vs1, arcs1, a, vs2, arcs2) <==> Passes(W, Forward, s, a, t)
  {
    hide Reversed;
    if WholeTimed(W, vs1, arcs1, a, vs2, arcs2) { HalvesTimed(W, vs1, arcs1, a, vs2, arcs2); }
    if Passes(W, Forward, s, a, t) {
      var x1 :| Times(W, Forward, true, vs1, arcs1, x1) && x1[|arcs1|] == s;
      var x2 :| Times(W, Backward, true, vs2, arcs2, x2) && x2[|arcs2|] == t;
      TimesReversed(W, Backward, vs2, arcs2, x2);
      ReversedAt(x2, 0);
      TimesJoin(W, vs1, arcs1, x1, a, Reversed(vs2), Reversed(arcs2), Reversed(x2));
    }
  }
}
