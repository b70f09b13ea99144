/** When no cap can be hit: each stored partial path is another one. */
module Caps {
  import opened Types
  import opened Problems
  import opened LabelStores
  import opened LabelingSpec
  import opened LabelCounts
  import opened Exactness

  /** Arcs that can be followed from the initial label. */
  ghost predicate Partial<S>(P: Problem<S>, dir: Direction, p: seq<nat>) {
    InitialNode(P, dir).Some? && Run(P, dir, InitialNode(P, dir).value, p).Some?
  }

  /** Fewer than n arc sequences can be followed. */
  ghost predicate FewPartial<S>(P: Problem<S>, dir: Direction, n: nat) {
    exists all: set<seq<nat>> :: |all| < n && AllPartial(P, dir, all)
  }

  lemma FewerPartial<S>(P: Problem<S>, dir: Direction, n: nat, m: nat)
    requires FewPartial(P, dir, n) && n <= m
    ensures FewPartial(P, dir, m)
  {
    hide AllPartial;
  }

  ghost predicate AllPartial<S>(P: Problem<S>, dir: Direction, all: set<seq<nat>>) {
    forall p :: Partial(P, dir, p) ==> p in all
  }

  lemma TraceOfChild<S>(pool: seq<Label<S>>, k: nat)
    requires k < |pool| && 0 <= pool[k].parent < k
    ensures Trace(pool, k) != [] && pool[k].arc == Trace(pool, k)[|Trace(pool, k)| - 1]
    ensures Trace(pool, pool[k].parent) == Trace(pool, k)[..|Trace(pool, k)| - 1]
  {
  }

  /** Without jump arcs no two labels stand for the same arcs. */
  lemma {:induction false} TracesDiffer<S(!new)>(C: Setup<S>, s: Store<S>, j: nat, k: nat)
    requires BornOnce(C, s) && Plain(C) && j < |s.pool| && k < |s.pool| && Trace(s.pool, j) == Trace(s.pool, k)
    ensures j == k
    decreases j
  {
    hide Plain;
    assert Descends(s, j) && Descends(s, k);
    var p, q := s.pool[j].parent, s.pool[k].parent;
    if p >= 0 { TraceOfChild(s.pool, j); }
    if q >= 0 { TraceOfChild(s.pool, k); }
    if p >= 0 && q >= 0 {
      TracesDiffer(C, s, p, q);
      assert Siblings(s.pool, j, k);
    }
  }

  function Traces<S>(pool: seq<Label<S>>, n: nat): set<seq<nat>> {
    if n == 0 then {} else Traces(pool, n - 1) + {Trace(pool, n - 1)}
  }

  lemma {:induction false} TraceMember<S>(pool: seq<Label<S>>, n: nat, p: seq<nat>) returns (i: nat)
    requires p in Traces(pool, n)
    ensures i < n && Trace(pool, i) == p
  {
    hide Trace;
    if p in Traces(pool, n - 1) {
      i := TraceMember(pool, n - 1, p);
    } else {
      i := n - 1;
    }
  }

  lemma {:induction false} TraceCount<S(!new)>(C: Setup<S>, s: Store<S>, all: set<seq<nat>>, n: nat)
    requires SetupOk(C) && StoreOk(C, s) && BornOnce(C, s) && Plain(C) && n <= |s.pool| && AllPartial(C.P, C.dir, all)
    ensures |Traces(s.pool, n)| == n && Traces(s.pool, n) <= all
  {
    hide SetupOk, StoreOk, Plain, Trace, Run, InitialNode, BornOnce;
    if n > 0 {
      var i: nat := n - 1;
      TraceCount(C, s, all, i);
      var n0 := Sound(C, s, i);
      assert Partial(C.P, C.dir, Trace(s.pool, i));
      if Trace(s.pool, i) in Traces(s.pool, i) {
        var j := TraceMember(s.pool, i, Trace(s.pool, i));
        TracesDiffer(C, s, j, i);
      }
    }
  }

  /** A run without jump arcs builds no more labels than there are partial paths. */
  lemma FewLabels<S(!new)>(C: Setup<S>, s: Store<S>, n: nat)
    requires SetupOk(C) && StoreOk(C, s) && BornOnce(C, s) && Plain(C) && FewPartial(C.P, C.dir, n)
    ensures |s.pool| < n
  {
    hide SetupOk, StoreOk, Plain, BornOnce, AllPartial;
    var all: set<seq<nat>> :| |all| < n && AllPartial(C.P, C.dir, all);
    TraceCount(C, s, all, |s.pool|);
    SubsetSize(Traces(s.pool, |s.pool|), all);
  }
}
