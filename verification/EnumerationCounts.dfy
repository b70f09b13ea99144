/** How many labels an enumeration stores, and when that reaches a cap. */
module EnumerationCounts {
  import opened Types
  import opened Problems
  import opened LabelingSpec
  import opened LabelCounts
  import opened Exactness
  import opened Caps
  import opened EnumerationSpec

  /** Labels one component may store while enumerating. */
  const ENUM_CAP := 2000000

  /** The three tests of the loop, on the final numbers of labels and of sink labels. */
  predicate CapHit(total: nat, sinks: nat, maxLabels: nat, maxPaths: nat) {
    total >= ENUM_CAP || total >= maxLabels || (maxPaths > 0 && sinks >= maxPaths)
  }

  function Total(lists: seq<seq<nat>>): nat {
    if lists == [] then 0 else Total(lists[..|lists| - 1]) + |lists[|lists| - 1]|
  }

  lemma {:induction false} NothingYet(lists: seq<seq<nat>>)
    requires forall b: nat :: b < |lists| ==> lists[b] == []
    ensures Total(lists) == 0
  {
    if lists != [] { NothingYet(lists[..|lists| - 1]); }
  }

  lemma {:induction false} TotalUpdate(lists: seq<seq<nat>>, b: nat, list: seq<nat>)
    requires b < |lists|
    ensures Total(lists[b := list]) + |lists[b]| == Total(lists) + |list|
    decreases |lists|
  {
    var n, more := |lists| - 1, lists[b := list];
    if b == n {
      assert more[..n] == lists[..n];
    } else {
      TotalUpdate(lists[..n], b, list);
      assert more[..n] == lists[..n][b := list];
    }
  }

  lemma {:induction false} OneTotal(lists: seq<seq<nat>>, b: nat)
    requires forall c: nat :: c < |lists| && c != b ==> lists[c] == []
    requires b < |lists| ==> |lists[b]| <= 1
    ensures Total(lists) <= if b < |lists| then 1 else 0
  {
    if lists != [] { OneTotal(lists[..|lists| - 1], b); }
  }

  // ----- Sink labels -----

  predicate AtSink<S>(C: Setup<S>, b: nat) { b < |C.G.buckets| && C.G.buckets[b].vertex == C.P.top.sink }

  /** Labels in buckets of the sink. */
  function SinkTotal<S>(C: Setup<S>, lists: seq<seq<nat>>): nat {
    if lists == [] then 0 else
    var n := |lists| - 1;
    SinkTotal(C, lists[..n]) + if AtSink(C, n) then |lists[n]| else 0
  }

  lemma {:induction false} NoSinks<S>(C: Setup<S>, lists: seq<seq<nat>>)
    requires forall b: nat :: b < |lists| ==> lists[b] == []
    ensures SinkTotal(C, lists) == 0
  {
    if lists != [] { NoSinks(C, lists[..|lists| - 1]); }
  }

  lemma {:induction false} SinkUpdate<S>(C: Setup<S>, lists: seq<seq<nat>>, b: nat, list: seq<nat>)
    requires b < |lists|
    ensures AtSink(C, b) ==> SinkTotal(C, lists[b := list]) + |lists[b]| == SinkTotal(C, lists) + |list|
    ensures !AtSink(C, b) ==> SinkTotal(C, lists[b := list]) == SinkTotal(C, lists)
    decreases |lists|
  {
    hide AtSink;
    var n, more := |lists| - 1, lists[b := list];
    if b == n {
      assert more[..n] == lists[..n];
    } else {
      SinkUpdate(C, lists[..n], b, list);
      assert more[..n] == lists[..n][b := list];
    }
  }

  lemma {:induction false} SinkGrows<S>(C: Setup<S>, lists: seq<seq<nat>>, n: nat)
    requires n <= |lists|
    ensures SinkTotal(C, lists[..n]) <= SinkTotal(C, lists)
    decreases |lists| - n
  {
    if n < |lists| {
      assert lists[..n + 1][..n] == lists[..n];
      SinkGrows(C, lists, n + 1);
    } else {
      assert lists[..n] == lists;
    }
  }

  lemma {:induction false} SinksWithin<S>(C: Setup<S>, lists: seq<seq<nat>>)
    ensures SinkTotal(C, lists) <= Total(lists)
  {
    if lists != [] { SinksWithin(C, lists[..|lists| - 1]); }
  }

  // ----- No more labels than partial paths -----

  /** The labels of the first n lists. */
  lemma {:induction false} ListedSet<S>(C: Setup<S>, T: Trail<S>, n: nat) returns (ids: set<nat>)
    requires Layout(C) && TrailOk(C, T) && n <= |T.lists|
    ensures |ids| == Total(T.lists[..n]) && forall k: nat :: k in ids ==> Listed(T, k) && T.pool[k].bucket < n
  {
    hide Layout, PoolOk;
    if n == 0 {
      ids := {};
    } else {
      var rest := ListedSet(C, T, n - 1);
      assert ListOk(T, n - 1);
      MembersSize(T.lists[n - 1]);
      assert T.lists[..n][..n - 1] == T.lists[..n - 1];
      assert rest !! Members(T.lists[n - 1]);
      ids := rest + Members(T.lists[n - 1]);
    }
  }

  /** Without jump arcs they stand for as many arc sequences. */
  lemma {:induction false} TraceSet<S(!new)>(C: Setup<S>, comp: seq<Bound>, T: Trail<S>, ids: set<nat>)
    returns (all: set<seq<nat>>)
    requires Layout(C) && PoolOk(C, T.pool) && Linked(C, comp, T, -1) && NoJumps(C)
    requires forall k: nat :: k in ids ==> Listed(T, k)
    ensures |all| == |ids| && forall p :: p in all ==> exists k: nat :: k in ids && Trace(T.pool, k) == p
    decreases |ids|
  {
    hide Layout, Linked, NoJumps, PoolOk, Trace;
    if k :| k in ids {
      var rest := TraceSet(C, comp, T, ids - {k});
      if Trace(T.pool, k) in rest {
        var j: nat :| j in ids - {k} && Trace(T.pool, j) == Trace(T.pool, k);
        assert Straight(C, Trace(T.pool, j), []);
        TraceUnique(C, comp, T, -1, j, k, []);
      }
      all := rest + {Trace(T.pool, k)};
    } else {
      all := {};
    }
  }

  /** So an enumeration without jump arcs stores fewer labels than any bound on the number of feasible partial paths. */
  lemma FewListed<S(!new)>(C: Setup<S>, comp: seq<Bound>, T: Trail<S>, n: nat)
    requires Layout(C) && TrailOk(C, T) && Linked(C, comp, T, -1) && NoJumps(C) && FewPartial(C.P, C.dir, n)
    ensures Total(T.lists) < n
  {
    hide Layout, Linked, NoJumps, PoolOk, AllPartial, Listed, Run, InitialNode;
    var all: set<seq<nat>> :| |all| < n && AllPartial(C.P, C.dir, all);
    var ids := ListedSet(C, T, |T.lists|);
    assert T.lists[..|T.lists|] == T.lists;
    var traces := TraceSet(C, comp, T, ids);
    forall p | p in traces ensures p in all {
      var k: nat :| k in ids && Trace(T.pool, k) == p;
      InPool(T, k);
      var n0 := SoundIn(C, T.pool, k);
      PartialIn(C.P, C.dir, all, p);
    }
    SubsetSize(traces, all);
  }

  lemma InPool<S>(T: Trail<S>, k: nat)
    requires Listed(T, k)
    ensures k < |T.pool|
  {
  }

  lemma PartialIn<S>(P: Problem<S>, dir: Direction, all: set<seq<nat>>, p: seq<nat>)
    requires AllPartial(P, dir, all) && InitialNode(P, dir).Some? && Run(P, dir, InitialNode(P, dir).value, p).Some?
    ensures p in all
  {
    assert Partial(P, dir, p);
  }
}
