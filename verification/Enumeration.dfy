/** The labeling loop in the Enumerate stage, and the enumerating mono-directional solve. */
module Enumeration {
  import opened Types
  import opened Resources
  import opened Problems
  import opened Grids
  import opened BucketArcs
  import opened BucketOrder
  import opened Sorting
  import opened LabelStores
  import opened LabelingSpec
  import opened Exactness
  import opened Paths
  import opened Solving
  import opened EnumerationSpec
  import opened EnumerationCounts
  import opened Caps
  import opened Completion
  import opened Elimination

  class EnumerationRun<S(!new)> {
    const C: Setup<S>
    const comp: seq<Bound>
    const maxLabels: nat
    const maxPaths: nat
    var pool: seq<Label<S>>
    var extended: seq<bool>
    var lists: seq<seq<nat>>
    var total: nat
    var sinkLabels: nat
    var complete: bool

    ghost function State(): Trail<S>
      reads this
    {
      Trail(pool, extended, lists)
    }

    ghost predicate Valid()
      reads this
    {
      Countable(C) && TrailOk(C, State()) && Linked(C, comp, State(), -1) && AllServed(C, comp, State()) && Counted()
    }

    /** The counters are right, and the run calls itself incomplete only when it has reached a cap. */
    ghost predicate Counted()
      reads this
    {
      && total == Total(lists) && SinkTotal(C, lists) == sinkLabels + FirstAtSink(C, pool)
      && (!complete ==> CapHit(total, sinkLabels, maxLabels, maxPaths))
    }

    /** The caps on the whole run are not reached. */
    ghost predicate Below()
      reads this
    {
      total < maxLabels && (maxPaths > 0 ==> sinkLabels < maxPaths)
    }

    constructor (C: Setup<S>, comp: seq<Bound>, maxLabels: nat, maxPaths: nat)
      requires Countable(C)
      ensures this.C == C && this.comp == comp && this.maxLabels == maxLabels && this.maxPaths == maxPaths
      ensures Valid() && pool == [] && total == 0 && complete && forall b: nat :: b < |lists| ==> lists[b] == []
    {
      this.C, this.comp, this.maxLabels, this.maxPaths := C, comp, maxLabels, maxPaths;
      pool, extended, lists := [], [], seq(|C.G.buckets|, b => []);
      NothingYet(seq(|C.G.buckets|, b => []));
      NoSinks(C, seq(|C.G.buckets|, b => []));
      total, sinkLabels, complete := 0, 0, true;
    }

    /** The caps; reaching one means that something may be missing. */
    method AtCap(labelCount: nat) returns (cap: bool)
      requires Counted() && labelCount <= total
      modifies this`complete
      ensures Counted()
      ensures if cap then !complete else complete == old(complete)
      ensures cap <==> labelCount >= ENUM_CAP || !Below()
    {
      cap := labelCount >= ENUM_CAP || total >= maxLabels || (maxPaths > 0 && sinkLabels >= maxPaths);
      if cap { complete := false; }
    }

    /** try_insert_label for a label just allocated: it is stored unless its bucket is fixed or its bound prunes it. */
    method Offer(l: Label<S>) returns (inserted: bool)
      requires Counted() && l.bucket < |lists| && pool != []
      requires AtSink(C, l.bucket) <==> l.node.vertex == C.P.top.sink
      modifies this`pool, this`extended, this`lists, this`total, this`sinkLabels
      ensures inserted <==> !(l.bucket in C.fixed || Pruned(C, comp, l.bucket, l.node))
      ensures State() == WithChild(old(State()), l, inserted)
      ensures !inserted ==> lists == old(lists)
      ensures Counted() && total == old(total) + if inserted then 1 else 0
    {
      hide Pruned;
      ChildTrail(State(), l, true);
      ChildTrail(State(), l, false);
      pool, extended := pool + [l], extended + [false];
      inserted := !(l.bucket in C.fixed) && !Pruned(C, comp, l.bucket, l.node);
      if inserted {
        TotalUpdate(lists, l.bucket, lists[l.bucket] + [|pool| - 1]);
        SinkUpdate(C, lists, l.bucket, lists[l.bucket] + [|pool| - 1]);
        lists := lists[l.bucket := lists[l.bucket] + [|pool| - 1]];
        total := total + 1;
        if l.node.vertex == C.P.top.sink { sinkLabels := sinkLabels + 1; }
      }
    }

    /** extend_label from base, then try_insert_label, which keeps what its bound does not prune. */
    method Child(k: nat, a: nat, base: Vec) returns (L: Option<Label<S>>, inserted: bool)
      requires Layout(C) && Unlimited(C) && k < |pool| && pool[k].bucket < |C.arcs|
               && |lists| == |C.G.buckets| == |C.id|
      requires Counted() && PoolOk(C, pool) && FromBucket(C, pool[k].bucket, pool[k].node, a, base)
      modifies this`pool, this`extended, this`lists, this`total, this`sinkLabels
      ensures L.Some? <==> Extend(C.P, C.dir, old(pool)[k].node, a, base).Some?
      ensures L.None? ==> State() == old(State()) && !inserted
      ensures L.Some? ==>
                Extend(C.P, C.dir, old(pool)[k].node, a, base) == Some(L.value.node) && L.value.parent == k
                && L.value.arc == a
      ensures L.Some? ==> L.value.node.vertex < C.P.nVertices && L.value.bucket == BucketOf(C, L.value.node)
      ensures L.Some? ==> (inserted <==> !(L.value.bucket in C.fixed || Pruned(C, comp, L.value.bucket, L.value.node)))
      ensures L.Some? ==> State() == WithChild(old(State()), L.value, inserted)
      ensures !inserted ==> lists == old(lists)
      ensures Counted() && total == old(total) + if inserted then 1 else 0
    {
      hide Counted, Layout, Extend, Pruned, PoolOk, BucketIndex, FromBucket;
      inserted := false;
      var m := Extend(C.P, C.dir, pool[k].node, a, base);
      if m.None? { return None, false; }
      LayoutReady(C);
      EnumChild(C, pool, k, a, base, Label(m.value, 0, k, a));
      var l := Label(m.value, BucketOf(C, m.value), k, a);
      EnumChild(C, pool, k, a, base, l);
      BucketAtSink(C, m.value);
      inserted := Offer(l);
      L := Some(l);
    }

    /** Arc i of bucket b. */
    method StepArc(k: nat, b: nat, i: nat) returns (inserted: bool)
      requires Counted() && Countable(C) && b < |C.arcs| && i < |C.arcs[b]| && Extending(C, comp, State(), k, b, i, 0)
               && b < |C.id|
      modifies this`pool, this`extended, this`lists, this`total, this`sinkLabels
      ensures Extending(C, comp, State(), k, b, i + 1, 0) && Longer(C, old(State()), State(), C.id[b])
      ensures !inserted ==> lists == old(lists)
      ensures Counted() && total == old(total) + if inserted then 1 else 0
    {
      hide Countable, Layout, Extending, TrailOk, Longer, Linked, AllServed, Extend, Pruned, WithChild, PoolOk,
           BucketIndex, FromBucket, HasArc;
      ghost var T := State();
      ExtendingFacts(C, comp, T, k, b, i, 0);
      LongerSelf(C, T, C.id[b]);
      var e := C.arcs[b][i];
      ArcMove(C, pool, k, e);
      var L;
      L, inserted := Child(k, e.arc, pool[k].node.q);
      if L.None? { NoChildStep(C, comp, T, k, b, i); } else { ChildStep(C, comp, T, k, b, i, L.value, inserted); }
    }

    /** Jump arc h of bucket b. */
    method StepJump(k: nat, b: nat, h: nat) returns (inserted: bool)
      requires Counted() && Countable(C) && b < |C.arcs| == |C.jumps| && h < |C.jumps[b]|
               && Extending(C, comp, State(), k, b, |C.arcs[b]|, h) && b < |C.id|
      modifies this`pool, this`extended, this`lists, this`total, this`sinkLabels
      ensures Extending(C, comp, State(), k, b, |C.arcs[b]|, h + 1) && Longer(C, old(State()), State(), C.id[b])
      ensures !inserted ==> lists == old(lists)
      ensures Counted() && total == old(total) + if inserted then 1 else 0
    {
      hide Countable, Layout, Extending, TrailOk, Longer, Linked, AllServed, Extend, Pruned, WithChild, PoolOk,
           BucketIndex, FromBucket;
      ghost var T := State();
      ExtendingFacts(C, comp, T, k, b, |C.arcs[b]|, h);
      LongerSelf(C, T, C.id[b]);
      var j := C.jumps[b][h];
      JumpArcMove(C, pool, k, j);
      var base := Boost(C.dir, pool[k].node.q, C.G.buckets[j.jumpBucket]);
      var L;
      L, inserted := Child(k, j.arc, base);
      if L.None? { NoJumpStep(C, comp, T, k, b, h); } else { JumpStep(C, comp, T, k, b, h, base, L.value, inserted); }
    }

    /** One label of process_scc: pruned, or extended along every arc and every jump arc of its bucket. */
    method ProcessLabel(k: nat, b: nat) returns (inserted: nat)
      requires Valid() && b < |C.arcs| == |C.jumps| && b < |C.id| && Listed(State(), k) && pool[k].bucket == b
               && b !in C.fixed
      modifies this`pool, this`extended, this`lists, this`total, this`sinkLabels
      ensures Valid() && Longer(C, old(State()), State(), C.id[b])
      ensures k < |extended| && extended[k]
      ensures inserted == 0 ==> lists == old(lists)
      ensures total == old(total) + inserted
    {
      hide Layout, TrailOk, Longer, Linked, AllServed, Extending, Served, Pruned, JumpsLack;
      ghost var T := State();
      inserted := 0;
      TrailSizes(C, T);
      LongerSelf(C, T, C.id[b]);
      if extended[k] { return; }
      if Pruned(C, comp, b, pool[k].node) {
        assert Served(C, comp, T, k) by { PrunedIsServed(C, comp, T, k); }
        FlagStep(C, comp, T, k, -1, C.id[b]);
        extended := extended[k := true];
        return;
      }
      StartExtending(C, comp, T, k, b);
      for i := 0 to |C.arcs[b]|
        invariant Extending(C, comp, State(), k, b, i, 0) && Longer(C, T, State(), C.id[b])
        invariant inserted == 0 ==> lists == T.lists
        invariant Counted() && total == old(total) + inserted
      {
        ghost var U := State();
        var stored := StepArc(k, b, i);
        LongerTrans(C, T, U, State(), C.id[b]);
        if stored { inserted := inserted + 1; }
      }
      for h := 0 to |C.jumps[b]|
        invariant Extending(C, comp, State(), k, b, |C.arcs[b]|, h) && Longer(C, T, State(), C.id[b])
        invariant inserted == 0 ==> lists == T.lists
        invariant Counted() && total == old(total) + inserted
      {
        ghost var U := State();
        var stored := StepJump(k, b, h);
        LongerTrans(C, T, U, State(), C.id[b]);
        if stored { inserted := inserted + 1; }
      }
      ghost var U := State();
      ExtendedFacts(C, comp, U, k, b, |C.arcs[b]|, |C.jumps[b]|);
      AllArcsServed(C, comp, U, k, b);
      FlagStep(C, comp, U, k, k, C.id[b]);
      extended := extended[k := true];
      LongerTrans(C, T, U, State(), C.id[b]);
    }

    /** One pass over the labels a bucket held when the pass began. */
    method ProcessBucket(b: nat) returns (inserted: nat)
      requires Valid() && b < |C.arcs| == |C.jumps| && b < |C.id| && b < |lists| && b !in C.fixed
      modifies this`pool, this`extended, this`lists, this`total, this`sinkLabels
      ensures Valid() && Longer(C, old(State()), State(), C.id[b])
      ensures inserted == 0 ==> lists == old(lists) && AllExtendedIn(State(), b)
      ensures total == old(total) + inserted
    {
      hide Countable, TrailOk, Longer, Linked, AllServed;
      ghost var T := State();
      RunSizes(C, T);
      LongerSelf(C, T, C.id[b]);
      inserted := 0;
      var count := |lists[b]|;
      for i := 0 to count
        invariant Valid() && Longer(C, T, State(), C.id[b])
        invariant |lists| == |T.lists| && count <= |lists[b]|
        invariant inserted == 0 ==> lists == T.lists
        invariant total == old(total) + inserted
        invariant forall j: nat :: j < i ==> lists[b][j] < |extended| && extended[lists[b][j]]
      {
        ghost var U := State();
        ListMember(C, U, b, i);
        var n := ProcessLabel(lists[b][i], b);
        LongerTrans(C, T, U, State(), C.id[b]);
        FlagsStay(C, U, State(), C.id[b], b);
        inserted := inserted + n;
      }
      if inserted == 0 { assert AllExtendedIn(State(), b); }
    }

    ghost predicate GroupDone(group: seq<nat>)
      reads this
    {
      forall b: nat :: b in group && b !in C.fixed && b < |lists| ==> AllExtendedIn(State(), b)
    }

    method Pass(scc: nat, labelCount: nat) returns (count: nat, changed: bool)
      requires Valid() && scc < C.count && scc < |C.groups| && labelCount <= total
      modifies this
      ensures Valid() && Longer(C, old(State()), State(), scc)
      ensures labelCount <= count && (changed <==> labelCount < count) && count + old(total) == labelCount + total
      ensures complete ==> old(complete)
      ensures !changed && complete ==> GroupDone(C.groups[scc])
    {
      hide Countable, TrailOk, Longer, Linked, AllServed, AllExtendedIn;
      ghost var T := State();
      RunSizes(C, T);
      GroupOf(C, scc);
      LongerSelf(C, T, scc);
      count, changed := labelCount, false;
      var group := C.groups[scc];
      for i := 0 to |group|
        invariant Valid() && Longer(C, T, State(), scc) && (complete ==> old(complete))
        invariant |lists| == |T.lists|
        invariant labelCount <= count && (changed <==> labelCount < count) && count + old(total) == labelCount + total
        invariant !changed ==> GroupDone(group[..i])
      {
        var b := group[i];
        assert b in group && group[..i + 1] == group[..i] + [b];
        if b in C.fixed { continue; }
        var cap := AtCap(count);
        if cap { return; }
        ghost var U := State();
        var n := ProcessBucket(b);
        LongerTrans(C, T, U, State(), scc);
        RunSizes(C, State());
        if !changed && n == 0 {
          forall c: nat | c in group[..i + 1] && c !in C.fixed && c < |lists| ensures AllExtendedIn(State(), c) {
            if c != b { StillExtended(C, U, State(), scc, c); }
          }
        }
        count := count + n;
        changed := changed || n > 0;
      }
      assert group[..|group|] == group;
    }

    /** process_scc while enumerating; there is nothing to compact. */
    method ProcessScc(scc: nat)
      requires Valid() && scc < C.count && scc < |C.groups|
      modifies this
      ensures Valid() && Longer(C, old(State()), State(), scc)
      ensures complete ==> old(complete) && Below()
      ensures complete ==> GroupDone(C.groups[scc])
    {
      hide Countable, TrailOk, Longer, Linked, AllServed, AllExtendedIn;
      ghost var T := State();
      RunSizes(C, T);
      LongerSelf(C, T, scc);
      var count: nat, changed, capped := 0, true, false;
      while changed && !capped
        invariant Valid() && Longer(C, T, State(), scc) && (complete ==> old(complete))
        invariant capped ==> !complete
        invariant count + old(total) == total
        invariant !capped ==> changed ==> count < ENUM_CAP
        invariant !changed && complete ==> GroupDone(C.groups[scc]) && Below()
        decreases if count < ENUM_CAP then ENUM_CAP - count else 0, if changed then 1 else 0, if capped then 0 else 1
      {
        ghost var U := State();
        count, changed := Pass(scc, count);
        LongerTrans(C, T, U, State(), scc);
        capped := AtCap(count);
      }
    }

    /** The first label, which no test is put to. */
    method InsertFirst() returns (started: bool)
      requires Valid() && total == 0 && pool == [] && complete && forall b: nat :: b < |lists| ==> lists[b] == []
      modifies this`pool, this`extended, this`lists, this`total
      ensures Valid() && (started <==> InitialNode(C.P, C.dir).Some?)
      ensures if started then Listed(State(), 0) && pool[0].parent < 0 && C.count > 0 else pool == []
    {
      hide Countable, TrailOk, Linked, AllServed, InitialNode, SinkTotal, Total, Below, AtSink;
      RunSizes(C, State());
      var n := InitialNode(C.P, C.dir);
      if n.None? { return false; }
      EnumRoot(C, comp, State(), n.value);
      var b := BucketOf(C, n.value);
      pool, extended := [Label(n.value, b, -1, 0)], [false];
      TotalUpdate(lists, b, [0]);
      SinkUpdate(C, lists, b, [0]);
      NoSinks(C, lists);
      BucketAtSink(C, n.value);
      StartVertex(C, n.value);
      SomeGroup(C, b);
      lists := lists[b := [0]];
      total := total + 1;
      started := true;
    }

    /** The labeling part of an enumerating solve. */
    method Run() returns (started: bool)
      requires Valid() && total == 0 && pool == [] && complete && forall b: nat :: b < |lists| ==> lists[b] == []
      modifies this
      ensures Valid() && (started <==> InitialNode(C.P, C.dir).Some?)
      ensures !started ==> pool == [] && complete
      ensures started && complete ==> Enumerated(C, comp, State()) && Below()
    {
      hide Countable, TrailOk, Longer, Linked, AllServed, AllExtendedIn, InitialNode, SinkTotal, Total, Below;
      started := InsertFirst();
      if !started { return; }
      RunSizes(C, State());
      for scc := C.count downto 0
        invariant Valid() && Listed(State(), 0) && pool[0].parent < 0
        invariant complete ==> DoneFrom(C, State(), scc) && (scc < C.count ==> Below())
      {
        GroupOf(C, scc);
        RunSizes(C, State());
        ghost var U := State();
        ProcessScc(scc);
        ListedStill(C, U, State(), scc, 0);
        RootStays(C, U, State(), scc);
        if complete { DoneNext(C, U, State(), scc); }
      }
      if complete { EnumDone(C, comp, State()); }
    }
  }

  // ----- Counting -----

  /** The first label is not counted as a sink label, wherever it is. */
  function FirstAtSink<S>(C: Setup<S>, pool: seq<Label<S>>): nat {
    if pool != [] && C.P.top.Start(C.dir) == C.P.top.sink then 1 else 0
  }

  lemma BucketAtSink<S>(C: Setup<S>, n: Node<S>)
    requires Layout(C) && n.vertex < C.P.nVertices
    ensures AtSink(C, BucketOf(C, n)) <==> n.vertex == C.P.top.sink
  {
    hide TopoOrder, Grouped, FullArcs;
    BucketIndexFacts(C.P, C.G, n.vertex, n.q);
  }

  lemma SomeGroup<S>(C: Setup<S>, b: nat)
    requires Countable(C) && b < |C.G.buckets|
    ensures C.count > 0
  {
    hide FullArcs, GridUpTo, JumpsLack;
    assert 0 <= C.id[b] < C.count;
  }

  lemma StartVertex<S>(C: Setup<S>, n: Node<S>)
    requires InitialNode(C.P, C.dir) == Some(n)
    ensures n.vertex == C.P.top.Start(C.dir)
  {
  }

  /** When the bound prunes the first label, nothing but that label is stored. */
  lemma {:induction false} RootAlone<S(!new)>(C: Setup<S>, comp: seq<Bound>, T: Trail<S>, k: nat)
    requires Countable(C) && TrailOk(C, T) && Linked(C, comp, T, -1) && Listed(T, k)
    requires InitialNode(C.P, C.dir).Some? && !Passes(C, comp, InitialNode(C.P, C.dir).value)
    ensures k == 0
    decreases k
  {
    hide TopoOrder, Grouped, FullArcs, ArcOrder, JumpsLack, GridUpTo, Undelayed, Pruned, ListOk;
    assert LinkOk(C, comp, T, -1, k) && LabelOk(C, T.pool, k) && LabelOk(C, T.pool, 0);
    if T.pool[k].parent >= 0 {
      var p: nat := T.pool[k].parent;
      assert LinkOk(C, comp, T, -1, p);
      RootAlone(C, comp, T, p);
    }
  }

  lemma RootTotal<S(!new)>(C: Setup<S>, comp: seq<Bound>, T: Trail<S>)
    requires Countable(C) && TrailOk(C, T) && Linked(C, comp, T, -1)
    requires InitialNode(C.P, C.dir).Some? && !Passes(C, comp, InitialNode(C.P, C.dir).value)
    ensures Total(T.lists) <= 1
  {
    hide Countable, PoolOk, Layout, Linked;
    CountableLayout(C);
    var b := if |T.pool| > 0 then T.pool[0].bucket else 0;
    forall c: nat | c < |T.lists| ensures (c != b ==> T.lists[c] == []) && |T.lists[c]| <= 1 {
      TrailSizes(C, T);
      assert ListOk(T, c);
      assert |T.lists[c]| <= 1 || T.lists[c][0] != T.lists[c][1];
      forall i: nat | i < |T.lists[c]| ensures T.lists[c][i] == 0 && c == b {
        ListMember(C, T, c, i);
        RootAlone(C, comp, T, T.lists[c][i]);
      }
      assert T.lists[c] == [] || T.lists[c][0] == 0;
    }
    OneTotal(T.lists, b);
  }

  lemma FewFound<S(!new)>(C: Setup<S>, comp: seq<Bound>, T: Trail<S>, found: seq<nat>)
    requires Countable(C) && TrailOk(C, T) && Linked(C, comp, T, -1)
    requires InitialNode(C.P, C.dir).Some? && !Passes(C, comp, InitialNode(C.P, C.dir).value)
    requires Distinct(found) && forall k: nat :: k in found ==> SinkLabel(C, T, k)
    ensures |found| <= 1
  {
    hide Countable, TrailOk, Linked, Passes;
    assert |found| <= 1 || found[0] != found[1];
    forall i: nat | i < |found| ensures found[i] == 0 {
      assert found[i] in found;
      RootAlone(C, comp, T, found[i]);
    }
  }

  // ----- Facts about single steps -----

  lemma ChildTrail<S>(T: Trail<S>, L: Label<S>, kept: bool)
    requires L.bucket < |T.lists|
    ensures WithChild(T, L, kept) ==
            Trail(T.pool + [L], T.extended + [false], if kept then T.lists[L.bucket := T.lists[L.bucket] + [|T.pool|]]
            else T.lists)
  {
  }

  lemma CountableLayout<S>(C: Setup<S>)
    requires Countable(C)
    ensures Layout(C)
  {
  }

  lemma LayoutReady<S>(C: Setup<S>)
    requires Layout(C)
    ensures Ready(C.P, C.G)
  {
  }

  lemma ExtendingFacts<S>(C: Setup<S>, comp: seq<Bound>, T: Trail<S>, k: nat, b: nat, i: nat, h: nat)
    requires Countable(C) && b < |C.arcs| && Extending(C, comp, T, k, b, i, h)
    ensures Layout(C) && Unlimited(C) && PoolOk(C, T.pool) && k < |T.pool| && T.pool[k].bucket == b
            && b !in C.fixed && |T.lists| == |C.id| == |C.arcs| == |C.jumps| == |C.G.buckets|
  {
  }

  lemma ExtendedFacts<S>(C: Setup<S>, comp: seq<Bound>, T: Trail<S>, k: nat, b: nat, i: nat, h: nat)
    requires Countable(C) && b < |C.arcs| && Extending(C, comp, T, k, b, i, h)
    ensures TrailOk(C, T) && Linked(C, comp, T, k) && AllServed(C, comp, T) && Listed(T, k) && T.pool[k].bucket == b
            && k < |T.extended|
  {
  }

  lemma PrunedIsServed<S>(C: Setup<S>, comp: seq<Bound>, T: Trail<S>, k: nat)
    requires Layout(C) && k < |T.pool| && T.pool[k].bucket < |C.arcs|
             && Pruned(C, comp, T.pool[k].bucket, T.pool[k].node)
    ensures Served(C, comp, T, k)
  {
  }

  lemma RunSizes<S>(C: Setup<S>, T: Trail<S>)
    requires Countable(C) && TrailOk(C, T)
    ensures |T.extended| == |T.pool| && |T.lists| == |C.G.buckets| == |C.id| == |C.arcs| == |C.jumps|
            && |C.groups| == C.count && Layout(C)
  {
  }

  ghost predicate AllExtendedIn<S>(T: Trail<S>, b: nat)
    requires b < |T.lists|
  {
    forall j: nat :: j < |T.lists[b]| ==> T.lists[b][j] < |T.extended| && T.extended[T.lists[b][j]]
  }

  lemma ListMember<S>(C: Setup<S>, T: Trail<S>, b: nat, i: nat)
    requires Countable(C) && TrailOk(C, T) && b < |T.lists| && i < |T.lists[b]|
    ensures Listed(T, T.lists[b][i]) && T.pool[T.lists[b][i]].bucket == b
  {
    assert ListOk(T, b) && T.lists[b][i] in T.lists[b];
  }

  lemma FlagsStay<S>(C: Setup<S>, T: Trail<S>, U: Trail<S>, level: int, b: nat)
    requires Longer(C, T, U, level) && b < |T.lists|
    ensures b < |U.lists| && |T.lists[b]| <= |U.lists[b]|
            && forall j: nat :: j < |T.lists[b]| ==> U.lists[b][j] == T.lists[b][j]
    ensures |U.lists| == |T.lists| && forall k: nat ::
            k < |T.extended| && T.extended[k] ==> k < |U.extended| && U.extended[k]
  {
    assert T.lists[b] <= U.lists[b];
  }

  lemma StillExtended<S>(C: Setup<S>, T: Trail<S>, U: Trail<S>, level: int, b: nat)
    requires Longer(C, T, U, level) && b < |T.lists| && b < |U.lists| && U.lists[b] == T.lists[b] && AllExtendedIn(T, b)
    ensures AllExtendedIn(U, b)
  {
    FlagsStay(C, T, U, level, b);
  }

  lemma GroupOf<S>(C: Setup<S>, scc: nat)
    requires Countable(C) && scc < C.count
    ensures scc < |C.groups| && forall b: nat :: b in C.groups[scc] <==> b < |C.G.buckets| && C.id[b] == scc
  {
  }

  lemma EnumRoot<S>(C: Setup<S>, comp: seq<Bound>, T: Trail<S>, n: Node<S>)
    requires Countable(C) && TrailOk(C, T) && T.pool == [] && (forall b: nat :: b < |T.lists| ==> T.lists[b] == [])
    requires InitialNode(C.P, C.dir) == Some(n)
    ensures n.vertex < C.P.nVertices && Layout(C) && BucketOf(C, n) < |T.lists|
    ensures var U := Trail([Label(n, BucketOf(C, n), -1, 0)], [false], T.lists[BucketOf(C, n) := [0]]);
            && TrailOk(C, U) && Linked(C, comp, U, -1) && AllServed(C, comp, U) && Listed(U, 0)
            && U.pool[0].parent < 0 && DoneFrom(C, U, C.count)
  {
    hide FullArcs;
    BucketIndexFacts(C.P, C.G, n.vertex, n.q);
    var b := BucketOf(C, n);
    var U := Trail([Label(n, b, -1, 0)], [false], T.lists[b := [0]]);
    assert LabelOk(C, U.pool, 0);
    assert U.lists[b][0] == 0;
    forall c: nat | c < |U.lists| ensures ListOk(U, c) {}
  }

  /** The open buckets of the components from scc on are done. */
  ghost predicate DoneFrom<S>(C: Setup<S>, T: Trail<S>, scc: int) {
    |T.lists| == |C.id| && forall b: nat :: b < |T.lists| && C.id[b] >= scc && b !in C.fixed ==> AllExtendedIn(T, b)
  }

  lemma DoneNext<S>(C: Setup<S>, T: Trail<S>, U: Trail<S>, scc: nat)
    requires Countable(C) && scc < |C.groups| && scc < C.count && Longer(C, T, U, scc) && DoneFrom(C, T, scc + 1)
    requires forall b: nat :: b in C.groups[scc] && b !in C.fixed && b < |U.lists| ==> AllExtendedIn(U, b)
    ensures DoneFrom(C, U, scc)
  {
    hide Countable, AllExtendedIn;
    GroupOf(C, scc);
    forall b: nat | b < |U.lists| && C.id[b] >= scc && b !in C.fixed ensures AllExtendedIn(U, b) {
      if C.id[b] > scc { StillExtended(C, T, U, scc, b); } else { LayoutSizes(C); assert b in C.groups[scc]; }
    }
  }

  lemma LayoutSizes<S>(C: Setup<S>)
    requires Countable(C)
    ensures |C.id| == |C.G.buckets|
  {
  }

  lemma RootStays<S>(C: Setup<S>, T: Trail<S>, U: Trail<S>, level: int)
    requires Longer(C, T, U, level) && |T.pool| > 0
    ensures |U.pool| > 0 && U.pool[0] == T.pool[0]
  {
  }

  lemma EnumDone<S>(C: Setup<S>, comp: seq<Bound>, T: Trail<S>)
    requires Countable(C) && TrailOk(C, T) && Linked(C, comp, T, -1) && AllServed(C, comp, T) && DoneFrom(C, T, 0)
    requires Listed(T, 0) && T.pool[0].parent < 0
    ensures Enumerated(C, comp, T)
  {
    hide Linked, AllServed, FullArcs, PoolOk;
    forall k: nat | Listed(T, k) && T.pool[k].bucket !in C.fixed ensures T.extended[k] {
      var b := T.pool[k].bucket;
      assert C.id[b] >= 0 && AllExtendedIn(T, b);
      var i :| 0 <= i < |T.lists[b]| && T.lists[b][i] == k;
    }
  }

  // ----- The enumerated paths -----

  ghost predicate SinkLabel<S>(C: Setup<S>, T: Trail<S>, k: nat) {
    Listed(T, k) && T.pool[k].node.vertex == C.P.top.sink && T.pool[k].node.cost < C.theta
  }

  /** collect_sink_candidates on an enumerated trail: every sink label below theta, once. */
  method CollectAll<S>(C: Setup<S>, T: Trail<S>) returns (found: seq<nat>)
    requires Countable(C) && TrailOk(C, T)
    ensures Distinct(found) && forall k: nat :: k in found <==> SinkLabel(C, T, k)
    ensures |found| <= SinkTotal(C, T.lists)
  {
    hide TopoOrder, Grouped, FullArcs, ArcOrder, JumpsLack;
    var v := C.P.top.sink;
    assert RangeOk(C.P, C.G, C.P.nVertices, v);
    found := [];
    for b := C.G.start[v] to RangeEnd(C.G, v)
      invariant Distinct(found)
      invariant forall k: nat :: k in found <==> SinkLabel(C, T, k) && C.G.start[v] <= T.pool[k].bucket < b
      invariant |found| <= SinkTotal(C, T.lists[..b])
    {
      var more := CollectList(C, T, b);
      assert T.lists[..b + 1][..b] == T.lists[..b];
      ghost var before := found;
      found := found + more;
      forall i: nat, j: nat | i < j < |found| ensures found[i] != found[j] {
        if i < |before| && j >= |before| { assert before[i] in before && more[j - |before|] in more; }
      }
    }
    SinkGrows(C, T.lists, RangeEnd(C.G, v));
    forall k: nat | SinkLabel(C, T, k) ensures C.G.start[v] <= T.pool[k].bucket < RangeEnd(C.G, v) {
      assert LabelOk(C, T.pool, k);
      BucketFacts(C.P, C.G, T.pool[k].bucket);
    }
  }

  method CollectList<S>(C: Setup<S>, T: Trail<S>, b: nat) returns (found: seq<nat>)
    requires Countable(C) && TrailOk(C, T)
    requires C.G.start[C.P.top.sink] <= b < RangeEnd(C.G, C.P.top.sink)
    ensures Distinct(found) && forall k: nat :: k in found <==> SinkLabel(C, T, k) && T.pool[k].bucket == b
    ensures b < |T.lists| && |found| <= |T.lists[b]| && AtSink(C, b)
  {
    hide TopoOrder, Grouped, FullArcs, ArcOrder, JumpsLack;
    assert RangeOk(C.P, C.G, C.P.nVertices, C.P.top.sink);
    assert ListOk(T, b);
    found := [];
    var ids := T.lists[b];
    for i := 0 to |ids|
      invariant Distinct(found)
      invariant forall k: nat :: k in found <==> SinkLabel(C, T, k) && k in ids[..i]
      invariant |found| <= i
    {
      var k := ids[i];
      assert k in ids && ids[..i + 1] == ids[..i] + [k];
      assert LabelOk(C, T.pool, k);
      if T.pool[k].node.cost < C.theta {
        assert k !in found;
        found := found + [k];
      }
    }
    assert ids[..|ids|] == ids;
  }

  function CostOfLabel<S>(pool: seq<Label<S>>): nat -> real { (k: nat) => if k < |pool| then pool[k].node.cost
                          else 0.0 }

  method PathOf<S(!new)>(C: Setup<S>, T: Trail<S>, k: nat) returns (p: Path)
    requires Countable(C) && TrailOk(C, T) && SinkLabel(C, T, k)
    ensures Realises(C.P, p) && p.arcs == Trace(T.pool, k) && p.reducedCost == T.pool[k].node.cost
  {
    hide TopoOrder, Grouped, FullArcs, ArcOrder, Run, InitialNode, Connects;
    forall i: nat | i < |T.pool| ensures T.pool[i].parent < i { assert LabelOk(C, T.pool, i); }
    var vertices, arcs := GetPath(T.pool, k);
    p := Path(vertices, arcs, T.pool[k].node.cost, T.pool[k].node.realCost);
    ChainConnectsIn(C, T.pool, k);
    ghost var n := SoundIn(C, T.pool, k);
    assert FeasibleWalk(C.P, arcs, n);
  }

  /** Each feasible walk of cost below theta is there exactly once, at its cost. */
  ghost predicate ListsAll<S(!new)>(P: Problem<S>, theta: real, paths: seq<Path>) {
    && (forall arcs, z :: FeasibleWalk(P, arcs, z) && z.cost < theta ==> Has(paths, arcs, z.cost))
    && (forall i: nat, j: nat :: i < j < |paths| ==> paths[i].arcs != paths[j].arcs)
  }

  ghost predicate Has(paths: seq<Path>, arcs: seq<nat>, cost: real) {
    exists i: nat :: i < |paths| && paths[i].arcs == arcs && paths[i].reducedCost == cost
  }

  method AllPaths<S(!new)>(C: Setup<S>, ghost comp: seq<Bound>, T: Trail<S>, ids: seq<nat>) returns (paths: seq<Path>)
    requires Countable(C) && TrailOk(C, T) && Linked(C, comp, T, -1) && Distinct(ids)
             && forall k: nat :: k in ids ==> SinkLabel(C, T, k)
    ensures |paths| == |ids|
    ensures forall i: nat ::
            i < |ids| ==> ids[i] < |T.pool| && Realises(C.P, paths[i]) && paths[i].arcs == Trace(T.pool, ids[i])
                                           && paths[i].reducedCost == T.pool[ids[i]].node.cost
    ensures NoJumps(C) || KeepsAll(C) ==> forall i: nat, j: nat :: i < j < |paths| ==> paths[i].arcs != paths[j].arcs
  {
    hide Countable, TrailOk, Realises, Linked, NoJumps, KeepsAll;
    CountableLayout(C);
    paths := [];
    for i := 0 to |ids|
      invariant |paths| == i
      invariant forall j: nat ::
                j < i ==> ids[j] < |T.pool| && Realises(C.P, paths[j]) && paths[j].arcs == Trace(T.pool, ids[j])
                                           && paths[j].reducedCost == T.pool[ids[j]].node.cost
    {
      assert ids[i] in ids;
      var p := PathOf(C, T, ids[i]);
      paths := paths + [p];
    }
    if NoJumps(C) || KeepsAll(C) {
      forall i: nat, j: nat | i < j < |paths| ensures paths[i].arcs != paths[j].arcs {
        assert ids[i] in ids && ids[j] in ids;
        DifferentPaths(C, comp, T, ids[i], ids[j]);
      }
    }
  }

  lemma DifferentPaths<S(!new)>(C: Setup<S>, comp: seq<Bound>, T: Trail<S>, j: nat, k: nat)
    requires Countable(C) && TrailOk(C, T) && Linked(C, comp, T, -1) && SinkLabel(C, T, j) && SinkLabel(C, T, k)
             && j != k
    requires NoJumps(C) || KeepsAll(C)
    ensures Trace(T.pool, j) != Trace(T.pool, k)
  {
    hide TopoOrder, Grouped, FullArcs, ArcOrder, Linked, NoJumps, KeepsAll, JumpsLack, Run, GridUpTo, Extend;
    var n := SoundIn(C, T.pool, j);
    assert Trace(T.pool, j) + [] == Trace(T.pool, j);
    assert Straight(C, Trace(T.pool, j), []);
    if Trace(T.pool, j) == Trace(T.pool, k) { TraceUnique(C, comp, T, -1, j, k, []); }
  }

  ghost predicate PathsOf<S>(T: Trail<S>, ids: seq<nat>, paths: seq<Path>) {
    |paths| == |ids| && forall i: nat ::
        i < |ids| ==>
          ids[i] < |T.pool| && paths[i].arcs == Trace(T.pool, ids[i])
          && paths[i].reducedCost == T.pool[ids[i]].node.cost
  }

  lemma AllListed<S(!new)>(C: Setup<S>, comp: seq<Bound>, T: Trail<S>, ids: seq<nat>, paths: seq<Path>)
    requires Enumerated(C, comp, T) && PrunesNothing(C, comp) && KeepsAll(C)
    requires (forall k: nat :: SinkLabel(C, T, k) ==> k in ids) && PathsOf(T, ids, paths)
    requires forall i: nat, j: nat :: i < j < |paths| ==> paths[i].arcs != paths[j].arcs
    ensures ListsAll(C.P, C.theta, paths)
  {
    hide Enumerated, PrunesNothing, KeepsAll, Run;
    forall arcs, z | FeasibleWalk(C.P, arcs, z) && z.cost < C.theta ensures Has(paths, arcs, z.cost) {
      var k := EachWalkOnce(C, comp, T, arcs, z);
      assert SinkLabel(C, T, k);
      var i :| 0 <= i < |ids| && ids[i] == k;
    }
  }

  /** When a bound prunes a label on the way of a walk below theta, that walk is not listed. */
  lemma NothingPruned<S(!new)>(C: Setup<S>, comp: seq<Bound>, T: Trail<S>, ids: seq<nat>, paths: seq<Path>)
    requires Enumerated(C, comp, T) && KeepsAll(C) && ListsAll(C.P, C.theta, paths) && PathsOf(T, ids, paths)
    requires forall k: nat :: k in ids ==> Listed(T, k)
    ensures PrunesNothing(C, comp)
  {
    hide TopoOrder, Grouped, FullArcs, Extend, AllServed, Linked, Run, ListOk, JumpsLack, ArcOrder, Pruned, KeepsAll,
         GridUpTo, Passes;
    forall p, n, t | TrueLabel(C, p, n, n) && Completes(C, n, t) && (p != [] || t != []) ensures Passes(C, comp, n) {
      var z := Run(C.P, C.dir, n, t).value;
      RunAppend(C.P, C.dir, InitialNode(C.P, C.dir).value, p, t);
      assert FeasibleWalk(C.P, p + t, z);
      assert Has(paths, p + t, z.cost);
      var i: nat :| i < |paths| && paths[i].arcs == p + t;
      assert ids[i] in ids;
      StoredPasses(C, comp, T, p, n, t, ids[i]);
    }
  }

  /** T is what a run leaves: every label from its parent, every extended label fully extended or pruned. */
  ghost predicate Trailed<S>(C: Setup<S>, comp: seq<Bound>, T: Trail<S>)
    requires Countable(C)
  {
    TrailOk(C, T) && Linked(C, comp, T, -1) && AllServed(C, comp, T)
  }

  /** As many labels, or sink labels, are stored as one of the caps allows; of the caps, those on the whole run. */
  predicate Capped<S>(C: Setup<S>, T: Trail<S>, maxLabels: nat, maxPaths: nat) {
    Total(T.lists) >= ENUM_CAP || OverLimit(C, T, maxLabels, maxPaths)
  }

  predicate OverLimit<S>(C: Setup<S>, T: Trail<S>, maxLabels: nat, maxPaths: nat) {
    || Total(T.lists) >= maxLabels
    || (maxPaths > 0 && SinkTotal(C, T.lists) - FirstAtSink(C, T.pool) >= maxPaths)
  }

  /** The sink labels below theta, each once. */
  ghost predicate AllFound<S>(C: Setup<S>, T: Trail<S>, found: seq<nat>) {
    Distinct(found) && forall k: nat :: k in found <==> SinkLabel(C, T, k)
  }

  /** The paths are the cheapest sink labels below theta, as many of them as are wanted. */
  ghost predicate EnumAnswers<S(!new)>(C: Setup<S>, T: Trail<S>, maxPaths: nat, paths: seq<Path>) {
    exists found, ids ::
      AllFound(C, T, found) && CheapestOf(CostOfLabel(T.pool), found, maxPaths, ids) && PathsOf(T, ids, paths)
  }

  lemma EnumAnswersBy<S(!new)>(C: Setup<S>, T: Trail<S>, maxPaths: nat, found: seq<nat>, ids: seq<nat>,
                               paths: seq<Path>)
    requires AllFound(C, T, found) && CheapestOf(CostOfLabel(T.pool), found, maxPaths, ids) && PathsOf(T, ids, paths)
    ensures EnumAnswers(C, T, maxPaths, paths)
  {
  }

  /** The sink labels below theta, cheapest first, up to the limit; all says that none has been left out. */
  method CheapestFound<S(!new)>(C: Setup<S>, ghost comp: seq<Bound>, T: Trail<S>, maxPaths: nat)
    returns (ids: seq<nat>, all: bool, ghost found: seq<nat>)
    requires Countable(C) && TrailOk(C, T) && Linked(C, comp, T, -1) && InitialNode(C.P, C.dir).Some?
    ensures Distinct(ids) && SortedBy(CostOfLabel(T.pool), ids) && forall k: nat :: k in ids ==> SinkLabel(C, T, k)
    ensures all ==> forall k: nat :: SinkLabel(C, T, k) ==> k in ids
    ensures AllFound(C, T, found) && CheapestOf(CostOfLabel(T.pool), found, maxPaths, ids)
    ensures (all <==> maxPaths == 0 || |found| <= maxPaths) && |found| <= SinkTotal(C, T.lists)
    ensures !Passes(C, comp, InitialNode(C.P, C.dir).value) && maxPaths != 1 ==> all
  {
    hide Countable, TrailOk, Linked, Passes, InitialNode;
    CountableLayout(C);
    var labels := CollectAll(C, T);
    found := labels;
    if !Passes(C, comp, InitialNode(C.P, C.dir).value) { FewFound(C, comp, T, found); }
    var sorted := SortBy(CostOfLabel(T.pool), labels);
    PermutationFacts(sorted, found);
    ids, all := sorted, true;
    if maxPaths > 0 && |sorted| > maxPaths { ids, all := sorted[..maxPaths], false; }
    assert forall k: nat :: k in ids ==> k in sorted;
    assert sorted[..|sorted|] == sorted;
    CutLabels(CostOfLabel(T.pool), found, sorted, maxPaths);
  }

  lemma CutLabels(key: nat -> real, found: seq<nat>, sorted: seq<nat>, maxPaths: nat)
    requires multiset(sorted) == multiset(found) && |sorted| == |found| && SortedBy(key, sorted) && Distinct(found)
    ensures CheapestOf(key, found, maxPaths, sorted[..Wanted(|found|, maxPaths)])
  {
    PermutationFacts(sorted, found);
    var limit := Wanted(|found|, maxPaths);
    var ids := sorted[..limit];
    assert forall i: nat :: i < |ids| ==> ids[i] in sorted && sorted[i] in ids;
    forall c, d | c in found && c !in ids && d in ids ensures key(d) <= key(c) {
      var i :| 0 <= i < |sorted| && sorted[i] == c;
      var j :| 0 <= j < limit && ids[j] == d;
      assert key(sorted[j]) <= key(sorted[i]);
    }
  }

  /**
   * solve_mono in the Enumerate stage. If enumeration reports that it is complete, and no arc or bucket is missing
   * that a walk below theta needs, the result holds every feasible walk of cost below theta exactly once if and
   * only if the bounds prune no label on the way of such a walk. Jump arcs do not repeat a walk. When the first
   * label is pruned, enumeration calls itself complete. It does not do so only when as many labels, or as many sink
   * labels, are stored as a cap allows, which takes as many feasible partial paths or jump arcs. The paths are the
   * cheapest sink labels below theta, as many as are wanted.
   */
  method EnumerateMono<S(!new)>(C: Setup<S>, comp: seq<Bound>, maxLabels: nat, maxPaths: nat)
    returns (paths: seq<Path>, complete: bool, ghost T: Trail<S>)
    requires Countable(C)
    ensures EnumAnswers(C, T, maxPaths, paths) && FirstAtSink(C, T.pool) <= SinkTotal(C, T.lists)
    ensures Trailed(C, comp, T) && (InitialNode(C.P, C.dir).Some? ==>
              (complete || !Capped(C, T, maxLabels, maxPaths) ==> Enumerated(C, comp, T)))
    ensures InitialNode(C.P, C.dir).Some? ==>
              (!Capped(C, T, maxLabels, maxPaths) ==> complete) && (complete ==> !OverLimit(C, T, maxLabels, maxPaths))
    ensures InitialNode(C.P, C.dir).None? ==> complete && paths == []
    ensures NoJumps(C) && maxPaths == 0 && FewPartial(C.P, C.dir, ENUM_CAP) && FewPartial(C.P, C.dir, maxLabels) ==>
              complete
    ensures forall i: nat :: i < |paths| ==> Realises(C.P, paths[i]) && paths[i].reducedCost < C.theta
    ensures forall i: nat, j: nat :: i < j < |paths| ==> paths[i].reducedCost <= paths[j].reducedCost
    ensures NoJumps(C) || KeepsAll(C) ==> forall i: nat, j: nat :: i < j < |paths| ==> paths[i].arcs != paths[j].arcs
    ensures complete && KeepsAll(C) ==> (ListsAll(C.P, C.theta, paths) <==> PrunesNothing(C, comp))
    ensures InitialNode(C.P, C.dir).Some? && !Passes(C, comp, InitialNode(C.P, C.dir).value) ==>
              (maxLabels > 1 && maxPaths != 1 ==> complete)
  {
    hide Countable, TrailOk, Enumerated, PrunesNothing, KeepsAll, ListsAll, Realises, InitialNode, Linked, AllServed,
         NoJumps, Trace, Passes, Total, SinkTotal, EnumAnswers, AllFound, CheapestOf, FewPartial;
    CountableLayout(C);
    var run := new EnumerationRun(C, comp, maxLabels, maxPaths);
    var started := run.Run();
    complete := run.complete;
    paths := [];
    T := Trail(run.pool, run.extended, run.lists);
    if !started {
      NothingToList(C, comp);
      NoneFound(C, T, maxPaths);
      return;
    }
    var all;
    ghost var found;
    paths, all, found := PathsFound(C, comp, Trail(run.pool, run.extended, run.lists), maxPaths);
    complete := complete && all;
    SinksWithin(C, T.lists);
    if !Passes(C, comp, InitialNode(C.P, C.dir).value) { RootTotal(C, comp, T); }
    if NoJumps(C) && FewPartial(C.P, C.dir, ENUM_CAP) { FewListed(C, comp, T, ENUM_CAP); }
    if NoJumps(C) && FewPartial(C.P, C.dir, maxLabels) { FewListed(C, comp, T, maxLabels); }
  }

  /** collect_sink_candidates, selection and realisation after the run. */
  method PathsFound<S(!new)>(C: Setup<S>, ghost comp: seq<Bound>, T: Trail<S>, maxPaths: nat)
    returns (paths: seq<Path>, all: bool, ghost found: seq<nat>)
    requires Countable(C) && TrailOk(C, T) && Linked(C, comp, T, -1) && InitialNode(C.P, C.dir).Some?
    ensures EnumAnswers(C, T, maxPaths, paths)
    ensures (all <==> maxPaths == 0 || |found| <= maxPaths) && |found| <= SinkTotal(C, T.lists)
    ensures !Passes(C, comp, InitialNode(C.P, C.dir).value) && maxPaths != 1 ==> all
    ensures forall i: nat :: i < |paths| ==> Realises(C.P, paths[i]) && paths[i].reducedCost < C.theta
    ensures forall i: nat, j: nat :: i < j < |paths| ==> paths[i].reducedCost <= paths[j].reducedCost
    ensures NoJumps(C) || KeepsAll(C) ==> forall i: nat, j: nat :: i < j < |paths| ==> paths[i].arcs != paths[j].arcs
    ensures all && Enumerated(C, comp, T) && KeepsAll(C) ==>
              (ListsAll(C.P, C.theta, paths) <==> PrunesNothing(C, comp))
  {
    hide Countable, TrailOk, Enumerated, PrunesNothing, KeepsAll, ListsAll, Realises, InitialNode, Linked, NoJumps,
         Trace, Passes, EnumAnswers, AllFound, CheapestOf;
    CountableLayout(C);
    var ids;
    ids, all, found := CheapestFound(C, comp, T, maxPaths);
    paths := AllPaths(C, comp, T, ids);
    EnumAnswersBy(C, T, maxPaths, found, ids, paths);
    forall i: nat, j: nat | i < j < |paths| ensures paths[i].reducedCost <= paths[j].reducedCost {
      assert CostOfLabel(T.pool)(ids[i]) <= CostOfLabel(T.pool)(ids[j]);
    }
    forall i: nat | i < |paths| ensures paths[i].reducedCost < C.theta { assert ids[i] in ids; }
    if all && Enumerated(C, comp, T) && KeepsAll(C) {
      if PrunesNothing(C, comp) { AllListed(C, comp, T, ids, paths); }
      if ListsAll(C.P, C.theta, paths) { NothingPruned(C, comp, T, ids, paths); }
    }
  }

  lemma NoneFound<S(!new)>(C: Setup<S>, T: Trail<S>, maxPaths: nat)
    requires T.pool == []
    ensures EnumAnswers(C, T, maxPaths, [])
  {
    EnumAnswersBy(C, T, maxPaths, [], [], []);
  }

  lemma NothingToList<S(!new)>(C: Setup<S>, comp: seq<Bound>)
    requires Countable(C) && InitialNode(C.P, C.dir).None?
    ensures ListsAll(C.P, C.theta, []) && PrunesNothing(C, comp)
  {
    hide TopoOrder, Grouped, FullArcs, ArcOrder, GridUpTo;
  }

  /** The completion bounds of a nested bucket graph that keeps what walks up to theta need prune none of them. */
  lemma NestedPrunesNothing<S(!new)>(C: Setup<S>, exact: seq<Bound>, comp: seq<Bound>)
    requires SetupOk(C) && ArcsNested(C) && Preserves(C, C.theta) && BoundsOfWalks(C, exact, comp)
    ensures PrunesNothing(C, comp)
  {
    hide TopoOrder, Grouped, Disposable, Extend, GridUpTo, Run, BoundsOfWalks, ArcsNested, Preserves;
    forall p, n, t | TrueLabel(C, p, n, n) && Completes(C, n, t) ensures Passes(C, comp, n) {
      TrueAnchored(C, p, n, n);
      var e := KeptBounds(C, C.theta, exact, comp, p, n, n, t);
      RunCost(C.P, C.dir, n, t);
    }
  }

  lemma PreservedIsKept<S(!new)>(C: Setup<S>)
    requires SetupOk(C) && Preserves(C, C.theta)
    ensures KeepsAll(C)
  {
    hide TopoOrder, Grouped, Disposable, Run, GridUpTo, HasArc, FullArcs;
    forall p, n, t | TrueLabel(C, p, n, n) && Finishes(C, C.theta, n, t) ensures KeepsStep(C, n, t) {
      assert KeepsNext(C, n, t);
    }
  }

  /**
   * solve_mono in the Enumerate stage with the completion bounds it computes first. On the bucket graph as built, and
   * on one reduced for a gap of at least theta that has stayed nested, a complete enumeration is exact.
   */
  method EnumerateBelow<S(!new)>(C: Setup<S>, maxLabels: nat, maxPaths: nat)
    returns (paths: seq<Path>, complete: bool, ghost T: Trail<S>, ghost bounds: seq<Bound>)
    requires SetupOk(C) && Countable(C) && ArcsNested(C) && Preserves(C, C.theta) && NoNegativeCycle(C)
    ensures forall i: nat :: i < |paths| ==> Realises(C.P, paths[i]) && paths[i].reducedCost < C.theta
    ensures forall i: nat, j: nat ::
            i < j < |paths| ==> paths[i].reducedCost <= paths[j].reducedCost && paths[i].arcs != paths[j].arcs
    ensures complete ==> ListsAll(C.P, C.theta, paths)
    ensures Trailed(C, bounds, T) && (InitialNode(C.P, C.dir).Some? ==>
              (complete || !Capped(C, T, maxLabels, maxPaths) ==> Enumerated(C, bounds, T)))
    ensures exists exact :: BoundsOfWalks(C, exact, bounds)
    ensures EnumAnswers(C, T, maxPaths, paths) && FirstAtSink(C, T.pool) <= SinkTotal(C, T.lists)
    ensures InitialNode(C.P, C.dir).Some? ==>
              (!Capped(C, T, maxLabels, maxPaths) ==> complete) && (complete ==> !OverLimit(C, T, maxLabels, maxPaths))
    ensures InitialNode(C.P, C.dir).None? ==> complete && paths == []
    ensures NoJumps(C) && maxPaths == 0 && FewPartial(C.P, C.dir, ENUM_CAP) && FewPartial(C.P, C.dir, maxLabels) ==>
              complete && ListsAll(C.P, C.theta, paths)
  {
    hide SetupOk, Countable, ArcsNested, Preserves, NoNegativeCycle, PrunesNothing, KeepsAll, ListsAll, Realises,
         BoundsOfWalks, NoJumps, FewPartial, EnumAnswers, Trailed, Enumerated, Capped, OverLimit;
    var comp, exact := ComputeCompletion(C);
    bounds := comp;
    NestedPrunesNothing(C, exact, comp);
    PreservedIsKept(C);
    paths, complete, T := EnumerateMono(C, comp, maxLabels, maxPaths);
  }
}
