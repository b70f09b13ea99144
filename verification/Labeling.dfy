/** The labeling loop in the Exact stage (try_insert_label, batch_try_insert, process_batch, process_scc). */
module Labeling {
  import opened Types
  import opened Resources
  import opened Problems
  import opened Grids
  import opened BucketArcs
  import opened BucketOrder
  import opened Sorting
  import opened LabelStores
  import opened LabelingSpec
  import opened LabelingSteps
  import opened LabelCounts
  import opened CBests
  import opened Clearances
  import opened Exactness

  /** One direction of the bucket graph during a solve. */
  class LabelingRun<S(!new)> {
    const C: Setup<S>
    var pool: seq<Label<S>>
    var dominated: seq<bool>
    var extended: seq<bool>
    var rows: seq<Row>
    var cBest: seq<Bound>
    var vertexMin: seq<Bound>

    ghost function State(): Store<S>
      reads this
    {
      Store(pool, dominated, extended, rows)
    }

    ghost predicate Valid()
      reads this
    {
      SetupOk(C) && StoreOk(C, State()) && |cBest| == |C.G.buckets| && |vertexMin| == C.P.nVertices
    }

    /** reset_label_storage and reset_c_best: nothing is stored. */
    constructor (C: Setup<S>)
      requires SetupOk(C)
      ensures this.C == C && Valid() && pool == []
      ensures forall b: nat :: b < |rows| ==> rows[b] == EMPTY_ROW
      ensures BoundsOk(C, pool, rows, cBest, vertexMin, C.count)
    {
      hide Disposable, Grouped;
      this.C := C;
      pool, dominated, extended := [], [], [];
      rows := seq(|C.G.buckets|, b => EMPTY_ROW);
      cBest := seq(|C.G.buckets|, b => Inf);
      vertexMin := seq(C.P.nVertices, v => Inf);
    }

    // ----- Insertion -----

    ghost predicate Beaten(k: nat, i: nat, ids: seq<nat>)
      requires k < |pool| && i < |pool|
      reads this
    {
      i in ids && Dominates(C.P, C.dir, pool[k].node, pool[i].node)
    }

    /** try_insert_label: stored iff its bucket is open and no stored label there dominates it. */
    method TryInsert(k: nat, ghost level: int) returns (inserted: bool)
      requires Valid() && Fresh(State(), k) && pool[k].bucket < |C.id| && C.id[pool[k].bucket] <= level
      requires Kept(C, pool[k].node)
      modifies this`rows, this`dominated
      ensures Valid() && Grows(C, old(State()), State(), level)
      ensures inserted <==> pool[k].bucket !in C.fixed
                            && !old(DominatedIn(C.P, C.dir, pool, dominated, rows[pool[k].bucket], pool[k].node))
      ensures pool[k].bucket !in C.fixed ==> Covered(C, State(), pool[k].node)
      ensures !inserted ==> rows == old(rows) && dominated == old(dominated)
      ensures Stored(rows) == Stored(old(rows)) + if inserted then 1 else 0
      ensures forall i: nat ::
              i < |pool| ==>
                dominated[i] == (old(dominated[i]) || (inserted && Beaten(k, i, old(rows[pool[k].bucket].ids))))
      ensures FrameOf(C, old(State()), State(), pool[k].bucket)
      ensures inserted ==> forall i: nat ::
               i in rows[pool[k].bucket].ids <==> i == k || i in old(rows[pool[k].bucket].ids)
    {
      hide Dominates, Stored, Grows, DominatedIn, Covered, LabelOk, RowIn, FrameOf;
      ghost var s := State();
      GrowsSelf(C, s, level);
      FrameSelf(C, s, s.pool[k].bucket);
      StoreFacts(C, s, k);
      var b := pool[k].bucket;
      if b in C.fixed { return false; }
      var n := pool[k].node;
      var found := DominatedInBucketFrom(C.P, C.dir, pool, dominated, rows[b], n, 0);
      if found {
        CoveredByRow(C, s, b, n);
        return false;
      }
      var marked := RemoveDominated(C.P, C.dir, pool, dominated, rows[b], n);
      var row := InsertSorted(C.P, pool, rows[b], k);
      Inserted(C, s, b, row, marked, k, level);
      StoredUpdate(rows, b, row);
      dominated := marked;
      rows := rows[b := row];
      return true;
    }

    /** batch_try_insert: a group of labels for the same bucket. */
    method InsertGroup(group: seq<nat>, b: nat, ghost level: int) returns (inserted: nat)
      requires Valid() && b < |C.id| && C.id[b] <= level
      requires Distinct(group) && forall i: nat ::
               i < |group| ==> Fresh(State(), group[i]) && pool[group[i]].bucket == b && Kept(C, pool[group[i]].node)
      modifies this`rows, this`dominated
      ensures Valid() && Grows(C, old(State()), State(), level)
      ensures b !in C.fixed ==>
                forall i: nat :: i < |group| ==> group[i] < |pool| && Covered(C, State(), pool[group[i]].node)
      ensures b !in C.fixed ==> forall k: nat ::
               k in rows[b].ids <==> k in old(rows[b].ids) || (k in group && k < |dominated| && !dominated[k])
      ensures b !in C.fixed ==> forall h, i ::
               h in old(rows[b].ids) && i in group ==>
                 Apart(C.P, C.dir, pool, dominated, h, i) && Apart(C.P, C.dir, pool, dominated, i, h)
      ensures |rows[b].ids| == |old(rows[b].ids)| + inserted && (inserted == 0 ==> rows == old(rows))
      ensures Stored(rows) == Stored(old(rows)) + inserted
      ensures FrameOf(C, old(State()), State(), b)
    {
      hide Dominates, Stored, Grows, Covered, LabelOk, RowIn, RowTidy, Kept, Fresh, KillsCovered, Apart, RowApart,
           BatchApart;
      ghost var s := State();
      inserted := 0;
      GrowsSelf(C, s, level);
      if b in C.fixed { return; }
      if |group| == 0 { return; }
      GroupFacts(C, s, group, b);
      var marked, row, n, batch := BatchInsert(C.P, C.dir, pool, dominated, rows[b], group);
      TidyAfterBatch(C, s, b, row, marked, group, batch);
      InsertedGroup(C, s, b, row, marked, group, level);
      StoredUpdate(rows, b, row);
      dominated := marked;
      rows := rows[b := row];
      inserted := n;
    }

    /** One group of process_batch: a single label goes the ordinary way. */
    method InsertBucketGroup(group: seq<nat>, b: nat, ghost level: int) returns (inserted: nat)
      requires Valid() && |group| >= 1 && Distinct(group)
      requires forall i: nat :: i < |group| ==> Offered(C, State(), group[i], level) && pool[group[i]].bucket == b
      modifies this`rows, this`dominated
      ensures Valid() && Grows(C, old(State()), State(), level)
      ensures forall i: nat :: i < |group| ==> Settles(C, State(), group[i])
      ensures inserted == 0 ==> rows == old(rows)
      ensures Stored(rows) == Stored(old(rows)) + inserted
      ensures FrameOf(C, old(State()), State(), b)
    {
      hide Dominates, Stored, Grows, Covered, LabelOk, RowIn, Fresh;
      forall i: nat | i < |group| ensures group[i] < |pool| && pool[group[i]].bucket == b {
        OfferFacts(C, State(), group[i], level);
      }
      assert Offered(C, State(), group[0], level);
      if |group| == 1 {
        var stored := TryInsert(group[0], level);
        inserted := if stored then 1 else 0;
        assert forall i: nat :: i < |group| ==> group[i] == group[0];
      } else {
        inserted := InsertGroup(group, b, level);
      }
    }

    /** process_batch: sort the buffer by bucket and insert group by group. */
    method ProcessBatch(buf: seq<nat>, ghost level: int) returns (inserted: nat)
      requires Valid() && Distinct(buf)
      requires forall i: nat :: i < |buf| ==> Offered(C, State(), buf[i], level)
      modifies this`rows, this`dominated
      ensures Valid() && Grows(C, old(State()), State(), level)
      ensures forall i: nat :: i < |buf| ==> Settles(C, State(), buf[i])
      ensures inserted == 0 ==> rows == old(rows)
      ensures Stored(rows) == Stored(old(rows)) + inserted
    {
      hide Dominates, Stored, Grows, Covered, StoreOk, SetupOk, Fresh, Offered, Settles, FrameOf;
      ghost var s := State();
      StoreSizes(C, s);
      GrowsSelf(C, s, level);
      inserted := 0;
      if |buf| == 0 { return; }
      var sorted := SortBy(BucketKey(pool), buf);
      SortedOffers(C, s, buf, sorted, level);
      var start: nat := 0;
      while start < |sorted|
        invariant start <= |sorted| && Valid() && Grows(C, s, State(), level)
        invariant pool == s.pool && extended == s.extended
        invariant forall i: nat :: i < start ==> Settles(C, State(), sorted[i])
        invariant forall i: nat :: start <= i < |sorted| ==> Offered(C, State(), sorted[i], level)
        invariant inserted == 0 ==> rows == s.rows
        invariant Stored(rows) == Stored(s.rows) + inserted
        decreases |sorted| - start
      {
        var b := pool[sorted[start]].bucket;
        var end := GroupEnd(sorted, start, b);
        ghost var t := State();
        var group := sorted[start..end];
        var n := InsertBucketGroup(group, b, level);
        forall i: nat | start <= i < end ensures Settles(C, State(), sorted[i]) {
          assert sorted[i] == group[i - start];
        }
        AfterGroup(C, s, t, State(), sorted, start, end, b, level);
        inserted := inserted + n;
        start := end;
      }
      forall i: nat | i < |buf| ensures Settles(C, State(), buf[i]) {
        assert buf[i] in buf;
        var j :| 0 <= j < |sorted| && sorted[j] == buf[i];
      }
    }

    /** The scan for the end of a group. */
    method GroupEnd(sorted: seq<nat>, start: nat, b: nat) returns (end: nat)
      requires start < |sorted| && forall i: nat :: i < |sorted| ==> sorted[i] < |pool|
      requires pool[sorted[start]].bucket == b
      ensures start < end <= |sorted|
      ensures forall i: nat :: start <= i < end ==> pool[sorted[i]].bucket == b
      ensures end < |sorted| ==> pool[sorted[end]].bucket != b
    {
      end := start + 1;
      while end < |sorted| && pool[sorted[end]].bucket == b
        invariant start < end <= |sorted|
        invariant forall i: nat :: start <= i < end ==> pool[sorted[i]].bucket == b
      {
        end := end + 1;
      }
    }

    // ----- Extension -----

    /** extend_label, for bucket arcs and for jump arcs: a feasible child is allocated in the pool. */
    method ExtendLabel(k: nat, a: nat, base: Vec, ghost level: int) returns (child: Option<nat>)
      requires Valid() && k < |pool| && pool[k].bucket < |C.id| && level == C.id[pool[k].bucket]
      requires Move(C, pool[k].bucket, pool[k].node, a, base)
      modifies this`pool, this`dominated, this`extended
      ensures Valid() && Grows(C, old(State()), State(), level)
      ensures child.Some? <==> old(Extend(C.P, C.dir, pool[k].node, a, base)).Some?
      ensures child.None? ==> pool == old(pool) && dominated == old(dominated) && extended == old(extended)
      ensures child.Some? ==> child.value == old(|pool|) && |pool| == old(|pool|) + 1
      ensures child.Some? ==> pool[child.value].parent == k && pool[child.value].arc == a
      ensures Added(old(pool), pool, k, a)
      ensures child.Some? ==>
                Born(C, State(), child.value, level) && IsLabel(C, State(), child.value, pool[child.value].node)
      ensures child.Some? ==> old(Extend(C.P, C.dir, pool[k].node, a, base)) == Some(pool[child.value].node)
      ensures forall i: nat :: old(Offered(C, State(), i, level)) ==> Offered(C, State(), i, level)
      ensures Appends(old(State()), State())
    {
      hide Dominates, Stored, Grows, Covered, LabelOk, RowIn, RowTidy, Move, Extend;
      ghost var s := State();
      GrowsSelf(C, s, level);
      var m := Extend(C.P, C.dir, pool[k].node, a, base);
      if m.None? { return None; }
      ChildOk(C, s, k, a, base, Label(m.value, 0, k, a));
      var L := Label(m.value, BucketOf(C, m.value), k, a);
      ChildOk(C, s, k, a, base, L);
      pool, dominated, extended := pool + [L], dominated + [false], extended + [false];
      Allocated(C, s, State(), L, level);
      return Some(|pool| - 1);
    }

    /** has_compatible_opposite. */
    method HasCompatibleOpposite(n: Node<S>) returns (found: bool)
      requires SetupOk(C) && C.opposite.Some? && n.vertex < C.P.nVertices
      ensures found <==> HasOpposite(C, n)
    {
      hide OppositeThrough, TopoOrder, Grouped;
      var v := n.vertex;
      if v == C.P.top.source || v == C.P.top.sink { return true; }
      ArcsAtMembers(C.P, Forward, v, C.P.nArcs);
      var arcs := C.out[v];
      for i := 0 to |arcs|
        invariant forall j: nat :: j < i ==> C.P.top.to(arcs[j]) < |C.opposite.value| && !OppositeThrough(C, n, arcs[j])
      {
        assert arcs[i] in arcs;
        if OppositeThrough(C, n, arcs[i]) { return true; }
      }
      forall a: nat | a < C.P.nArcs && C.P.top.from(a) == v ensures !OppositeThrough(C, n, a) {
        assert a in arcs;
        var i :| 0 <= i < |arcs| && arcs[i] == a;
      }
      return false;
    }

    /** The pre-filter lambda of process_scc. */
    method PreFilter(n: Node<S>) returns (keep: bool)
      requires SetupOk(C) && n.vertex < C.P.nVertices
      ensures keep <==> Kept(C, n)
    {
      if C.opposite.Some? && PastMid(C, n.q) {
        keep := HasCompatibleOpposite(n);
      } else {
        keep := true;
      }
    }

    /** One step of the sequential path: extend, filter, insert. */
    method OfferChild(k: nat, a: nat, base: Vec, ghost level: int) returns (inserted: nat)
      requires Valid() && k < |pool| && pool[k].bucket < |C.id| && level == C.id[pool[k].bucket]
      requires Move(C, pool[k].bucket, pool[k].node, a, base)
      modifies this`pool, this`dominated, this`extended, this`rows
      ensures Valid() && Grows(C, old(State()), State(), level)
      ensures ChildDone(C, State(), old(pool[k].node), a, base)
      ensures inserted == 0 ==> rows == old(rows)
      ensures Stored(rows) == Stored(old(rows)) + inserted
      ensures Added(old(pool), pool, k, a)
      ensures Appends(old(State()), State())
    {
      hide Dominates, Stored, Grows, Covered, StoreOk, Move, Extend, Fresh, FrameOf, Kept;
      ghost var s := State();
      inserted := 0;
      var child := ExtendLabel(k, a, base, level);
      if child.None? { return; }
      ghost var t := State();
      var keep := PreFilter(pool[child.value].node);
      if !keep { return; }
      var stored := TryInsert(child.value, level);
      inserted := if stored then 1 else 0;
      RowMembers(C, s);
      GrowsTrans(C, s, t, State(), level);
    }

    /** One step of the batch path: extend, filter, put in the buffer, flush a full buffer. */
    method CollectChild(k: nat, a: nat, base: Vec, buf: seq<nat>, ghost level: int)
      returns (more: seq<nat>, inserted: nat)
      requires Valid() && k < |pool| && pool[k].bucket < |C.id| && level == C.id[pool[k].bucket]
      requires Move(C, pool[k].bucket, pool[k].node, a, base)
      requires Distinct(buf) && forall i: nat :: i < |buf| ==> Offered(C, State(), buf[i], level)
      modifies this`pool, this`dominated, this`extended, this`rows
      ensures Valid() && Grows(C, old(State()), State(), level)
      ensures Distinct(more) && forall i: nat :: i < |more| ==> Offered(C, State(), more[i], level)
      ensures ChildPending(C, State(), more, old(pool[k].node), a, base)
      ensures BufferStep(C, State(), buf, more)
      ensures inserted == 0 ==> rows == old(rows)
      ensures Stored(rows) == Stored(old(rows)) + inserted
      ensures Added(old(pool), pool, k, a)
      ensures Appends(old(State()), State())
    {
      hide Dominates, Stored, Grows, Covered, LabelOk, RowIn, RowTidy, Move, Extend, FrameOf, Kept, Settles;
      ghost var s := State();
      more, inserted := buf, 0;
      var child := ExtendLabel(k, a, base, level);
      if child.None? { return; }
      ghost var t := State();
      var keep := PreFilter(pool[child.value].node);
      if !keep { return; }
      more := buf + [child.value];
      assert more[|buf|] == child.value;
      if |more| == 128 {
        inserted := ProcessBatch(more, level);
        Flushed(C, t, State(), level, more, s.pool[k].node, a, base);
        RowMembers(C, s);
        GrowsTrans(C, s, t, State(), level);
        forall i: nat | i < |buf| ensures Settles(C, State(), buf[i]) { assert more[i] == buf[i]; }
        more := [];
      }
    }

    /** Label k of bucket b, found in state s, has been extended along the first i bucket arcs and j jump arcs. */
    ghost predicate Expanding(s: Store<S>, k: nat, b: nat, buf: seq<nat>, i: nat, j: nat)
      requires b < |C.arcs| && b < |C.jumps| && b < |C.id|
      reads this
    {
      && Valid() && StoreOk(C, s) && Grows(C, s, State(), C.id[b]) && Appends(s, State())
      && k < |s.pool| && k < |pool| && pool[k] == s.pool[k] && pool[k].bucket == b && !PastMid(C, pool[k].node.q)
      && b !in C.fixed && Distinct(buf) && (forall h: nat :: h < |buf| ==> Offered(C, State(), buf[h], C.id[b]))
      && i <= |C.arcs[b]| && j <= |C.jumps[b]|
      && Pending(C, State(), buf, pool[k].node, b, i, j)
      && Births(s.pool, pool, k, C.arcs[b], i, Plain(C))
    }

    method StepArc(k: nat, b: nat, batch: bool, buf: seq<nat>, i: nat, ghost s: Store<S>)
      returns (more: seq<nat>, inserted: nat)
      requires b < |C.arcs| && b < |C.jumps| && b < |C.id| && i < |C.arcs[b]|
      requires Expanding(s, k, b, buf, i, 0) && (!batch ==> buf == [])
      modifies this`pool, this`dominated, this`extended, this`rows
      ensures Expanding(s, k, b, more, i + 1, 0) && (!batch ==> more == [])
      ensures inserted == 0 ==> rows == old(rows)
      ensures Stored(rows) == Stored(old(rows)) + inserted
    {
      hide Dominates, Stored, Grows, Covered, StoreOk, Move, ChildDone, ChildPending, JumpPending, Offered, Appends,
           SetupOk;
      var L, e := pool[k], C.arcs[b][i];
      ghost var t := State();
      ArcMove(C, t, k, e);
      more, inserted := Child(k, e.arc, L.node.q, C.id[b], batch, buf);
      AfterChild(C, s, t, State(), C.id[b], k, buf, more, i, 0);
      AppendsTrans(s, t, State());
      ArcPending(C, State(), more, L.node, b, i);
      BirthsStep(s.pool, t.pool, pool, k, C.arcs[b], i, Plain(C));
    }

    method StepJump(k: nat, b: nat, batch: bool, buf: seq<nat>, j: nat, ghost s: Store<S>)
      returns (more: seq<nat>, inserted: nat)
      requires b < |C.arcs| && b < |C.jumps| && b < |C.id| && j < |C.jumps[b]|
      requires Expanding(s, k, b, buf, |C.arcs[b]|, j) && (!batch ==> buf == [])
      modifies this`pool, this`dominated, this`extended, this`rows
      ensures Expanding(s, k, b, more, |C.arcs[b]|, j + 1) && (!batch ==> more == [])
      ensures inserted == 0 ==> rows == old(rows)
      ensures Stored(rows) == Stored(old(rows)) + inserted
    {
      hide Dominates, Stored, Grows, Covered, StoreOk, Move, ChildDone, ChildPending, JumpPending, Offered, Appends,
           SetupOk;
      var L, e := pool[k], C.jumps[b][j];
      ghost var t := State();
      JumpMove(C, t, k, e);
      more, inserted := Child(k, e.arc, Boost(C.dir, L.node.q, C.G.buckets[e.jumpBucket]), C.id[b], batch, buf);
      AfterChild(C, s, t, State(), C.id[b], k, buf, more, |C.arcs[b]|, j);
      AppendsTrans(s, t, State());
      JumpIsPending(C, State(), more, L.node, e);
      BirthsOther(s.pool, t.pool, pool, k, C.arcs[b], |C.arcs[b]|, e.arc);
    }

    /** One child, inserted at once or collected for the batch path. */
    method Child(k: nat, a: nat, base: Vec, ghost level: int, batch: bool, buf: seq<nat>)
      returns (more: seq<nat>, inserted: nat)
      requires Valid() && k < |pool| && pool[k].bucket < |C.id| && level == C.id[pool[k].bucket]
      requires Move(C, pool[k].bucket, pool[k].node, a, base)
      requires Distinct(buf) && forall i: nat :: i < |buf| ==> Offered(C, State(), buf[i], level)
      requires !batch ==> buf == []
      modifies this`pool, this`dominated, this`extended, this`rows
      ensures Valid() && Grows(C, old(State()), State(), level)
      ensures Distinct(more) && forall i: nat :: i < |more| ==> Offered(C, State(), more[i], level)
      ensures ChildPending(C, State(), more, old(pool[k].node), a, base)
      ensures BufferStep(C, State(), buf, more) && (!batch ==> more == [])
      ensures inserted == 0 ==> rows == old(rows)
      ensures Stored(rows) == Stored(old(rows)) + inserted
      ensures Added(old(pool), pool, k, a)
      ensures Appends(old(State()), State())
    {
      hide Dominates, Stored, Grows, Covered, StoreOk, Move, ChildDone, ChildPending, JumpPending, Offered;
      StoreSizes(C, State());
      if batch {
        more, inserted := CollectChild(k, a, base, buf, level);
      } else {
        ghost var n := pool[k].node;
        inserted := OfferChild(k, a, base, level);
        more := [];
        DoneIsPending(C, State(), [], n, a, base);
      }
      StoreSizes(C, State());
    }

    /** Extend label k in every way its bucket allows, in batches when there are enough ways. */
    method Expand(k: nat, b: nat) returns (inserted: nat)
      requires Valid() && k < |pool| && pool[k].bucket == b && b < |C.arcs| && b < |C.jumps| && b < |C.id|
               && !PastMid(C, pool[k].node.q) && b !in C.fixed
      modifies this`pool, this`dominated, this`extended, this`rows
      ensures Valid() && Grows(C, old(State()), State(), C.id[b]) && Appends(old(State()), State())
      ensures k < |pool| && pool[k] == old(pool[k]) && Expanded(C, State(), k)
      ensures Births(old(pool), pool, k, C.arcs[b], |C.arcs[b]|, Plain(C))
      ensures inserted == 0 ==> rows == old(rows)
      ensures Stored(rows) == Stored(old(rows)) + inserted
    {
      hide Dominates, Stored, Grows, Covered, StoreOk, ChildDone, ChildPending, JumpPending, Offered, Pending,
           SetupOk;
      ghost var s := State();
      StoreSizes(C, s);
      GrowsSelf(C, s, C.id[b]);
      var batch := |C.arcs[b]| + |C.jumps[b]| >= 4;
      var buf: seq<nat>, n := [], 0;
      inserted := 0;
      StartPending(C, s, k, b);
      for i := 0 to |C.arcs[b]|
        invariant Expanding(s, k, b, buf, i, 0) && (!batch ==> buf == [])
        invariant inserted == 0 ==> rows == s.rows
        invariant Stored(rows) == Stored(s.rows) + inserted
      {
        buf, n := StepArc(k, b, batch, buf, i, s);
        inserted := inserted + n;
      }
      for j := 0 to |C.jumps[b]|
        invariant Expanding(s, k, b, buf, |C.arcs[b]|, j) && (!batch ==> buf == [])
        invariant inserted == 0 ==> rows == s.rows
        invariant Stored(rows) == Stored(s.rows) + inserted
      {
        buf, n := StepJump(k, b, batch, buf, j, s);
        inserted := inserted + n;
      }
      n := Flush(k, b, buf, s);
      inserted := inserted + n;
    }

    /** The rest of the buffer. */
    method Flush(k: nat, b: nat, buf: seq<nat>, ghost s: Store<S>) returns (inserted: nat)
      requires b < |C.arcs| && b < |C.jumps| && b < |C.id|
      requires Expanding(s, k, b, buf, |C.arcs[b]|, |C.jumps[b]|)
      modifies this`dominated, this`rows
      ensures Valid() && Grows(C, s, State(), C.id[b]) && k < |pool| && pool[k].bucket < |C.G.buckets|
              && Expanded(C, State(), k)
      ensures inserted == 0 ==> rows == old(rows)
      ensures Stored(rows) == Stored(old(rows)) + inserted
    {
      hide Dominates, Stored, Grows, Covered, StoreOk, ChildDone, ChildPending, JumpPending, Offered, Settles;
      ghost var t := State();
      inserted := ProcessBatch(buf, C.id[b]);
      AllFlushed(C, State(), buf);
      AfterChild(C, s, t, State(), C.id[b], k, buf, [], |C.arcs[b]|, |C.jumps[b]|);
      NothingPending(C, State(), k, b);
    }

    // ----- One label of a component -----

    /** One of the buckets that are looked at. */
    method HitIn(n: Node<S>, b: nat, other: nat) returns (hit: bool)
      requires Valid() && other < |C.G.buckets|
      ensures hit <==> AdjacentHit(C, State(), cBest, b, other, n)
    {
      hide Dominates, Stored, DominatedIn, Disposable, TopoOrder, Grouped, LabelOk;
      if other == b { return false; }
      if cBest[other].Add(C.P.pack.minDominationCost).Above(n.cost) { return false; }
      RowFacts(C, State(), other);
      hit := DominatedInBucketFrom(C.P, C.dir, pool, dominated, rows[other], n, 0);
    }

    /** dominated_in_adjacent_buckets: the buckets of the vertex that labels of b come after, except b. */
    method DominatedInAdjacent(k: nat, b: nat) returns (found: bool)
      requires Valid() && k < |pool| && pool[k].bucket == b && b < |C.G.buckets|
      ensures found <==> exists other: nat ::
               Beyond(C.P, C.G, C.dir, other, b) && AdjacentHit(C, State(), cBest, b, other, pool[k].node)
    {
      hide Dominates, Stored, DominatedIn, Disposable, TopoOrder, Grouped, LabelOk, Beyond, CellIndex, AdjacentHit,
           RowIn, RowTidy, BucketOk, RangeOk;
      ghost var s := State();
      BucketFacts(C.P, C.G, b);
      var v, n := C.G.buckets[b].vertex, pool[k].node;
      var kx: nat, ky: nat := Kx(C.G, b), Ky(C.G, b);
      var x0, x1 := if C.dir.Forward? then 0 else kx, if C.dir.Forward? then kx + 1 else C.G.nx[v];
      var y0, y1 := if C.dir.Forward? then 0 else ky, if C.dir.Forward? then ky + 1 else C.G.ny[v];
      for i := x0 to x1
        invariant forall x: nat, y: nat ::
                  x0 <= x < i && y0 <= y < y1 ==> !AdjacentHit(C, s, cBest, b, CellIndex(C.G, v, x, y), n)
      {
        for j := y0 to y1
          invariant forall x: nat, y: nat ::
                    x0 <= x < i && y0 <= y < y1 ==> !AdjacentHit(C, s, cBest, b, CellIndex(C.G, v, x, y), n)
          invariant forall y: nat :: y0 <= y < j ==> !AdjacentHit(C, s, cBest, b, CellIndex(C.G, v, i, y), n)
        {
          var other := CellIndex(C.G, v, i, j);
          IndexFacts(C.P, C.G, v, i, j);
          var hit := HitIn(n, b, other);
          if hit {
            CellIsBefore(C.P, C.G, C.dir, b, i, j);
            return true;
          }
        }
      }
      forall other: nat | Beyond(C.P, C.G, C.dir, other, b) ensures !AdjacentHit(C, s, cBest, b, other, n) {
        CellsBefore(C.P, C.G, C.dir, b, other);
      }
      return false;
    }

    /** Label k is not extended any more. */
    ghost predicate Done(k: nat)
      requires Valid() && k < |pool|
      reads this
    {
      extended[k] || dominated[k] || PastMid(C, pool[k].node.q)
    }

    /** A bucket that comes before b, and is not excluded by its bound, holds a label that dominates k. */
    ghost predicate BeatenFromAdjacent(k: nat, b: nat)
      requires Valid() && k < |pool| && b < |C.G.buckets|
      reads this
    {
      exists other: nat ::
          Beyond(C.P, C.G, C.dir, other, b) && AdjacentHit(C, State(), cBest, b, other, pool[k].node)
    }

    /** The body of process_scc's loop over the labels of an open bucket. */
    method ProcessLabel(k: nat, b: nat) returns (inserted: nat)
      requires Valid() && AllExpanded(C, State()) && BornOnce(C, State()) && k < |pool| && pool[k].bucket == b
               && b < |C.id| && b !in C.fixed
      requires Orderly(C, State(), cBest, C.id[b])
      modifies this`pool, this`dominated, this`extended, this`rows
      ensures Valid() && Grows(C, old(State()), State(), C.id[b]) && AllExpanded(C, State()) && BornOnce(C, State())
      ensures Orderly(C, State(), cBest, C.id[b])
      ensures old(Done(k)) ==> State() == old(State()) && inserted == 0
      ensures !old(Done(k)) && old(BeatenFromAdjacent(k, b)) ==>
                State() == old(State()).(dominated := old(dominated)[k := true]) && inserted == 0
      ensures !old(Done(k)) && !old(BeatenFromAdjacent(k, b)) ==>
                k < |extended| && extended[k]
      ensures Handled(C, State(), k)
      ensures inserted == 0 ==> rows == old(rows)
      ensures Stored(rows) == Stored(old(rows)) + inserted
    {
      hide Orderly, AllClear, Tight, BornOnce, Dominates, Stored, Grows, Covered, StoreOk, SetupOk, AllExpanded,
           Expanded, AdjacentHit, Beyond, Appends;
      ghost var s := State();
      StoreSizes(C, s);
      BucketBound(C, s, k);
      GrowsSelf(C, s, C.id[b]);
      inserted := 0;
      if extended[k] || dominated[k] { return; }
      if PastMid(C, pool[k].node.q) { return; }
      var beaten := DominatedInAdjacent(k, b);
      if beaten {
        SetupReady(C);
        ghost var other: nat :| Beyond(C.P, C.G, C.dir, other, b) && AdjacentHit(C, s, cBest, b, other, pool[k].node);
        AdjacentKiller(C, s, cBest, b, other, k);
        dominated := dominated[k := true];
        BornOnceSame(C, s, State());
        Flagged(C, s, State(), k, C.id[b]);
        ExpandedMarked(C, s, State(), C.id[b]);
        OrderlyGrows(C, s, State(), cBest, C.id[b]);
        return;
      }
      inserted := Expand(k, b);
      ghost var t := State();
      StoreSizes(C, t);
      ExpandedKept(C, s, t, C.id[b]);
      BucketBound(C, t, k);
      extended := extended[k := true];
      Flagged(C, t, State(), k, C.id[b]);
      ExpandedFlagged(C, t, State(), C.id[b], k);
      BornOnceAfter(C, s, t, State(), k, C.arcs[b]);
      OrderlyExpanded(C, s, t, State(), cBest, b, k);
      RowMembers(C, s);
      GrowsTrans(C, s, t, State(), C.id[b]);
    }

    /** One pass over as many positions of the open bucket b as it had when the pass began; insertions shift labels. */
    method ProcessBucket(b: nat) returns (inserted: nat)
      requires Valid() && AllExpanded(C, State()) && BornOnce(C, State()) && b < |C.id| && b !in C.fixed
      requires Orderly(C, State(), cBest, C.id[b])
      modifies this`pool, this`dominated, this`extended, this`rows
      ensures Valid() && Grows(C, old(State()), State(), C.id[b]) && AllExpanded(C, State()) && BornOnce(C, State())
      ensures Orderly(C, State(), cBest, C.id[b])
      ensures inserted == 0 ==> rows == old(rows) && b < |rows| && Settled(C, State(), b)
      ensures Stored(rows) == Stored(old(rows)) + inserted
    {
      hide Orderly, AllClear, Tight, BornOnce, Dominates, Stored, Grows, Covered, StoreOk, SetupOk, AllExpanded,
           Handled;
      ghost var s := State();
      StoreSizes(C, s);
      GrowsSelf(C, s, C.id[b]);
      RowMembers(C, s);
      inserted := 0;
      var count := |rows[b].ids|;
      for i := 0 to count
        invariant Valid() && Grows(C, s, State(), C.id[b]) && AllExpanded(C, State()) && BornOnce(C, State())
        invariant Orderly(C, State(), cBest, C.id[b])
        invariant |rows| == |C.id| && count <= |rows[b].ids|
        invariant Stored(rows) == Stored(s.rows) + inserted
        invariant inserted == 0 ==> rows == s.rows && forall j: nat :: j < i ==> Handled(C, State(), rows[b].ids[j])
      {
        ghost var t := State();
        BucketMember(C, t, b, i);
        var n := ProcessLabel(rows[b].ids[i], b);
        StoreSizes(C, State());
        GrowsTrans(C, s, t, State(), C.id[b]);
        RowLonger(C, t, State(), C.id[b], b);
        if inserted + n == 0 {
          forall j: nat | j < i ensures Handled(C, State(), rows[b].ids[j]) {
            HandledGrows(C, t, State(), C.id[b], t.rows[b].ids[j]);
          }
        }
        inserted := inserted + n;
      }
      if inserted == 0 { NotFixedSettled(C, State(), b); }
    }

    // ----- One component -----

    /** Every open bucket of component scc among the given ones is settled. */
    ghost predicate AllSettled(scc: nat, group: seq<nat>)
      reads this
    {
      forall b: nat :: b in group && b !in C.fixed && b < |rows| ==> Settled(C, State(), b)
    }

    /** One pass over the buckets of a component, cut short when the cap is reached. */
    method Pass(scc: nat, labelCount: nat) returns (count: nat, changed: bool)
      requires Valid() && AllExpanded(C, State()) && BornOnce(C, State()) && scc < C.count && scc < |C.groups|
      requires Orderly(C, State(), cBest, scc)
      modifies this`pool, this`dominated, this`extended, this`rows
      ensures Valid() && Grows(C, old(State()), State(), scc) && AllExpanded(C, State()) && BornOnce(C, State())
      ensures Orderly(C, State(), cBest, scc)
      ensures labelCount <= count && (changed <==> labelCount < count)
      ensures Stored(rows) + labelCount == Stored(old(rows)) + count
      ensures !changed && count < SCC_CAP ==> AllSettled(scc, C.groups[scc])
    {
      hide Orderly, AllClear, Tight, BornOnce, Dominates, Stored, Grows, Covered, StoreOk, SetupOk, AllExpanded,
           Settled;
      ghost var s := State();
      StoreSizes(C, s);
      GrowsSelf(C, s, scc);
      RowMembers(C, s);
      GroupMembers(C, scc);
      SetupReady(C);
      count, changed := labelCount, false;
      var group := C.groups[scc];
      for i := 0 to |group|
        invariant Valid() && Grows(C, s, State(), scc) && AllExpanded(C, State()) && BornOnce(C, State())
        invariant Orderly(C, State(), cBest, scc)
        invariant labelCount <= count && (changed <==> labelCount < count)
        invariant Stored(rows) + labelCount == Stored(s.rows) + count
        invariant !changed ==> AllSettled(scc, group[..i])
      {
        var b := group[i];
        assert b in group && group[..i + 1] == group[..i] + [b];
        if b in C.fixed { continue; }
        if count >= SCC_CAP { return; }
        ghost var t := State();
        var n := ProcessBucket(b);
        GrowsTrans(C, s, t, State(), scc);
        StoreSizes(C, State());
        if !changed && n == 0 {
          forall c: nat | c in group[..i + 1] && c !in C.fixed && c < |rows| ensures Settled(C, State(), c) {
            if c != b { SettledKept(C, t, State(), scc, c); }
          }
        }
        count := count + n;
        changed := changed || n > 0;
      }
      assert group[..|group|] == group;
    }

    /** compact_bucket. */
    method CompactOne(b: nat, ghost level: int)
      requires Valid() && AllExpanded(C, State()) && BornOnce(C, State()) && b < |C.id| && C.id[b] <= level
               && b < |rows|
      requires Orderly(C, State(), cBest, level)
      modifies this`rows
      ensures Valid() && Progress(C, old(State()), State(), level) && AllExpanded(C, State()) && BornOnce(C, State())
      ensures Orderly(C, State(), cBest, level)
      ensures |rows| == old(|rows|) && rows == old(rows)[b := rows[b]]
      ensures old(Settled(C, State(), b)) ==> Settled(C, State(), b) && Closed(C, State(), b)
      ensures forall c: nat :: c < |rows| && c != b && old(Settled(C, State(), c)) ==> Settled(C, State(), c)
      ensures forall c: nat :: c < |rows| && c != b && old(Closed(C, State(), c)) ==> Closed(C, State(), c)
    {
      hide Orderly, AllClear, Tight, BornOnce, Dominates, Stored, Progress, Covered, StoreOk, SetupOk, AllExpanded,
           Settled, Ascending, RowOk;
      ghost var s := State();
      RowFacts(C, s, b);
      var row := CompactRow(C.P, pool, dominated, rows[b]);
      Compacted(C, s, b, row, level);
      rows := rows[b := row];
      BornOnceSame(C, s, State());
      OrderlyKept(C, s, State(), cBest, level);
      forall c: nat | c < |rows| && c != b && Settled(C, s, c)
        ensures Settled(C, State(), c)
      {
        SettledSame(C, s, State(), c);
      }
    }

    /** compact_labels on the buckets of a component. */
    method CompactAll(scc: nat)
      requires Valid() && AllExpanded(C, State()) && BornOnce(C, State()) && scc < C.count && scc < |C.groups|
      requires Orderly(C, State(), cBest, scc)
      modifies this`rows
      ensures Valid() && Progress(C, old(State()), State(), scc) && AllExpanded(C, State()) && BornOnce(C, State())
      ensures Orderly(C, State(), cBest, scc)
      ensures old(AllSettled(scc, C.groups[scc])) ==>
                forall b: nat :: b in C.groups[scc] && b !in C.fixed && b < |rows| ==> Closed(C, State(), b)
    {
      hide Orderly, AllClear, Tight, BornOnce, Dominates, Stored, Progress, Covered, StoreOk, SetupOk, AllExpanded,
           Settled, Closed, Ascending, RowOk;
      ghost var s := State();
      StoreSizes(C, s);
      GroupMembers(C, scc);
      SetupReady(C);
      GrowsSelf(C, s, scc);
      GrowsProgress(C, s, s, scc);
      RowMembers(C, s);
      var group := C.groups[scc];
      for i := 0 to |group|
        invariant Valid() && Progress(C, s, State(), scc) && AllExpanded(C, State()) && BornOnce(C, State())
                  && |rows| == |s.rows|
        invariant Orderly(C, State(), cBest, scc)
        invariant old(AllSettled(scc, C.groups[scc])) ==> AllSettled(scc, group)
        invariant old(AllSettled(scc, C.groups[scc])) ==>
                    forall b: nat :: b in group[..i] && b !in C.fixed && b < |rows| ==> Closed(C, State(), b)
      {
        var b := group[i];
        assert b in group && group[..i + 1] == group[..i] + [b];
        ghost var t := State();
        CompactOne(b, scc);
        ProgressTrans(C, s, t, State(), scc, scc);
      }
      assert group[..|group|] == group;
    }

    /** process_scc: passes until nothing changes or the cap is reached; then compaction and the bounds. */
    method ProcessScc(scc: nat) returns (capped: bool)
      requires Valid() && AllExpanded(C, State()) && BornOnce(C, State()) && scc < C.count
      requires BoundsOk(C, pool, rows, cBest, vertexMin, scc + 1) && AllClear(C, State(), scc)
      modifies this
      ensures Valid() && Progress(C, old(State()), State(), scc) && AllExpanded(C, State()) && BornOnce(C, State())
      ensures AllClear(C, State(), scc)
      ensures BoundsOk(C, pool, rows, cBest, vertexMin, scc)
      ensures |old(pool)| <= |pool| && (capped ==> |pool| >= SCC_CAP)
      ensures !capped ==> forall b: nat ::
               b < |C.id| && C.id[b] == scc && b !in C.fixed && b < |rows| ==> Closed(C, State(), b)
    {
      hide Orderly, AllClear, BoundsBelow, Tight, BornOnce, Dominates, Stored, Progress, Grows, Covered, StoreOk,
           SetupOk, AllExpanded, Settled, Closed, BoundsOk;
      ghost var s := State();
      StoreSizes(C, s);
      GrowsSelf(C, s, scc);
      RowMembers(C, s);
      GroupMembers(C, scc);
      SetupReady(C);
      var group := C.groups[scc];
      BoundsAreLower(C, s, cBest, vertexMin, scc);
      OrderlyBounds(C, s, cBest, scc);
      var count: nat, changed := 0, true;
      while changed && count < SCC_CAP
        invariant Valid() && Grows(C, s, State(), scc) && AllExpanded(C, State()) && BornOnce(C, State())
        invariant Orderly(C, State(), cBest, scc)
        invariant !changed && count < SCC_CAP ==> AllSettled(scc, group)
        invariant Stored(rows) == Stored(s.rows) + count
        invariant cBest == old(cBest) && vertexMin == old(vertexMin)
        decreases if count < SCC_CAP then SCC_CAP - count else 0, if changed then 1 else 0
      {
        ghost var t := State();
        count, changed := Pass(scc, count);
        GrowsTrans(C, s, t, State(), scc);
      }
      capped := count >= SCC_CAP;
      StoredWithinPool(C, State());
      ghost var t := State();
      GrowsProgress(C, s, t, scc);
      CompactAll(scc);
      OrderlyBounds(C, State(), cBest, scc);
      ProgressTrans(C, s, t, State(), scc, scc);
      BoundsKept(C, s, State(), scc, cBest, vertexMin);
      ProgressPool(C, s, State(), scc);
      AllRowsOk(C, State());
      cBest, vertexMin := UpdateCBest(C, pool, rows, cBest, vertexMin, scc);
      BoundsSizes(C, pool, rows, cBest, vertexMin, scc);
    }

    // ----- The whole run -----

    /** The initial label enters its bucket, open or not. */
    method InsertRoot() returns (started: bool)
      requires Valid() && pool == [] && forall b: nat :: b < |rows| ==> rows[b] == EMPTY_ROW
      modifies this`pool, this`dominated, this`extended, this`rows
      ensures Valid() && (started <==> InitialNode(C.P, C.dir).Some?)
      ensures started ==>
                AllExpanded(C, State()) && BornOnce(C, State()) && Covered(C, State(), InitialNode(C.P, C.dir).value)
      ensures started ==> extended == [false] && |pool| == |dominated| == 1
      ensures !started ==> pool == []
    {
      hide Orderly, AllClear, Tight, BornOnce, Dominates, Stored, Covered, RowIn, TopoOrder, Grouped, Disposable;
      var n := InitialNode(C.P, C.dir);
      if n.None? { return false; }
      assert C.P.top.Start(C.dir) < C.P.nVertices;
      var b := BucketOf(C, n.value);
      Rooted(C, State(), n.value, b);
      pool, dominated, extended := [Label(n.value, b, -1, 0)], [false], [false];
      rows := rows[b := RootRow(C.P, n.value)];
      BornOnceRoot(C, State());
      return true;
    }

    /** The labeling loop of a solve: all components in topological order. */
    method Solve() returns (started: bool, capped: bool)
      requires Valid() && pool == [] && forall b: nat :: b < |rows| ==> rows[b] == EMPTY_ROW
      requires BoundsOk(C, pool, rows, cBest, vertexMin, C.count)
      modifies this
      ensures Valid() && (started <==> InitialNode(C.P, C.dir).Some?)
      ensures started ==> BoundsOk(C, pool, rows, cBest, vertexMin, 0)
      ensures started ==> BornOnce(C, State())
      ensures capped ==> started && |pool| >= SCC_CAP
      ensures !started ==> pool == []
      ensures started && !capped ==> Finished(C, State()) && Tight(C, State())
    {
      hide Orderly, AllClear, Tight, BornOnce, Dominates, Stored, Progress, Covered, StoreOk, SetupOk, AllExpanded,
           Closed, BoundsOk, InitialNode;
      capped := false;
      started := InsertRoot();
      if !started { return; }
      RootBounds(C, State(), cBest, vertexMin);
      NoneClosed(C, State());
      RootClear(C, State());
      for scc := C.count downto 0
        invariant Valid() && AllExpanded(C, State()) && BornOnce(C, State())
                  && BoundsOk(C, pool, rows, cBest, vertexMin, scc) && AllClear(C, State(), scc)
        invariant Covered(C, State(), InitialNode(C.P, C.dir).value)
        invariant !capped ==> ClosedFrom(C, State(), scc)
        invariant capped ==> |pool| >= SCC_CAP
      {
        ghost var s := State();
        LaterClear(C, s, scc);
        var c := ProcessScc(scc);
        CoverProgress(C, s, State(), scc, InitialNode(C.P, C.dir).value);
        capped := capped || c;
        if !capped { ClosedNext(C, s, State(), scc); }
      }
      if !capped { AllClosed(C, State()); AllTight(C, State()); }
    }
  }

  lemma ProgressPool<S(!new)>(C: Setup<S>, s: Store<S>, t: Store<S>, level: int)
    requires Progress(C, s, t, level)
    ensures |s.pool| <= |t.pool|
  {
  }

  /** The open buckets of the components from scc on are closed. */
  ghost predicate ClosedFrom<S(!new)>(C: Setup<S>, s: Store<S>, scc: int) {
    |s.rows| == |C.id| && forall b: nat :: b < |s.rows| && C.id[b] >= scc && b !in C.fixed ==> Closed(C, s, b)
  }

  lemma ClosedNext<S(!new)>(C: Setup<S>, s: Store<S>, t: Store<S>, scc: nat)
    requires SetupOk(C) && StoreOk(C, s) && Progress(C, s, t, scc) && StoreOk(C, t) && ClosedFrom(C, s, scc + 1)
    requires forall b: nat :: b < |C.id| && C.id[b] == scc && b !in C.fixed && b < |t.rows| ==> Closed(C, t, b)
    ensures ClosedFrom(C, t, scc)
  {
    hide Covered, Progress, Closed;
    ClosedAllKept(C, s, t, scc);
  }

  lemma NoneClosed<S(!new)>(C: Setup<S>, s: Store<S>)
    requires SetupOk(C) && StoreOk(C, s)
    ensures ClosedFrom(C, s, C.count)
  {
    hide Closed;
  }

  lemma AllClosed<S(!new)>(C: Setup<S>, s: Store<S>)
    requires SetupOk(C) && StoreOk(C, s) && AllExpanded(C, s) && ClosedFrom(C, s, 0)
    requires InitialNode(C.P, C.dir).Some? && Covered(C, s, InitialNode(C.P, C.dir).value)
    ensures Finished(C, s)
  {
    hide Closed, Covered;
  }

  lemma AllTight<S(!new)>(C: Setup<S>, s: Store<S>)
    requires SetupOk(C) && Finished(C, s) && AllClear(C, s, 0)
    ensures Tight(C, s)
  {
    hide AllClear, Tight, Settled, AllExpanded, Covered;
    forall b: nat | b < |s.rows| && b !in C.fixed ensures Settled(C, s, b) { assert Closed(C, s, b); }
    FinishedTight(C, s);
  }

  lemma RootBounds<S(!new)>(C: Setup<S>, s: Store<S>, cBest: seq<Bound>, vertexMin: seq<Bound>)
    requires SetupOk(C) && StoreOk(C, s)
    requires exists rows :: BoundsOk(C, [], rows, cBest, vertexMin, C.count)
    ensures BoundsOk(C, s.pool, s.rows, cBest, vertexMin, C.count)
  {
    hide Beyond, VertexMin;
    var rows :| BoundsOk(C, [], rows, cBest, vertexMin, C.count);
  }
}
