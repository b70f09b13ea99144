/**
 * Labels and the parallel arrays they are kept in, one row per bucket: insertion in cost
 * order, the filtered dominance tests and compaction (struct BucketLabels, insert_sorted,
 * dominated_in_bucket, remove_dominated, compact_bucket).
 */
module LabelStores {
  import opened Types
  import opened Resources
  import opened Problems
  import opened Sorting

  /** A label. References into the label pool are indices; the root labels have parent -1. */
  datatype Label<S> = Label(node: Node<S>, bucket: nat, parent: int, arc: nat)

  /** The arrays of one bucket. */
  datatype Row = Row(ids: seq<nat>, costs: seq<real>, q0: seq<real>, q1: seq<real>, ng: seq<bv32>, r1c: seq<bv64>)

  const EMPTY_ROW := Row([], [], [], [], [], [])

  ghost predicate Entry<S>(P: Problem<S>, pool: seq<Label<S>>, row: Row, i: nat)
    requires i < |row.ids| == |row.costs| == |row.q0| == |row.q1| == |row.ng| == |row.r1c|
  {
    && row.ids[i] < |pool|
    && var n := pool[row.ids[i]].node;
       && row.costs[i] == n.cost && row.q0[i] == n.q.x && row.q1[i] == n.q.y
       && row.ng[i] == P.pack.ngBits(n.vertex, n.states) && row.r1c[i] == P.pack.r1cBits(n.states)
  }

  /** The arrays are parallel and describe the labels they list, each once. */
  ghost predicate RowOk<S>(P: Problem<S>, pool: seq<Label<S>>, row: Row) {
    && |row.ids| == |row.costs| == |row.q0| == |row.q1| == |row.ng| == |row.r1c|
    && (forall i: nat :: i < |row.ids| ==> Entry(P, pool, row, i))
    && (forall i: nat, j: nat :: i < j < |row.ids| ==> row.ids[i] != row.ids[j])
  }

  ghost predicate Ascending(costs: seq<real>) {
    forall i: nat, j: nat :: i < j < |costs| ==> costs[i] <= costs[j]
  }

  /** All pool entries below m are unchanged, so a row that describes them still does. */
  lemma RowOkGrows<S>(P: Problem<S>, pool: seq<Label<S>>, more: seq<Label<S>>, row: Row)
    requires RowOk(P, pool, row)
    ensures RowOk(P, pool + more, row)
  {
    var all := pool + more;
    forall i: nat | i < |row.ids| ensures Entry(P, all, row, i) {
      assert Entry(P, pool, row, i);
    }
  }

  // ----- Insertion -----

  /** std::lower_bound. */
  method LowerBound(costs: seq<real>, x: real) returns (at: nat)
    requires Ascending(costs)
    ensures at <= |costs|
    ensures forall i: nat :: i < at ==> costs[i] < x
    ensures forall i: nat :: at <= i < |costs| ==> x <= costs[i]
  {
    at := 0;
    var count: nat := |costs|;
    while count > 0
      invariant at + count <= |costs|
      invariant forall i: nat :: i < at ==> costs[i] < x
      invariant forall i: nat :: at + count <= i < |costs| ==> x <= costs[i]
    {
      var half := count / 2;
      if costs[at + half] < x {
        at := at + half + 1;
        count := count - half - 1;
      } else {
        count := half;
      }
    }
  }

  function InsertAt<T>(s: seq<T>, at: nat, x: T): (r: seq<T>)
    requires at <= |s|
    ensures |r| == |s| + 1 && r[at] == x
    ensures forall i: nat :: i < at ==> r[i] == s[i]
    ensures forall i: nat :: at < i < |r| ==> r[i] == s[i - 1]
  {
    s[..at] + [x] + s[at..]
  }

  function InsertRow<S>(P: Problem<S>, row: Row, at: nat, id: nat, n: Node<S>): Row
    requires at <= |row.ids| == |row.costs| == |row.q0| == |row.q1| == |row.ng| == |row.r1c|
  {
    Row(InsertAt(row.ids, at, id), InsertAt(row.costs, at, n.cost), InsertAt(row.q0, at, n.q.x),
          InsertAt(row.q1, at, n.q.y),
        InsertAt(row.ng, at, P.pack.ngBits(n.vertex, n.states)), InsertAt(row.r1c, at, P.pack.r1cBits(n.states)))
  }

  lemma InsertMembers(s: seq<nat>, at: nat, x: nat)
    requires at <= |s|
    ensures forall y: nat :: y in InsertAt(s, at, x) <==> y == x || y in s
  {
    var r := InsertAt(s, at, x);
    forall y: nat ensures y in r <==> y == x || y in s {
      if y in s {
        var i :| 0 <= i < |s| && s[i] == y;
        assert r[if i < at then i else i + 1] == y;
      }
    }
  }

  lemma InsertRowOk<S>(P: Problem<S>, pool: seq<Label<S>>, row: Row, at: nat, id: nat)
    requires RowOk(P, pool, row) && id < |pool| && id !in row.ids && at <= |row.ids|
    ensures RowOk(P, pool, InsertRow(P, row, at, id, pool[id].node))
  {
    var r := InsertRow(P, row, at, id, pool[id].node);
    forall i: nat | i < |r.ids| ensures Entry(P, pool, r, i) {
      if i < at {
        assert Entry(P, pool, row, i);
      } else if i > at {
        assert Entry(P, pool, row, i - 1);
      }
    }
    forall i: nat, j: nat | i < j < |r.ids| ensures r.ids[i] != r.ids[j] {
      var i', j' := if i < at then i else i - 1, if j < at then j else j - 1;
      if i == at || j == at {
        assert j == at ==> row.ids[i'] in row.ids;
        assert i == at ==> row.ids[j'] in row.ids;
      }
    }
  }

  /** insert_sorted. */
  method InsertSorted<S>(P: Problem<S>, pool: seq<Label<S>>, row: Row, id: nat) returns (r: Row)
    requires RowOk(P, pool, row) && Ascending(row.costs)
    requires id < |pool| && id !in row.ids
    ensures RowOk(P, pool, r) && Ascending(r.costs)
    ensures exists at: nat :: at <= |row.ids| && r == InsertRow(P, row, at, id, pool[id].node)
    ensures |r.ids| == |row.ids| + 1
    ensures forall k: nat :: k in r.ids <==> k == id || k in row.ids
  {
    var at := LowerBound(row.costs, pool[id].node.cost);
    InsertRowOk(P, pool, row, at, id);
    InsertMembers(row.ids, at, id);
    r := InsertRow(P, row, at, id, pool[id].node);
  }

  // ----- Dominance tests -----

  /** What the arrays can rule out without looking at a label is never a dominating label. */
  lemma FilterSound<S(!new)>(P: Problem<S>, dir: Direction, m: Node<S>, n: Node<S>)
    requires Filters(P.pack) && Dominates(P, dir, m, n)
    ensures m.cost + P.pack.minDominationCost <= n.cost
    ensures if dir.Forward? then m.q.x <= n.q.x && m.q.y <= n.q.y else m.q.x >= n.q.x && m.q.y >= n.q.y
    ensures P.pack.ngBits(m.vertex, m.states) & !P.pack.ngBits(n.vertex, n.states) == 0
    ensures P.pack.r1cBits(n.states) & !P.pack.r1cBits(m.states) == 0 ==>
              m.cost + P.pack.minDominationCostExclR1c <= n.cost
  {
    assert FilterAt(P.pack, dir, m.vertex, m.states, n.states);
  }

  /** Some undominated label of the row dominates n. */
  ghost predicate DominatedIn<S>(P: Problem<S>, dir: Direction, pool: seq<Label<S>>, dominated: seq<bool>, row: Row,
                                 n: Node<S>)
    requires |dominated| == |pool|
  {
    exists i: nat :: i < |row.ids| && DominatesAt(P, dir, pool, dominated, row, i, n)
  }

  ghost predicate DominatesAt<S>(P: Problem<S>, dir: Direction, pool: seq<Label<S>>, dominated: seq<bool>, row: Row,
                                 i: nat, n: Node<S>)
    requires |dominated| == |pool| && i < |row.ids|
  {
    row.ids[i] < |pool| && !dominated[row.ids[i]] && Dominates(P, dir, pool[row.ids[i]].node, n)
  }

  /** With no cut against it, a label of cost c needs more room than its victim of cost d leaves. */
  predicate CutsReject<S>(P: Problem<S>, c: real, cuts: bv64, d: real, victimCuts: bv64) {
    P.pack.hasR1c && victimCuts & !cuts == 0 && c + P.pack.minDominationCostExclR1c > d
  }

  /** The filter of the scalar loops on the arrays of ng and cut bits. */
  predicate Rejected<S>(P: Problem<S>, row: Row, i: nat, n: Node<S>)
    requires i < |row.costs| && i < |row.ng| && i < |row.r1c|
  {
    || row.ng[i] & !P.pack.ngBits(n.vertex, n.states) != 0
    || CutsReject(P, row.costs[i], row.r1c[i], n.cost, P.pack.r1cBits(n.states))
  }

  lemma RejectedSound<S(!new)>(P: Problem<S>, dir: Direction, pool: seq<Label<S>>, dominated: seq<bool>, row: Row,
                               i: nat, n: Node<S>)
    requires Filters(P.pack) && RowOk(P, pool, row) && |dominated| == |pool| && i < |row.ids|
    requires DominatesAt(P, dir, pool, dominated, row, i, n)
    ensures !Rejected(P, row, i, n)
    ensures row.costs[i] + P.pack.minDominationCost <= n.cost
    ensures if dir.Forward? then row.q0[i] <= n.q.x && row.q1[i] <= n.q.y else row.q0[i] >= n.q.x && row.q1[i] >= n.q.y
  {
    assert Entry(P, pool, row, i);
    FilterSound(P, dir, pool[row.ids[i]].node, n);
  }

  /** dominated_in_bucket without SIMD; start is 0, or where the lanes stopped. */
  method DominatedInBucketFrom<S(!new)>(P: Problem<S>, dir: Direction, pool: seq<Label<S>>, dominated: seq<bool>,
                                        row: Row, n: Node<S>, start: nat) returns (found: bool)
    requires Filters(P.pack) && RowOk(P, pool, row) && Ascending(row.costs) && |dominated| == |pool|
    requires start <= |row.ids|
    requires forall i: nat :: i < start ==> !DominatesAt(P, dir, pool, dominated, row, i, n)
    ensures found <==> DominatedIn(P, dir, pool, dominated, row, n)
  {
    hide Dominates, Rejected;
    for i := start to |row.ids|
      invariant forall k: nat :: k < i ==> !DominatesAt(P, dir, pool, dominated, row, k, n)
    {
      assert Entry(P, pool, row, i);
      if row.costs[i] + P.pack.minDominationCost > n.cost {
        forall k: nat | i <= k < |row.ids| ensures !DominatesAt(P, dir, pool, dominated, row, k, n) {
          if DominatesAt(P, dir, pool, dominated, row, k, n) { RejectedSound(P, dir, pool, dominated, row, k, n); }
        }
        return false;
      }
      if Rejected(P, row, i, n) {
        if DominatesAt(P, dir, pool, dominated, row, i, n) { RejectedSound(P, dir, pool, dominated, row, i, n); }
        continue;
      }
      if dominated[row.ids[i]] { continue; }
      if Dominates(P, dir, pool[row.ids[i]].node, n) {
        assert DominatesAt(P, dir, pool, dominated, row, i, n);
        return true;
      }
    }
    return false;
  }

  predicate Any(mask: seq<bool>) { exists j :: 0 <= j < |mask| && mask[j] }

  /** One SIMD comparison: lane j holds the test of entry i + j. */
  method LaneMask(values: seq<real>, i: nat, w: nat, bound: real, atMost: bool, mask: seq<bool>) returns (r: seq<bool>)
    requires i + w <= |values| && |mask| == w
    ensures |r| == w
    ensures forall j: nat ::
            j < w ==> r[j] == (mask[j] && if atMost then values[i + j] <= bound else values[i + j] >= bound)
  {
    r := [];
    for j := 0 to w
      invariant |r| == j
      invariant forall k: nat ::
                k < j ==> r[k] == (mask[k] && if atMost then values[i + k] <= bound else values[i + k] >= bound)
    {
      r := r + [mask[j] && if atMost then values[i + j] <= bound else values[i + j] >= bound];
    }
  }

  /** dominated_in_bucket_simd with w lanes; the rest of the row goes through the scalar loop. */
  method DominatedInBucketLanes<S(!new)>(P: Problem<S>, dir: Direction, pool: seq<Label<S>>, dominated: seq<bool>,
                                         row: Row, n: Node<S>, w: nat) returns (found: bool)
    requires Filters(P.pack) && RowOk(P, pool, row) && Ascending(row.costs) && |dominated| == |pool|
    requires w >= 1
    ensures found <==> DominatedIn(P, dir, pool, dominated, row, n)
  {
    hide Dominates, Rejected;
    var i: nat := 0;
    while i + w <= |row.ids|
      invariant i <= |row.ids|
      invariant forall k: nat :: k < i ==> !DominatesAt(P, dir, pool, dominated, row, k, n)
    {
      var mask := LaneMask(row.costs, i, w, n.cost - P.pack.minDominationCost, true, seq(w, j => true));
      if !Any(mask) {
        assert !mask[0];
        forall k: nat | i <= k < |row.ids| ensures !DominatesAt(P, dir, pool, dominated, row, k, n) {
          if DominatesAt(P, dir, pool, dominated, row, k, n) { RejectedSound(P, dir, pool, dominated, row, k, n); }
        }
        return false;
      }
      mask := LaneMask(row.q0, i, w, n.q.x, dir.Forward?, mask);
      if Any(mask) {
        mask := LaneMask(row.q1, i, w, n.q.y, dir.Forward?, mask);
      }
      forall j: nat | j < w && DominatesAt(P, dir, pool, dominated, row, i + j, n) ensures mask[j] {
        RejectedSound(P, dir, pool, dominated, row, i + j, n);
      }
      found := ScanLanes(P, dir, pool, dominated, row, n, i, mask);
      if found { return true; }
      i := i + w;
    }
    found := DominatedInBucketFrom(P, dir, pool, dominated, row, n, i);
  }

  /** The loop over the lanes of one chunk that passed the masks. */
  method ScanLanes<S(!new)>(P: Problem<S>, dir: Direction, pool: seq<Label<S>>, dominated: seq<bool>, row: Row,
                            n: Node<S>,
                            i: nat, mask: seq<bool>) returns (found: bool)
    requires Filters(P.pack) && RowOk(P, pool, row) && |dominated| == |pool| && i + |mask| <= |row.ids|
    requires forall j: nat :: j < |mask| && DominatesAt(P, dir, pool, dominated, row, i + j, n) ==> mask[j]
    ensures found ==> DominatedIn(P, dir, pool, dominated, row, n)
    ensures !found ==> forall k: nat :: i <= k < i + |mask| ==> !DominatesAt(P, dir, pool, dominated, row, k, n)
  {
    hide Dominates, Rejected;
    for j := 0 to |mask|
      invariant forall k: nat :: i <= k < i + j ==> !DominatesAt(P, dir, pool, dominated, row, k, n)
    {
      assert Entry(P, pool, row, i + j);
      if !mask[j] { continue; }
      if Rejected(P, row, i + j, n) {
        if DominatesAt(P, dir, pool, dominated, row, i + j, n) {
          RejectedSound(P, dir, pool, dominated, row, i + j, n);
        }
        continue;
      }
      if dominated[row.ids[i + j]] { continue; }
      if Dominates(P, dir, pool[row.ids[i + j]].node, n) {
        assert DominatesAt(P, dir, pool, dominated, row, i + j, n);
        return true;
      }
    }
    return false;
  }

  /** The reversed filter: n cannot dominate the label of entry i. */
  predicate Spared<S>(P: Problem<S>, row: Row, i: nat, n: Node<S>)
    requires i < |row.costs| && i < |row.ng| && i < |row.r1c|
  {
    || P.pack.ngBits(n.vertex, n.states) & !row.ng[i] != 0
    || CutsReject(P, n.cost, P.pack.r1cBits(n.states), row.costs[i], row.r1c[i])
  }

  lemma SparedSound<S(!new)>(P: Problem<S>, dir: Direction, pool: seq<Label<S>>, row: Row, i: nat, n: Node<S>)
    requires Filters(P.pack) && RowOk(P, pool, row) && i < |row.ids| && row.ids[i] < |pool|
    requires Dominates(P, dir, n, pool[row.ids[i]].node)
    ensures !Spared(P, row, i, n)
    ensures n.cost + P.pack.minDominationCost <= row.costs[i]
    ensures if dir.Forward? then n.q.x <= row.q0[i] && n.q.y <= row.q1[i] else n.q.x >= row.q0[i] && n.q.y >= row.q1[i]
  {
    assert Entry(P, pool, row, i);
    FilterSound(P, dir, n, pool[row.ids[i]].node);
  }

  /** remove_dominated: exactly the labels of the row that n dominates are marked. */
  method RemoveDominated<S(!new)>(P: Problem<S>, dir: Direction, pool: seq<Label<S>>, dominated: seq<bool>,
                                  row: Row, n: Node<S>) returns (marked: seq<bool>)
    requires Filters(P.pack) && RowOk(P, pool, row) && Ascending(row.costs) && |dominated| == |pool|
    ensures |marked| == |dominated|
    ensures forall k: nat :: k < |pool| ==>
      (marked[k] <==> dominated[k] || (k in row.ids && Dominates(P, dir, n, pool[k].node)))
  {
    hide Dominates, Spared;
    var start := LowerBound(row.costs, n.cost + P.pack.minDominationCost);
    marked := dominated;
    forall k: nat | k < start
      ensures k < |row.ids| && row.ids[k] < |pool| && !Dominates(P, dir, n, pool[row.ids[k]].node)
    {
      assert Entry(P, pool, row, k);
      if Dominates(P, dir, n, pool[row.ids[k]].node) { SparedSound(P, dir, pool, row, k, n); }
    }
    for i := start to |row.ids|
      invariant |marked| == |dominated|
      invariant forall k: nat :: k < |pool| ==>
        (marked[k] <==> dominated[k] || (k in row.ids[..i] && Dominates(P, dir, n, pool[k].node)))
    {
      assert Entry(P, pool, row, i);
      var id := row.ids[i];
      assert row.ids[..i + 1] == row.ids[..i] + [id];
      if !marked[id] {
        var m := pool[id].node;
        if Spared(P, row, i, n) {
          if Dominates(P, dir, n, m) { SparedSound(P, dir, pool, row, i, n); }
          continue;
        }
        if Dominates(P, dir, n, m) {
          marked := marked[id := true];
        }
      }
    }
    assert row.ids[..|row.ids|] == row.ids;
  }

  // ----- Batches -----

  /** Every label of universe that was marked since `before` is dominated by an unmarked one. */
  ghost predicate KillsCovered<S>(P: Problem<S>, dir: Direction, pool: seq<Label<S>>, universe: set<nat>,
                                  before: seq<bool>, after: seq<bool>)
    requires |before| == |after| == |pool|
  {
    && (forall k: nat :: k < |pool| && before[k] ==> after[k])
    && (forall k: nat ::
      k < |pool| && after[k] && !before[k] ==> k in universe && KillerOf(P, dir, pool, universe, after, k))
  }

  ghost predicate KillerOf<S>(P: Problem<S>, dir: Direction, pool: seq<Label<S>>, universe: set<nat>, dead: seq<bool>,
                              k: nat)
    requires |dead| == |pool| && k < |pool|
  {
    exists j: nat :: j in universe && j < |pool| && !dead[j] && Dominates(P, dir, pool[j].node, pool[k].node)
  }

  /** Killers may be killed later: dominance is transitive, so what they killed stays covered. */
  lemma KillOne<S(!new)>(P: Problem<S>, dir: Direction, pool: seq<Label<S>>, universe: set<nat>, before: seq<bool>,
                         dead: seq<bool>, j: nat, k: nat)
    requires Disposable(P.pack, P.top)
    requires |before| == |dead| == |pool| && forall k :: k in universe ==> k < |pool|
    requires KillsCovered(P, dir, pool, universe, before, dead)
    requires j in universe && k in universe && j != k && !dead[j] && !dead[k]
    requires Dominates(P, dir, pool[j].node, pool[k].node)
    ensures KillsCovered(P, dir, pool, universe, before, dead[k := true])
  {
    hide Dominates;
    var after := dead[k := true];
    forall i: nat | i < |pool| && after[i] && !before[i]
      ensures i in universe && KillerOf(P, dir, pool, universe, after, i)
    {
      if i != k {
        assert KillerOf(P, dir, pool, universe, dead, i);
        var h: nat :| h in universe && !dead[h] && Dominates(P, dir, pool[h].node, pool[i].node);
        if h == k {
          DominatesOrder(P, dir, pool[j].node, pool[k].node, pool[i].node);
          assert !after[j] && Dominates(P, dir, pool[j].node, pool[i].node);
        } else {
          assert !after[h];
        }
      } else {
        assert !after[j];
      }
    }
  }

  /** j does not dominate k, unless one of them is already out. */
  ghost predicate Apart<S>(P: Problem<S>, dir: Direction, pool: seq<Label<S>>, dead: seq<bool>, j: nat, k: nat) {
    j < |pool| && k < |pool| && |dead| == |pool| && (dead[j] || dead[k]
          || !Dominates(P, dir, pool[j].node, pool[k].node))
  }

  /** No label of a row and no label of a batch dominate each other. */
  ghost predicate RowApart<S>(P: Problem<S>, dir: Direction, pool: seq<Label<S>>, dead: seq<bool>, ids: seq<nat>,
                              batch: seq<nat>) {
    forall h: nat, i: nat :: h < |ids| && i < |batch| ==>
      Apart(P, dir, pool, dead, ids[h], batch[i]) && Apart(P, dir, pool, dead, batch[i], ids[h])
  }

  /** A label of a batch dominates no later one, which costs no less. */
  ghost predicate BatchApart<S>(P: Problem<S>, dir: Direction, pool: seq<Label<S>>, dead: seq<bool>, batch: seq<nat>) {
    forall i: nat, j: nat :: i < j < |batch| ==> ApartInOrder(P, dir, pool, dead, batch[i], batch[j])
  }

  ghost predicate ApartInOrder<S>(P: Problem<S>, dir: Direction, pool: seq<Label<S>>, dead: seq<bool>, j: nat, k: nat) {
    Apart(P, dir, pool, dead, j, k) && pool[j].node.cost <= pool[k].node.cost
  }

  /** Step 1 of batch_try_insert: the batch, sorted by cost, is thinned by its own members. */
  method ThinBatch<S(!new)>(P: Problem<S>, dir: Direction, pool: seq<Label<S>>, dominated: seq<bool>,
                            batch: seq<nat>, ghost universe: set<nat>) returns (dead: seq<bool>)
    requires Disposable(P.pack, P.top) && |dominated| == |pool| && forall k :: k in universe ==> k < |pool|
    requires Distinct(batch) && forall i: nat :: i < |batch| ==> batch[i] in universe
    ensures |dead| == |pool| && KillsCovered(P, dir, pool, universe, dominated, dead)
    ensures forall k: nat :: k < |pool| && dead[k] && !dominated[k] ==> k in batch
    ensures forall i: nat, j: nat :: i < j < |batch| ==> Apart(P, dir, pool, dead, batch[i], batch[j])
    ensures forall j: nat :: j < |batch| && !dominated[batch[j]] ==>
              (dead[batch[j]] <==> BeatenBefore(P, dir, pool, dead, batch, j, j))
  {
    hide Dominates;
    dead := dominated;
    for i := 0 to |batch|
      invariant |dead| == |pool| && KillsCovered(P, dir, pool, universe, dominated, dead)
      invariant forall k: nat :: k < |pool| && dead[k] && !dominated[k] ==> k in batch
      invariant forall h: nat, j: nat :: h < i && h < j < |batch| ==> Apart(P, dir, pool, dead, batch[h], batch[j])
      invariant forall j: nat :: j < |batch| && dead[batch[j]] && !dominated[batch[j]] ==>
                  BeatenBefore(P, dir, pool, dead, batch, i, j)
    {
      ghost var dead0 := dead;
      if dead[batch[i]] { continue; }
      dead := ThinBy(P, dir, pool, dominated, dead, batch, i, universe);
      StillBeaten(P, dir, pool, dominated, dead0, dead, batch, i);
    }
  }

  /** One of the first i labels of the batch, before the j-th, is left and dominates it. */
  ghost predicate BeatenBefore<S>(P: Problem<S>, dir: Direction, pool: seq<Label<S>>, dead: seq<bool>, batch: seq<nat>,
                                  i: nat, j: nat) {
    exists h: nat :: h < i && h < j < |batch| && batch[h] < |pool| && batch[h] < |dead| && !dead[batch[h]]
                     && batch[j] < |pool| && Dominates(P, dir, pool[batch[h]].node, pool[batch[j]].node)
  }

  lemma StillBeaten<S>(P: Problem<S>, dir: Direction, pool: seq<Label<S>>, dominated: seq<bool>, before: seq<bool>,
                       dead: seq<bool>, batch: seq<nat>, i: nat)
    requires |dominated| == |before| == |dead| == |pool| && forall j: nat :: j < |batch| ==> batch[j] < |pool|
    requires i < |batch| && forall j: nat :: j <= i ==> dead[batch[j]] == before[batch[j]]
    requires !before[batch[i]]
    requires forall j: nat :: j < |batch| && before[batch[j]] && !dominated[batch[j]] ==>
               BeatenBefore(P, dir, pool, before, batch, i, j)
    requires forall j: nat :: i < j < |batch| && dead[batch[j]] && !before[batch[j]] ==>
               Dominates(P, dir, pool[batch[i]].node, pool[batch[j]].node)
    ensures forall j: nat :: j < |batch| && dead[batch[j]] && !dominated[batch[j]] ==>
              BeatenBefore(P, dir, pool, dead, batch, i + 1, j)
  {
    hide Dominates;
    forall j: nat | j < |batch| && dead[batch[j]] && !dominated[batch[j]]
      ensures BeatenBefore(P, dir, pool, dead, batch, i + 1, j)
    {
      if before[batch[j]] {
        var h: nat :| h < i && h < j < |batch| && !before[batch[h]]
            && Dominates(P, dir, pool[batch[h]].node, pool[batch[j]].node);
        assert !dead[batch[h]];
      } else {
        assert !dead[batch[i]] && i < j;
      }
    }
  }

  /** The inner loop of step 1: what batch[i] removes among the dearer labels. */
  method ThinBy<S(!new)>(P: Problem<S>, dir: Direction, pool: seq<Label<S>>, ghost dominated: seq<bool>,
                         before: seq<bool>,
                         batch: seq<nat>, i: nat, ghost universe: set<nat>) returns (dead: seq<bool>)
    requires Disposable(P.pack, P.top) && |dominated| == |before| == |pool| && forall k :: k in universe ==> k < |pool|
    requires Distinct(batch) && i < |batch| && forall j: nat :: j < |batch| ==> batch[j] in universe
    requires KillsCovered(P, dir, pool, universe, dominated, before) && !before[batch[i]]
    ensures |dead| == |pool| && KillsCovered(P, dir, pool, universe, dominated, dead)
    ensures forall k: nat :: k < |pool| && before[k] ==> dead[k]
    ensures forall k: nat :: k < |pool| && dead[k] && !before[k] ==> k in batch
    ensures forall j: nat :: i < j < |batch| ==> Apart(P, dir, pool, dead, batch[i], batch[j])
    ensures forall j: nat :: j <= i ==> dead[batch[j]] == before[batch[j]]
    ensures forall j: nat :: i < j < |batch| && dead[batch[j]] && !before[batch[j]] ==>
              Dominates(P, dir, pool[batch[i]].node, pool[batch[j]].node)
  {
    hide Dominates;
    dead := before;
    for j := i + 1 to |batch|
      invariant |dead| == |pool| && KillsCovered(P, dir, pool, universe, dominated, dead)
      invariant !dead[batch[i]]
      invariant forall k: nat :: k < |pool| && before[k] ==> dead[k]
      invariant forall k: nat :: k < |pool| && dead[k] && !before[k] ==> k in batch
      invariant forall k: nat :: i < k < j ==> Apart(P, dir, pool, dead, batch[i], batch[k])
      invariant forall k: nat :: k < |batch| && (k <= i || k >= j) ==> dead[batch[k]] == before[batch[k]]
      invariant forall k: nat :: i < k < j && dead[batch[k]] && !before[batch[k]] ==>
                  Dominates(P, dir, pool[batch[i]].node, pool[batch[k]].node)
    {
      if dead[batch[j]] { continue; }
      if Dominates(P, dir, pool[batch[i]].node, pool[batch[j]].node) {
        KillOne(P, dir, pool, universe, dominated, dead, batch[i], batch[j]);
        dead := dead[batch[j] := true];
      }
    }
  }

  /** Step 2: the cheapest and the dearest label of the batch that is left. */
  method SurvivorRange<S>(pool: seq<Label<S>>, dead: seq<bool>, batch: seq<nat>) returns (any: bool, lo: real, hi: real)
    requires |dead| == |pool| && forall i: nat :: i < |batch| ==> batch[i] < |pool|
    ensures any <==> exists i: nat :: i < |batch| && !dead[batch[i]]
    ensures forall i: nat :: i < |batch| && !dead[batch[i]] ==> lo <= pool[batch[i]].node.cost <= hi
  {
    any, lo, hi := false, 0.0, 0.0;
    for i := 0 to |batch|
      invariant any <==> exists j: nat :: j < i && !dead[batch[j]]
      invariant forall j: nat :: j < i && !dead[batch[j]] ==> lo <= pool[batch[j]].node.cost <= hi
    {
      if dead[batch[i]] { continue; }
      var c := pool[batch[i]].node.cost;
      lo, hi := if any then Min(lo, c) else c, if any then Max(hi, c) else c;
      any := true;
    }
  }

  /** The per-entry filter of the fused pass, for one direction of the comparison. */
  predicate MayDominate<S>(P: Problem<S>, dir: Direction, q: Vec, ng: bv32, r: Vec, ngr: bv32) {
    (if dir.Forward? then q.x <= r.x && q.y <= r.y else q.x >= r.x && q.y >= r.y) && ng & !ngr == 0
  }

  lemma MayDominateSound<S(!new)>(P: Problem<S>, dir: Direction, m: Node<S>, n: Node<S>)
    requires Filters(P.pack) && Dominates(P, dir, m, n)
    ensures MayDominate(P, dir, m.q, P.pack.ngBits(m.vertex, m.states), n.q, P.pack.ngBits(n.vertex, n.states))
    ensures m.cost + P.pack.minDominationCost <= n.cost
    ensures !CutsReject(P, m.cost, P.pack.r1cBits(m.states), n.cost, P.pack.r1cBits(n.states))
  {
    FilterSound(P, dir, m, n);
  }

  function NodeNg<S>(P: Problem<S>, n: Node<S>): bv32 { P.pack.ngBits(n.vertex, n.states) }

  /** pass_a and pass_b: whether entry ei may dominate each batch label, and the other way round. */
  method PassMasks<S>(P: Problem<S>, dir: Direction, pool: seq<Label<S>>, row: Row, ei: nat, batch: seq<nat>)
    returns (passA: seq<bool>, passB: seq<bool>)
    requires RowOk(P, pool, row) && ei < |row.ids| && forall i: nat :: i < |batch| ==> batch[i] < |pool|
    ensures |passA| == |passB| == |batch|
    ensures forall i: nat :: i < |batch| ==> var n := pool[batch[i]].node;
              && passA[i] == MayDominate(P, dir, Vec(row.q0[ei], row.q1[ei]), row.ng[ei], n.q, NodeNg(P, n))
              && passB[i] == MayDominate(P, dir, n.q, NodeNg(P, n), Vec(row.q0[ei], row.q1[ei]), row.ng[ei])
  {
    hide MayDominate;
    passA, passB := [], [];
    for i := 0 to |batch|
      invariant |passA| == |passB| == i
      invariant forall j: nat :: j < i ==> var n := pool[batch[j]].node;
              && passA[j] == MayDominate(P, dir, Vec(row.q0[ei], row.q1[ei]), row.ng[ei], n.q, NodeNg(P, n))
              && passB[j] == MayDominate(P, dir, n.q, NodeNg(P, n), Vec(row.q0[ei], row.q1[ei]), row.ng[ei])
    {
      var n := pool[batch[i]].node;
      passA := passA + [MayDominate(P, dir, Vec(row.q0[ei], row.q1[ei]), row.ng[ei], n.q, NodeNg(P, n))];
      passB := passB + [MayDominate(P, dir, n.q, NodeNg(P, n), Vec(row.q0[ei], row.q1[ei]), row.ng[ei])];
    }
  }

  /** The shared setting of the fused pass. */
  ghost predicate Fusing<S(!new)>(P: Problem<S>, pool: seq<Label<S>>, dominated: seq<bool>, row: Row, batch: seq<nat>,
                                  universe: set<nat>) {
    && Disposable(P.pack, P.top) && RowOk(P, pool, row) && |dominated| == |pool|
    && (forall k :: k in universe ==> k < |pool|)
    && (forall i: nat :: i < |batch| ==> batch[i] in universe && batch[i] !in row.ids)
    && (forall i: nat :: i < |row.ids| ==> row.ids[i] in universe)
  }

  /** Branch (a) of the fused pass: the stored label ei against every batch label. */
  method ExistingAgainstBatch<S(!new)>(P: Problem<S>, dir: Direction, pool: seq<Label<S>>, ghost dominated: seq<bool>,
                                       before: seq<bool>,
                                       row: Row, ei: nat, batch: seq<nat>, passA: seq<bool>, ghost universe: set<nat>)
    returns (dead: seq<bool>)
    requires Fusing(P, pool, dominated, row, batch, universe) && ei < |row.ids| && |before| == |pool|
             && |passA| == |batch|
    requires KillsCovered(P, dir, pool, universe, dominated, before) && !before[row.ids[ei]]
    requires forall i: nat :: i < |batch| && Dominates(P, dir, pool[row.ids[ei]].node, pool[batch[i]].node) ==> passA[i]
    ensures |dead| == |pool| && KillsCovered(P, dir, pool, universe, dominated, dead) && !dead[row.ids[ei]]
    ensures forall k: nat :: k < |pool| && before[k] ==> dead[k]
    ensures forall i: nat :: i < |batch| ==> Apart(P, dir, pool, dead, row.ids[ei], batch[i])
  {
    hide Dominates, CutsReject;
    dead := before;
    assert Entry(P, pool, row, ei);
    var existing := row.ids[ei];
    assert existing in row.ids;
    for j := 0 to |batch|
      invariant |dead| == |pool| && KillsCovered(P, dir, pool, universe, dominated, dead) && !dead[existing]
      invariant forall k: nat :: k < |pool| && before[k] ==> dead[k]
      invariant forall i: nat :: i < j ==> Apart(P, dir, pool, dead, existing, batch[i])
    {
      var n := pool[batch[j]].node;
      if Dominates(P, dir, pool[existing].node, n) { MayDominateSound(P, dir, pool[existing].node, n); }
      if !passA[j] { continue; }
      if dead[batch[j]] { continue; }
      if row.costs[ei] + P.pack.minDominationCost > n.cost { continue; }
      if CutsReject(P, row.costs[ei], row.r1c[ei], n.cost, P.pack.r1cBits(n.states)) { continue; }
      if Dominates(P, dir, pool[existing].node, n) {
        KillOne(P, dir, pool, universe, dominated, dead, existing, batch[j]);
        dead := dead[batch[j] := true];
      }
    }
  }

  /** Branch (b): the batch labels against the stored label ei, up to the first that dominates it. */
  method BatchAgainstExisting<S(!new)>(P: Problem<S>, dir: Direction, pool: seq<Label<S>>, ghost dominated: seq<bool>,
                                       before: seq<bool>,
                                       row: Row, ei: nat, batch: seq<nat>, passB: seq<bool>, ghost universe: set<nat>)
    returns (dead: seq<bool>)
    requires Fusing(P, pool, dominated, row, batch, universe) && ei < |row.ids| && |before| == |pool|
             && |passB| == |batch|
    requires KillsCovered(P, dir, pool, universe, dominated, before) && !before[row.ids[ei]]
    requires forall i: nat :: i < |batch| && Dominates(P, dir, pool[batch[i]].node, pool[row.ids[ei]].node) ==> passB[i]
    ensures |dead| == |pool| && KillsCovered(P, dir, pool, universe, dominated, dead)
    ensures forall k: nat :: k < |pool| && before[k] ==> dead[k]
    ensures forall i: nat :: i < |batch| ==> Apart(P, dir, pool, dead, batch[i], row.ids[ei])
  {
    hide Dominates, CutsReject;
    dead := before;
    assert Entry(P, pool, row, ei);
    var existing := row.ids[ei];
    assert existing in row.ids;
    for j := 0 to |batch|
      invariant dead == before
      invariant forall i: nat :: i < j ==> Apart(P, dir, pool, dead, batch[i], existing)
    {
      var n := pool[batch[j]].node;
      if Dominates(P, dir, n, pool[existing].node) { MayDominateSound(P, dir, n, pool[existing].node); }
      if !passB[j] { continue; }
      if dead[batch[j]] { continue; }
      if n.cost + P.pack.minDominationCost > row.costs[ei] { continue; }
      if CutsReject(P, n.cost, P.pack.r1cBits(n.states), row.costs[ei], row.r1c[ei]) { continue; }
      if Dominates(P, dir, n, pool[existing].node) {
        KillOne(P, dir, pool, universe, dominated, dead, batch[j], existing);
        dead := dead[existing := true];
        break;
      }
    }
  }

  /** Step 3, one stored label: the early exits, the masks and both branches. */
  method FusedStep<S(!new)>(P: Problem<S>, dir: Direction, pool: seq<Label<S>>, ghost dominated: seq<bool>,
                            before: seq<bool>,
                            row: Row, ei: nat, batch: seq<nat>, lo: real, hi: real, ghost universe: set<nat>)
    returns (dead: seq<bool>)
    requires Fusing(P, pool, dominated, row, batch, universe) && ei < |row.ids| && |before| == |pool|
    requires KillsCovered(P, dir, pool, universe, dominated, before)
    requires forall i: nat :: i < |batch| && !before[batch[i]] ==> lo <= pool[batch[i]].node.cost <= hi
    ensures |dead| == |pool| && KillsCovered(P, dir, pool, universe, dominated, dead)
    ensures forall k: nat :: k < |pool| && before[k] ==> dead[k]
    ensures forall i: nat :: i < |batch| ==>
              Apart(P, dir, pool, dead, row.ids[ei], batch[i]) && Apart(P, dir, pool, dead, batch[i], row.ids[ei])
  {
    hide Dominates, MayDominate, CutsReject;
    dead := before;
    assert Entry(P, pool, row, ei);
    var ec, existing := row.costs[ei], row.ids[ei];
    var e := pool[existing].node;
    forall i: nat | i < |batch| && Dominates(P, dir, e, pool[batch[i]].node)
      ensures ec + P.pack.minDominationCost <= pool[batch[i]].node.cost
    {
      MayDominateSound(P, dir, e, pool[batch[i]].node);
    }
    forall i: nat | i < |batch| && Dominates(P, dir, pool[batch[i]].node, e)
      ensures pool[batch[i]].node.cost + P.pack.minDominationCost <= ec
    {
      MayDominateSound(P, dir, pool[batch[i]].node, e);
    }
    var mayA := ec + P.pack.minDominationCost <= hi && !dead[existing];
    var mayB := lo + P.pack.minDominationCost <= ec;
    if !mayA && !mayB { return; }
    var passA, passB := PassMasks(P, dir, pool, row, ei, batch);
    forall i: nat | i < |batch| && Dominates(P, dir, e, pool[batch[i]].node) ensures passA[i] {
      MayDominateSound(P, dir, e, pool[batch[i]].node);
    }
    forall i: nat | i < |batch| && Dominates(P, dir, pool[batch[i]].node, e) ensures passB[i] {
      MayDominateSound(P, dir, pool[batch[i]].node, e);
    }
    if ec + P.pack.minDominationCost <= hi && !dead[existing] {
      dead := ExistingAgainstBatch(P, dir, pool, dominated, dead, row, ei, batch, passA, universe);
    }
    if dead[existing] || lo + P.pack.minDominationCost > ec { return; }
    dead := BatchAgainstExisting(P, dir, pool, dominated, dead, row, ei, batch, passB, universe);
  }

  /** Step 3: one pass over the stored labels against the whole batch, in both directions. */
  method FusedPass<S(!new)>(P: Problem<S>, dir: Direction, pool: seq<Label<S>>, ghost dominated: seq<bool>,
                            before: seq<bool>,
                            row: Row, batch: seq<nat>, lo: real, hi: real, ghost universe: set<nat>)
    returns (dead: seq<bool>)
    requires Fusing(P, pool, dominated, row, batch, universe) && |before| == |pool|
    requires KillsCovered(P, dir, pool, universe, dominated, before)
    requires forall i: nat :: i < |batch| && !before[batch[i]] ==> lo <= pool[batch[i]].node.cost <= hi
    ensures |dead| == |pool| && KillsCovered(P, dir, pool, universe, dominated, dead)
    ensures forall k: nat :: k < |pool| && before[k] ==> dead[k]
    ensures forall h: nat, i: nat :: h < |row.ids| && i < |batch| ==>
              Apart(P, dir, pool, dead, row.ids[h], batch[i]) && Apart(P, dir, pool, dead, batch[i], row.ids[h])
  {
    hide Dominates;
    dead := before;
    for ei := 0 to |row.ids|
      invariant |dead| == |pool| && KillsCovered(P, dir, pool, universe, dominated, dead)
      invariant forall k: nat :: k < |pool| && before[k] ==> dead[k]
      invariant forall h: nat, i: nat :: h < ei && i < |batch| ==>
        Apart(P, dir, pool, dead, row.ids[h], batch[i]) && Apart(P, dir, pool, dead, batch[i], row.ids[h])
    {
      dead := FusedStep(P, dir, pool, dominated, dead, row, ei, batch, lo, hi, universe);
    }
  }

  /** Step 4: the batch labels that are left enter the row. */
  method InsertSurvivors<S>(P: Problem<S>, pool: seq<Label<S>>, dead: seq<bool>, row: Row, batch: seq<nat>)
    returns (r: Row, inserted: nat)
    requires RowOk(P, pool, row) && Ascending(row.costs) && |dead| == |pool|
    requires Distinct(batch) && forall i: nat :: i < |batch| ==> batch[i] < |pool| && batch[i] !in row.ids
    ensures RowOk(P, pool, r) && Ascending(r.costs)
    ensures forall k: nat :: k in r.ids <==> k in row.ids || (k in batch && k < |dead| && !dead[k])
    ensures |r.ids| == |row.ids| + inserted && (inserted == 0 ==> r == row)
  {
    r, inserted := row, 0;
    for i := 0 to |batch|
      invariant RowOk(P, pool, r) && Ascending(r.costs)
      invariant forall k: nat :: k in r.ids <==> k in row.ids || (k in batch[..i] && k < |dead| && !dead[k])
      invariant |r.ids| == |row.ids| + inserted && (inserted == 0 ==> r == row)
    {
      assert batch[..i + 1] == batch[..i] + [batch[i]];
      if dead[batch[i]] { continue; }
      assert batch[i] !in batch[..i];
      r := InsertSorted(P, pool, r, batch[i]);
      inserted := inserted + 1;
    }
    assert batch[..|batch|] == batch;
  }

  /**
   * batch_try_insert on one row. Whatever is marked is dominated by something kept, and what
   * is kept of the row and of the batch does not dominate each other.
   */
  method BatchInsert<S(!new)>(P: Problem<S>, dir: Direction, pool: seq<Label<S>>, dominated: seq<bool>, row: Row,
                              group: seq<nat>)
    returns (marked: seq<bool>, r: Row, inserted: nat, batch: seq<nat>)
    requires Disposable(P.pack, P.top) && RowOk(P, pool, row) && Ascending(row.costs) && |dominated| == |pool|
    requires Distinct(group) && forall i: nat ::
             i < |group| ==> group[i] < |pool| && group[i] !in row.ids && !dominated[group[i]]
    ensures multiset(batch) == multiset(group)
    ensures |marked| == |pool| && RowOk(P, pool, r) && Ascending(r.costs)
    ensures KillsCovered(P, dir, pool, Universe(row, group), dominated, marked)
    ensures forall k: nat :: k in r.ids <==> k in row.ids || (k in group && k < |marked| && !marked[k])
    ensures |r.ids| == |row.ids| + inserted && (inserted == 0 ==> r == row)
    ensures RowApart(P, dir, pool, marked, row.ids, batch) && BatchApart(P, dir, pool, marked, batch)
  {
    hide Dominates;
    var cost := (k: nat) => if k < |pool| then pool[k].node.cost else 0.0;
    batch := SortBy(cost, group);
    PermutationFacts(batch, group);
    ghost var universe := Universe(row, group);
    forall i: nat | i < |row.ids|
      ensures row.ids[i] < |pool| && row.ids[i] in universe
    {
      assert Entry(P, pool, row, i);
    }
    assert forall k :: k in universe ==> k < |pool|;
    forall i: nat | i < |batch|
      ensures batch[i] in group && batch[i] in universe && batch[i] < |pool| && batch[i] !in row.ids
    {
      assert batch[i] in batch;
    }
    marked := ThinBatch(P, dir, pool, dominated, batch, universe);
    var any, lo, hi := SurvivorRange(pool, marked, batch);
    ghost var thinned := marked;
    if any {
      marked := FusedPass(P, dir, pool, dominated, marked, row, batch, lo, hi, universe);
    }
    assert forall k: nat :: k < |pool| && thinned[k] ==> marked[k];
    r, inserted := InsertSurvivors(P, pool, marked, row, batch);
  }

  ghost function Universe(row: Row, group: seq<nat>): set<nat> { set k | k in row.ids + group }

  // ----- Compaction -----


  /** The labels of ids that are not marked, in the same order. */
  function Unmarked(ids: seq<nat>, marked: seq<bool>): seq<nat> {
    if ids == [] then [] else
    var k := ids[|ids| - 1];
    Unmarked(ids[..|ids| - 1], marked) + if k < |marked| && !marked[k] then [k] else []
  }

  lemma {:induction false} UnmarkedMembers(ids: seq<nat>, marked: seq<bool>)
    ensures forall k: nat :: k in Unmarked(ids, marked) <==> k in ids && k < |marked| && !marked[k]
  {
    if ids != [] {
      UnmarkedMembers(ids[..|ids| - 1], marked);
      assert ids == ids[..|ids| - 1] + [ids[|ids| - 1]];
    }
  }

  /** compact_bucket: the row keeps its undominated labels in order. */
  method CompactRow<S>(P: Problem<S>, pool: seq<Label<S>>, dominated: seq<bool>, row: Row) returns (r: Row)
    requires RowOk(P, pool, row) && |dominated| == |pool|
    ensures RowOk(P, pool, r)
    ensures Ascending(row.costs) ==> Ascending(r.costs)
    ensures r.ids == Unmarked(row.ids, dominated)
    ensures forall k: nat :: k in r.ids <==> k in row.ids && k < |dominated| && !dominated[k]
  {
    r := EMPTY_ROW;
    for i := 0 to |row.ids|
      invariant RowOk(P, pool, r)
      invariant Ascending(row.costs) ==>
                  Ascending(r.costs) && forall j: nat ::
                  j < |r.costs| ==> exists h: nat :: h < i && h < |row.costs| && r.costs[j] == row.costs[h]
      invariant r.ids == Unmarked(row.ids[..i], dominated)
    {
      assert Entry(P, pool, row, i);
      assert row.ids[..i + 1][..i] == row.ids[..i];
      assert row.ids[..i + 1] == row.ids[..i] + [row.ids[i]];
      if !dominated[row.ids[i]] {
        ghost var r0 := r;
        assert row.ids[i] !in row.ids[..i];
        UnmarkedMembers(row.ids[..i], dominated);
        r := Row(r.ids + [row.ids[i]], r.costs + [pool[row.ids[i]].node.cost], r.q0 + [pool[row.ids[i]].node.q.x],
                 r.q1 + [pool[row.ids[i]].node.q.y], r.ng + [NodeNg(P, pool[row.ids[i]].node)],
                 r.r1c + [P.pack.r1cBits(pool[row.ids[i]].node.states)]);
        CompactStep(P, pool, r0, r, row.ids[i]);
      }
    }
    assert row.ids[..|row.ids|] == row.ids;
    UnmarkedMembers(row.ids, dominated);
  }

  lemma CompactStep<S>(P: Problem<S>, pool: seq<Label<S>>, r0: Row, r: Row, id: nat)
    requires RowOk(P, pool, r0) && id < |pool| && id !in r0.ids
    requires var n := pool[id].node;
             r == Row(r0.ids + [id], r0.costs + [n.cost], r0.q0 + [n.q.x], r0.q1 + [n.q.y], r0.ng + [NodeNg(P, n)],
             r0.r1c + [P.pack.r1cBits(n.states)])
    ensures RowOk(P, pool, r)
  {
    forall i: nat | i < |r.ids| ensures Entry(P, pool, r, i) {
      if i < |r0.ids| { assert Entry(P, pool, r0, i); }
    }
    forall i: nat, j: nat | i < j < |r.ids| ensures r.ids[i] != r.ids[j] {
      if j == |r0.ids| { assert r.ids[i] in r0.ids; }
    }
  }
}
