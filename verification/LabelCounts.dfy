/** How many labels a run stores, and why it builds no partial path twice. */
module LabelCounts {
  import opened BucketArcs
  import opened LabelStores
  import opened LabelingSpec
  import opened LabelingSteps

  /** Labels one component may store before the loop gives up. */
  const SCC_CAP := 500000

  // ----- Stored labels -----

  /** The number of labels in all rows. */
  function Stored(rows: seq<Row>): nat {
    if rows == [] then 0 else Stored(rows[..|rows| - 1]) + |rows[|rows| - 1].ids|
  }

  lemma {:induction false} StoredUpdate(rows: seq<Row>, b: nat, row: Row)
    requires b < |rows|
    ensures Stored(rows[b := row]) + |rows[b].ids| == Stored(rows) + |row.ids|
    decreases |rows|
  {
    var n, more := |rows| - 1, rows[b := row];
    if b == n {
      assert more[..n] == rows[..n];
    } else {
      StoredUpdate(rows[..n], b, row);
      assert more[..n] == rows[..n][b := row];
    }
  }

  function Members(s: seq<nat>): set<nat> { set k | k in s }

  lemma {:induction false} MembersSize(s: seq<nat>)
    requires forall i: nat, j: nat :: i < j < |s| ==> s[i] != s[j]
    ensures |Members(s)| == |s|
  {
    if s != [] {
      var n := |s| - 1;
      MembersSize(s[..n]);
      assert s == s[..n] + [s[n]];
      assert Members(s) == Members(s[..n]) + {s[n]};
      assert s[n] !in Members(s[..n]);
    }
  }

  function Below(n: nat): (s: set<nat>)
    ensures forall k: nat :: k in s <==> k < n
  {
    if n == 0 then {} else Below(n - 1) + {n - 1}
  }

  lemma {:induction false} BelowSize(n: nat)
    ensures |Below(n)| == n
  {
    if n > 0 { BelowSize(n - 1); }
  }

  /** Labels of the first n rows. */
  lemma {:induction false} StoredSet<S(!new)>(C: Setup<S>, s: Store<S>, n: nat) returns (all: set<nat>)
    requires SetupOk(C) && StoreOk(C, s) && n <= |s.rows|
    ensures |all| == Stored(s.rows[..n]) && all <= Below(|s.pool|)
    ensures forall k :: k in all ==> k < |s.pool| && s.pool[k].bucket < n
  {
    hide SetupOk, LabelOk, Entry;
    if n == 0 {
      all := {};
    } else {
      var rest := StoredSet(C, s, n - 1);
      assert RowIn(C, s, n - 1);
      var ids := s.rows[n - 1].ids;
      MembersSize(ids);
      assert s.rows[..n][..n - 1] == s.rows[..n - 1];
      assert rest !! Members(ids);
      all := rest + Members(ids);
    }
  }

  /** No label is stored twice. */
  lemma StoredWithinPool<S(!new)>(C: Setup<S>, s: Store<S>)
    requires SetupOk(C) && StoreOk(C, s)
    ensures Stored(s.rows) <= |s.pool|
  {
    hide SetupOk, StoreOk;
    RowCount(C, s);
    var all := StoredSet(C, s, |s.rows|);
    assert s.rows[..|s.rows|] == s.rows;
    BelowSize(|s.pool|);
    SubsetSize(all, Below(|s.pool|));
  }

  lemma RowCount<S(!new)>(C: Setup<S>, s: Store<S>)
    requires SetupOk(C) && StoreOk(C, s)
    ensures |s.rows| == |C.G.buckets|
  {
  }

  lemma {:induction false} SubsetSize<T>(a: set<T>, b: set<T>)
    requires a <= b
    ensures |a| <= |b|
    decreases |a|
  {
    if x :| x in a {
      SubsetSize(a - {x}, b - {x});
      assert |b - {x}| == |b| - 1;
    }
  }

  // ----- Births -----

  /** Without jump arcs a bucket has each arc once. */
  ghost predicate Plain<S>(C: Setup<S>) {
    NoJumps(C) && forall b: nat :: b < |C.arcs| ==> ArcOrder(C.arcs[b])
  }

  /** At most one label has been allocated, a child of k over arc a. */
  ghost predicate Added<S>(pool: seq<Label<S>>, more: seq<Label<S>>, k: nat, a: nat) {
    pool == more || (|more| == |pool| + 1 && pool <= more && more[|pool|].parent == k && more[|pool|].arc == a)
  }

  /** The labels allocated since s are children of k over the first i arcs of list, each over another one. */
  ghost predicate Births<S>(s: seq<Label<S>>, t: seq<Label<S>>, k: nat, list: seq<BucketArc>, i: nat, plain: bool) {
    && s <= t
    && (forall h: nat :: |s| <= h < |t| ==> t[h].parent == k && (plain ==> AmongArcs(list, i, t[h].arc)))
    && (plain ==> forall g: nat, h: nat :: |s| <= g < h < |t| ==> t[g].arc != t[h].arc)
  }

  lemma BirthsStep<S>(s: seq<Label<S>>, t: seq<Label<S>>, u: seq<Label<S>>, k: nat, list: seq<BucketArc>, i: nat,
                      plain: bool)
    requires Births(s, t, k, list, i, plain) && i < |list| && Added(t, u, k, list[i].arc) && (plain ==> ArcOrder(list))
    ensures Births(s, u, k, list, i + 1, plain)
  {
    forall h: nat | |s| <= h < |u| ensures u[h].parent == k && (plain ==> AmongArcs(list, i + 1, u[h].arc)) {
      MoreArcs(list, i, u[h].arc);
    }
    if plain {
      forall g: nat, h: nat | |s| <= g < h < |u| ensures u[g].arc != u[h].arc {
        assert u[g] == t[g] && AmongArcs(list, i, t[g].arc);
        if h == |t| { var x: nat :| x < i && x < |list| && list[x].arc == t[g].arc; }
      }
    }
  }

  lemma BirthsOther<S>(s: seq<Label<S>>, t: seq<Label<S>>, u: seq<Label<S>>, k: nat, list: seq<BucketArc>, i: nat,
                       a: nat)
    requires Births(s, t, k, list, i, false) && Added(t, u, k, a)
    ensures Births(s, u, k, list, i, false)
  {
  }

  ghost predicate Siblings<S>(pool: seq<Label<S>>, j: nat, k: nat)
    requires j < |pool| && k < |pool|
  {
    pool[j].parent >= 0 && pool[j].parent == pool[k].parent && pool[j].arc == pool[k].arc
  }

  /** Only extended labels have children, and without jump arcs one over each arc. */
  ghost predicate BornOnce<S>(C: Setup<S>, s: Store<S>) {
    && |s.extended| == |s.pool|
    && (forall k: nat :: k < |s.pool| ==> Descends(s, k))
    && (Plain(C) ==> forall j: nat, k: nat :: j < |s.pool| && k < |s.pool| && Siblings(s.pool, j, k) ==> j == k)
  }

  /** Label k is the first label or child of an extended one. */
  ghost predicate Descends<S>(s: Store<S>, k: nat)
    requires k < |s.pool|
  {
    var p := s.pool[k].parent;
    if p < 0 then k == 0 else p < k && p < |s.extended| && s.extended[p]
  }

  /** Extending a label that had not been extended, and flagging it, keeps this. */
  lemma BornOnceAfter<S>(C: Setup<S>, s: Store<S>, u: Store<S>, t: Store<S>, k: nat, list: seq<BucketArc>)
    requires BornOnce(C, s) && k < |s.pool| && !s.extended[k] && Births(s.pool, u.pool, k, list, |list|, Plain(C))
    requires Appends(s, u) && |u.extended| == |u.pool| && t == u.(extended := u.extended[k := true])
    ensures BornOnce(C, t)
  {
    hide Plain;
    forall h: nat | h < |t.pool| ensures Descends(t, h) {
      if h < |s.pool| { assert Descends(s, h); }
    }
    if Plain(C) {
      forall j: nat, h: nat | j < |t.pool| && h < |t.pool| && Siblings(t.pool, j, h) ensures j == h {
        if j < |s.pool| { assert Descends(s, j); }
        if h < |s.pool| { assert Descends(s, h); }
        if j < |s.pool| && h < |s.pool| { assert Siblings(s.pool, j, h); }
      }
    }
  }

  lemma BornOnceRoot<S>(C: Setup<S>, s: Store<S>)
    requires |s.pool| == 1 == |s.extended| && s.pool[0].parent < 0
    ensures BornOnce(C, s)
  {
  }

  /** What does not touch the pool or the flags keeps it. */
  lemma BornOnceSame<S>(C: Setup<S>, s: Store<S>, t: Store<S>)
    requires BornOnce(C, s) && t.pool == s.pool && t.extended == s.extended
    ensures BornOnce(C, t)
  {
    hide Plain;
    forall k: nat | k < |t.pool| ensures Descends(t, k) { assert Descends(s, k); }
  }
}
