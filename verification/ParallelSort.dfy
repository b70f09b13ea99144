/** Sorting in chunks with pairwise merges (parallel_sort in executor.h). */
module ParallelSorting {
  import opened Sorting

  /** Below this size one call of std::sort does it all. */
  const THRESHOLD := 4096

  ghost predicate Ordered<T>(key: T -> real, s: seq<T>, lo: nat, hi: nat) {
    lo <= hi <= |s| && forall i: nat, j: nat :: lo <= i < j < hi ==> key(s[i]) <= key(s[j])
  }

  /** Only the range has changed, and it holds the same elements. */
  ghost predicate Permuted<T>(s: seq<T>, t: seq<T>, lo: nat, hi: nat) {
    && lo <= hi <= |s| == |t| && t[..lo] == s[..lo] && t[hi..] == s[hi..]
    && multiset(t[lo..hi]) == multiset(s[lo..hi])
  }

  lemma PermutedWhole<T>(s: seq<T>, t: seq<T>, lo: nat, hi: nat)
    requires Permuted(s, t, lo, hi)
    ensures multiset(t) == multiset(s)
    ensures forall i: nat :: i < lo || hi <= i < |s| ==> t[i] == s[i]
  {
    assert s == s[..lo] + s[lo..hi] + s[hi..] && t == t[..lo] + t[lo..hi] + t[hi..];
    forall i: nat | i < lo || hi <= i < |s| ensures t[i] == s[i] {
      if i < lo { assert t[..lo][i] == s[..lo][i]; } else { assert t[hi..][i - hi] == s[hi..][i - hi]; }
    }
  }

  /** Writing a sequence into a range of an array. */
  method Store<T>(a: array<T>, lo: nat, r: seq<T>)
    requires lo + |r| <= a.Length
    modifies a
    ensures a[..] == old(a[..lo]) + r + old(a[lo + |r|..])
  {
    for i := 0 to |r|
      invariant a[..] == old(a[..lo]) + r[..i] + old(a[lo + i..])
    {
      a[lo + i] := r[i];
    }
  }

  lemma Stored<T>(s: seq<T>, lo: nat, hi: nat, r: seq<T>)
    requires lo <= hi <= |s| && |r| == hi - lo && multiset(r) == multiset(s[lo..hi])
    ensures var t := s[..lo] + r + s[hi..]; Permuted(s, t, lo, hi) && t[lo..hi] == r
  {
    var t := s[..lo] + r + s[hi..];
    assert t[lo..hi] == r && t[..lo] == s[..lo] && t[hi..] == s[hi..];
  }

  lemma OrderedSlice<T>(key: T -> real, s: seq<T>, lo: nat, hi: nat)
    requires lo <= hi <= |s|
    ensures Ordered(key, s, lo, hi) <==> SortedBy(key, s[lo..hi])
  {
    if SortedBy(key, s[lo..hi]) {
      forall i: nat, j: nat | lo <= i < j < hi ensures key(s[i]) <= key(s[j]) {
        assert key(s[lo..hi][i - lo]) <= key(s[lo..hi][j - lo]);
      }
    }
  }

  /** std::sort on a range. */
  method SortRange<T>(key: T -> real, a: array<T>, lo: nat, hi: nat)
    requires lo <= hi <= a.Length
    modifies a
    ensures Permuted(old(a[..]), a[..], lo, hi) && Ordered(key, a[..], lo, hi)
  {
    var r := SortBy(key, a[lo..hi]);
    ghost var s := a[..];
    assert s[lo..hi] == a[lo..hi];
    Store(a, lo, r);
    Stored(s, lo, hi, r);
    OrderedSlice(key, a[..], lo, hi);
  }

  /** What the merge of the first i elements of s and the first j of t looks like. */
  ghost predicate Merged<T>(key: T -> real, s: seq<T>, t: seq<T>, r: seq<T>, i: nat, j: nat) {
    && i <= |s| && j <= |t| && |r| == i + j && multiset(r) == multiset(s[..i]) + multiset(t[..j])
    && SortedBy(key, r)
    && (forall h: nat :: h < |r| && i < |s| ==> key(r[h]) <= key(s[i]))
    && (forall h: nat :: h < |r| && j < |t| ==> key(r[h]) <= key(t[j]))
  }

  lemma TakeLeft<T>(key: T -> real, s: seq<T>, t: seq<T>, r: seq<T>, i: nat, j: nat)
    requires SortedBy(key, s) && Merged(key, s, t, r, i, j) && i < |s| && (j < |t| ==> key(s[i]) <= key(t[j]))
    ensures Merged(key, s, t, r + [s[i]], i + 1, j)
  {
    assert s[..i + 1] == s[..i] + [s[i]];
    assert multiset(r + [s[i]]) == multiset(r) + multiset{s[i]};
    assert i + 1 < |s| ==> key(s[i]) <= key(s[i + 1]);
  }

  lemma TakeRight<T>(key: T -> real, s: seq<T>, t: seq<T>, r: seq<T>, i: nat, j: nat)
    requires SortedBy(key, t) && Merged(key, s, t, r, i, j) && j < |t| && (i < |s| ==> key(t[j]) <= key(s[i]))
    ensures Merged(key, s, t, r + [t[j]], i, j + 1)
  {
    assert t[..j + 1] == t[..j] + [t[j]];
    assert multiset(r + [t[j]]) == multiset(r) + multiset{t[j]};
    assert j + 1 < |t| ==> key(t[j]) <= key(t[j + 1]);
  }

  /** Merging two sorted sequences; on a tie the left one goes first. */
  method Merge<T>(key: T -> real, s: seq<T>, t: seq<T>) returns (r: seq<T>)
    requires SortedBy(key, s) && SortedBy(key, t)
    ensures SortedBy(key, r) && multiset(r) == multiset(s) + multiset(t) && |r| == |s| + |t|
  {
    hide SortedBy;
    r := [];
    var i: nat, j: nat := 0, 0;
    MergeStart(key, s, t);
    while i < |s| || j < |t|
      invariant Merged(key, s, t, r, i, j)
      decreases |s| - i + |t| - j
    {
      if j == |t| || (i < |s| && key(s[i]) <= key(t[j])) {
        TakeLeft(key, s, t, r, i, j);
        r := r + [s[i]];
        i := i + 1;
      } else {
        TakeRight(key, s, t, r, i, j);
        r := r + [t[j]];
        j := j + 1;
      }
    }
    assert s[..|s|] == s && t[..|t|] == t;
  }

  lemma MergeStart<T>(key: T -> real, s: seq<T>, t: seq<T>)
    ensures Merged(key, s, t, [], 0, 0)
  {
  }

  /** std::inplace_merge. */
  method InplaceMerge<T>(key: T -> real, a: array<T>, lo: nat, mid: nat, hi: nat)
    requires lo <= mid <= hi <= a.Length
    requires Ordered(key, a[..], lo, mid) && Ordered(key, a[..], mid, hi)
    modifies a
    ensures Permuted(old(a[..]), a[..], lo, hi) && Ordered(key, a[..], lo, hi)
  {
    ghost var s := a[..];
    OrderedSlice(key, s, lo, mid);
    OrderedSlice(key, s, mid, hi);
    assert s[lo..mid] == a[lo..mid] && s[mid..hi] == a[mid..hi];
    var r := Merge(key, a[lo..mid], a[mid..hi]);
    assert s[lo..hi] == s[lo..mid] + s[mid..hi];
    Store(a, lo, r);
    Stored(s, lo, hi, r);
    OrderedSlice(key, a[..], lo, hi);
  }

  // ----- Runs -----

  /** Where chunk i begins; the last chunk takes the remainder. */
  function Begin(n: nat, chunks: nat, size: nat, i: nat): nat { if i >= chunks then n else i * size }

  lemma BeginMonotone(n: nat, chunks: nat, size: nat, i: nat, j: nat)
    requires chunks * size <= n && i <= j
    ensures Begin(n, chunks, size, i) <= Begin(n, chunks, size, j) <= n
  {
    if j < chunks {
      assert i * size <= j * size <= chunks * size;
    } else if i < chunks {
      assert i * size <= chunks * size;
    }
  }

  lemma Product(x: nat, y: nat, w: nat)
    requires x <= y
    ensures x * w <= y * w
  {
  }

  /** Start of run j when runs are w chunks long. */
  function RunStart(n: nat, chunks: nat, size: nat, w: nat, j: nat): nat { Begin(n, chunks, size, j * w) }

  lemma RunMonotone(n: nat, chunks: nat, size: nat, w: nat, j: nat, k: nat)
    requires chunks * size <= n && j <= k
    ensures RunStart(n, chunks, size, w, j) <= RunStart(n, chunks, size, w, k) <= n
  {
    Product(j, k, w);
    BeginMonotone(n, chunks, size, j * w, k * w);
  }

  /** Run j of width w is sorted. */
  ghost predicate RunSorted<T>(key: T -> real, s: seq<T>, chunks: nat, size: nat, w: nat, j: nat) {
    Ordered(key, s, RunStart(|s|, chunks, size, w, j), RunStart(|s|, chunks, size, w, j + 1))
  }

  ghost predicate AllRuns<T>(key: T -> real, s: seq<T>, chunks: nat, size: nat, w: nat) {
    forall j: nat :: RunSorted(key, s, chunks, size, w, j)
  }

  /** The first p pairs of runs are merged, the rest is as before. */
  ghost predicate Halfway<T>(key: T -> real, s: seq<T>, chunks: nat, size: nat, w: nat, p: nat) {
    && (forall j: nat :: j < p ==> RunSorted(key, s, chunks, size, 2 * w, j))
    && (forall j: nat :: 2 * p <= j ==> RunSorted(key, s, chunks, size, w, j))
  }

  lemma DoubleRun(n: nat, chunks: nat, size: nat, w: nat, j: nat)
    ensures RunStart(n, chunks, size, 2 * w, j) == RunStart(n, chunks, size, w, 2 * j)
    ensures RunStart(n, chunks, size, 2 * w, j + 1) == RunStart(n, chunks, size, w, 2 * j + 2)
  {
    assert j * (2 * w) == 2 * j * w && (j + 1) * (2 * w) == (2 * j + 2) * w;
  }

  lemma Untouched<T>(key: T -> real, s: seq<T>, t: seq<T>, lo: nat, hi: nat, x: nat, y: nat)
    requires Permuted(s, t, lo, hi) && Ordered(key, s, x, y) && (y <= lo || hi <= x)
    ensures Ordered(key, t, x, y)
  {
    PermutedWhole(s, t, lo, hi);
  }

  /** One merge leaves the other runs of the round alone. */
  lemma PairMerged<T>(key: T -> real, s: seq<T>, t: seq<T>, chunks: nat, size: nat, w: nat, p: nat)
    requires chunks * size <= |s| && Halfway(key, s, chunks, size, w, p)
    requires Permuted(s, t, RunStart(|s|, chunks, size, w, 2 * p), RunStart(|s|, chunks, size, w, 2 * p + 2))
    requires Ordered(key, t, RunStart(|s|, chunks, size, w, 2 * p), RunStart(|s|, chunks, size, w, 2 * p + 2))
    ensures Halfway(key, t, chunks, size, w, p + 1)
  {
    hide RunStart, Ordered, Permuted;
    var n := |s|;
    var lo, hi := RunStart(n, chunks, size, w, 2 * p), RunStart(n, chunks, size, w, 2 * p + 2);
    assert |t| == n by { SameLength(s, t, lo, hi); }
    DoubleRun(n, chunks, size, w, p);
    forall j: nat | j < p + 1 ensures RunSorted(key, t, chunks, size, 2 * w, j) {
      if j < p {
        assert RunSorted(key, s, chunks, size, 2 * w, j);
        DoubleRun(n, chunks, size, w, j);
        RunMonotone(n, chunks, size, w, 2 * j + 2, 2 * p);
        Untouched(key, s, t, lo, hi, RunStart(n, chunks, size, 2 * w, j), RunStart(n, chunks, size, 2 * w, j + 1));
      }
    }
    forall j: nat | 2 * (p + 1) <= j ensures RunSorted(key, t, chunks, size, w, j) {
      assert RunSorted(key, s, chunks, size, w, j);
      RunMonotone(n, chunks, size, w, 2 * p + 2, j);
      Untouched(key, s, t, lo, hi, RunStart(n, chunks, size, w, j), RunStart(n, chunks, size, w, j + 1));
    }
  }

  lemma SameLength<T>(s: seq<T>, t: seq<T>, lo: nat, hi: nat)
    requires Permuted(s, t, lo, hi)
    ensures |s| == |t|
  {
  }

  /** When no pair is left, the remaining runs are as good as merged. */
  lemma RoundDone<T>(key: T -> real, s: seq<T>, chunks: nat, size: nat, w: nat, p: nat)
    requires chunks * size <= |s| && Halfway(key, s, chunks, size, w, p) && (2 * p + 1) * w >= chunks
    ensures AllRuns(key, s, chunks, size, 2 * w)
  {
    hide Ordered;
    var n := |s|;
    forall j: nat ensures RunSorted(key, s, chunks, size, 2 * w, j) {
      if j >= p {
        DoubleRun(n, chunks, size, w, j);
        assert RunSorted(key, s, chunks, size, w, 2 * j);
        Product(2 * p + 1, 2 * j + 1, w);
        Product(2 * j + 1, 2 * j + 2, w);
        assert RunStart(n, chunks, size, w, 2 * j + 1) == n == RunStart(n, chunks, size, w, 2 * j + 2);
      }
    }
  }

  /** One round: runs of width w are merged in pairs, which touch disjoint ranges. */
  method MergeRound<T>(key: T -> real, a: array<T>, chunks: nat, size: nat, w: nat)
    requires chunks * size <= a.Length && w >= 1 && AllRuns(key, a[..], chunks, size, w)
    modifies a
    ensures multiset(a[..]) == old(multiset(a[..])) && AllRuns(key, a[..], chunks, size, 2 * w)
  {
    hide RunStart, Ordered, Permuted, RunSorted;
    var p: nat := 0;
    while (2 * p + 1) * w < chunks
      invariant multiset(a[..]) == old(multiset(a[..]))
      invariant Halfway(key, a[..], chunks, size, w, p)
      decreases chunks - p
    {
      PairBounds(chunks, w, p);
      var lo := RunStart(a.Length, chunks, size, w, 2 * p);
      var mid := RunStart(a.Length, chunks, size, w, 2 * p + 1);
      var hi := RunStart(a.Length, chunks, size, w, 2 * p + 2);
      RunMonotone(a.Length, chunks, size, w, 2 * p, 2 * p + 1);
      RunMonotone(a.Length, chunks, size, w, 2 * p + 1, 2 * p + 2);
      ghost var s := a[..];
      TwoRuns(key, s, chunks, size, w, p);
      InplaceMerge(key, a, lo, mid, hi);
      PairMerged(key, s, a[..], chunks, size, w, p);
      PermutedWhole(s, a[..], lo, hi);
      p := p + 1;
    }
    RoundDone(key, a[..], chunks, size, w, p);
  }

  lemma PairBounds(chunks: nat, w: nat, p: nat)
    requires w >= 1 && (2 * p + 1) * w < chunks
    ensures p < chunks
  {
    assert (2 * p + 1) * 1 <= (2 * p + 1) * w;
  }

  lemma TwoRuns<T>(key: T -> real, s: seq<T>, chunks: nat, size: nat, w: nat, p: nat)
    requires Halfway(key, s, chunks, size, w, p)
    ensures Ordered(key, s, RunStart(|s|, chunks, size, w, 2 * p), RunStart(|s|, chunks, size, w, 2 * p + 1))
    ensures Ordered(key, s, RunStart(|s|, chunks, size, w, 2 * p + 1), RunStart(|s|, chunks, size, w, 2 * p + 2))
  {
    assert RunSorted(key, s, chunks, size, w, 2 * p) && RunSorted(key, s, chunks, size, w, 2 * p + 1);
  }

  /** All rounds, each doubling the width. */
  method MergeAll<T>(key: T -> real, a: array<T>, chunks: nat, size: nat)
    requires chunks >= 1 && chunks * size <= a.Length && AllRuns(key, a[..], chunks, size, 1)
    modifies a
    ensures multiset(a[..]) == old(multiset(a[..])) && SortedBy(key, a[..])
  {
    hide AllRuns;
    var w: nat := 1;
    while w < chunks
      invariant w >= 1 && multiset(a[..]) == old(multiset(a[..])) && AllRuns(key, a[..], chunks, size, w)
      decreases chunks - w
    {
      MergeRound(key, a, chunks, size, w);
      w := 2 * w;
    }
    OneRun(key, a[..], chunks, size, w);
  }

  lemma OneRun<T>(key: T -> real, s: seq<T>, chunks: nat, size: nat, w: nat)
    requires chunks * size <= |s| && w >= chunks >= 1 && AllRuns(key, s, chunks, size, w)
    ensures SortedBy(key, s)
  {
    assert RunSorted(key, s, chunks, size, w, 0);
    assert 0 * w == 0 && 1 * w == w;
    assert Begin(|s|, chunks, size, 0) == 0;
  }

  lemma ChunkSorted<T>(key: T -> real, s: seq<T>, t: seq<T>, chunks: nat, size: nat, c: nat)
    requires chunks * size <= |s| && c < chunks
    requires forall j: nat :: j < c ==> RunSorted(key, s, chunks, size, 1, j)
    requires Permuted(s, t, Begin(|s|, chunks, size, c), Begin(|s|, chunks, size, c + 1))
    requires Ordered(key, t, Begin(|s|, chunks, size, c), Begin(|s|, chunks, size, c + 1))
    ensures forall j: nat :: j < c + 1 ==> RunSorted(key, t, chunks, size, 1, j)
  {
    hide Ordered, Permuted, Begin;
    var n := |s|;
    SameLength(s, t, Begin(n, chunks, size, c), Begin(n, chunks, size, c + 1));
    forall j: nat ensures RunStart(n, chunks, size, 1, j) == Begin(n, chunks, size, j) { assert j * 1 == j; }
    forall j: nat | j < c + 1 ensures RunSorted(key, t, chunks, size, 1, j) {
      if j < c {
        assert RunSorted(key, s, chunks, size, 1, j);
        BeginMonotone(n, chunks, size, j + 1, c);
        Untouched(key, s, t, Begin(n, chunks, size, c), Begin(n, chunks, size, c + 1), Begin(n, chunks, size, j),
              Begin(n, chunks, size, j + 1));
      }
    }
  }

  lemma EmptyRuns<T>(key: T -> real, s: seq<T>, chunks: nat, size: nat)
    requires chunks * size <= |s| && forall j: nat :: j < chunks ==> RunSorted(key, s, chunks, size, 1, j)
    ensures AllRuns(key, s, chunks, size, 1)
  {
    forall j: nat ensures RunSorted(key, s, chunks, size, 1, j) {
      if j >= chunks { assert j * 1 == j && (j + 1) * 1 == j + 1; }
    }
  }

  /** The first phase: every chunk by itself. */
  method SortChunks<T>(key: T -> real, a: array<T>, chunks: nat, size: nat)
    requires chunks * size <= a.Length
    modifies a
    ensures multiset(a[..]) == old(multiset(a[..])) && AllRuns(key, a[..], chunks, size, 1)
  {
    hide RunSorted, Ordered, Permuted, Begin;
    for c := 0 to chunks
      invariant multiset(a[..]) == old(multiset(a[..]))
      invariant forall j: nat :: j < c ==> RunSorted(key, a[..], chunks, size, 1, j)
    {
      ghost var s := a[..];
      BeginMonotone(a.Length, chunks, size, c, c + 1);
      var lo, hi := Begin(a.Length, chunks, size, c), Begin(a.Length, chunks, size, c + 1);
      SortRange(key, a, lo, hi);
      ChunkSorted(key, s, a[..], chunks, size, c);
      PermutedWhole(s, a[..], lo, hi);
    }
    EmptyRuns(key, a[..], chunks, size);
  }

  /** Enough chunks to share the work, but no more than 8 and no fewer than 2. */
  function ChunkCount(n: nat): (c: nat)
    ensures 2 <= c <= 8
  {
    var c := if n / 512 < 8 then n / 512 else 8;
    if c < 2 then 2 else c
  }

  /** parallel_sort: a sorted permutation for every length. */
  method ParallelSort<T>(key: T -> real, a: array<T>)
    modifies a
    ensures multiset(a[..]) == old(multiset(a[..])) && SortedBy(key, a[..])
  {
    var n := a.Length;
    if n <= THRESHOLD {
      ghost var s := a[..];
      SortRange(key, a, 0, n);
      PermutedWhole(s, a[..], 0, n);
      OrderedSlice(key, a[..], 0, n);
      assert a[..][0..n] == a[..];
      return;
    }
    var chunks := ChunkCount(n);
    var size := n / chunks;
    SortChunks(key, a, chunks, size);
    MergeAll(key, a, chunks, size);
  }
}
