/** The promise of std::sort: some sorted permutation. Callers rely on nothing else. */
module Sorting {
  ghost predicate SortedBy<T>(key: T -> real, s: seq<T>) {
    forall i: nat, j: nat :: i < j < |s| ==> key(s[i]) <= key(s[j])
  }

  method SortBy<T>(key: T -> real, s: seq<T>) returns (r: seq<T>)
    ensures multiset(r) == multiset(s) && |r| == |s|
    ensures SortedBy(key, r)
  {
    r := [];
    for i := 0 to |s|
      invariant |r| == i && multiset(r) == multiset(s[..i])
      invariant SortedBy(key, r)
    {
      r := InsertByKey(key, r, s[i]);
      assert s[..i + 1] == s[..i] + [s[i]];
    }
    assert s[..|s|] == s;
  }

  method InsertByKey<T>(key: T -> real, s: seq<T>, x: T) returns (r: seq<T>)
    requires SortedBy(key, s)
    ensures |r| == |s| + 1 && multiset(r) == multiset(s) + multiset{x}
    ensures SortedBy(key, r)
  {
    var at: nat := |s|;
    while at > 0 && key(x) < key(s[at - 1])
      invariant at <= |s|
      invariant forall j: nat :: at <= j < |s| ==> key(x) < key(s[j])
    {
      at := at - 1;
    }
    assert s == s[..at] + s[at..];
    r := s[..at] + [x] + s[at..];
    forall i: nat, j: nat | i < j < |r| ensures key(r[i]) <= key(r[j]) {
      InsertedOrder(key, s, at, x, i, j);
    }
  }

  lemma InsertedOrder<T>(key: T -> real, s: seq<T>, at: nat, x: T, i: nat, j: nat)
    requires SortedBy(key, s) && at <= |s| && i < j <= |s|
    requires at > 0 ==> key(s[at - 1]) <= key(x)
    requires at < |s| ==> key(x) <= key(s[at])
    ensures var r := s[..at] + [x] + s[at..]; key(r[i]) <= key(r[j])
  {
  }

  ghost predicate Distinct<T>(s: seq<T>) {
    forall i: nat, j: nat :: i < j < |s| ==> s[i] != s[j]
  }

  lemma DistinctMultiplicity<T>(s: seq<T>)
    ensures Distinct(s) <==> forall x :: multiset(s)[x] <= 1
  {
    if s == [] {
    } else {
      var x, rest := s[0], s[1..];
      assert s == [x] + rest;
      DistinctMultiplicity(rest);
      assert multiset(s) == multiset{x} + multiset(rest);
      if Distinct(s) {
        forall i: nat, j: nat | i < j < |rest| ensures rest[i] != rest[j] {
          assert s[i + 1] != s[j + 1];
        }
        assert x !in rest;
        assert multiset(rest)[x] == 0;
      }
      if forall y :: multiset(s)[y] <= 1 {
        forall y ensures multiset(rest)[y] <= 1 { assert multiset(s)[y] <= 1; }
        assert multiset(s)[x] <= 1;
        assert x !in multiset(rest);
        forall i: nat, j: nat | i < j < |s| ensures s[i] != s[j] {
          if i == 0 { assert s[j] == rest[j - 1]
                 && s[j] in multiset(rest); } else { assert rest[i - 1] != rest[j - 1]; }
        }
      }
    }
  }

  lemma DistinctConcat<T>(s: seq<T>, t: seq<T>)
    requires Distinct(s) && Distinct(t) && forall x :: x in s ==> x !in t
    ensures Distinct(s + t)
  {
    forall i: nat, j: nat | i < j < |s + t| ensures (s + t)[i] != (s + t)[j] {
      if i < |s| && j >= |s| { assert s[i] in s && t[j - |s|] in t; }
    }
  }

  lemma PermutationFacts<T>(r: seq<T>, s: seq<T>)
    requires multiset(r) == multiset(s)
    ensures forall x :: x in r <==> x in s
    ensures Distinct(s) ==> Distinct(r)
  {
    forall x ensures x in r <==> x in s {
      assert x in multiset(r) <==> x in multiset(s);
    }
    DistinctMultiplicity(r);
    DistinctMultiplicity(s);
  }
}
