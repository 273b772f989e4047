/** Sequences read as sets, and sequences that come back in another order. */
module Sequences {

  ghost function ToSet<T>(s: seq<T>): set<T>
  {
    set x | x in s
  }

  ghost predicate NoDuplicates<T>(s: seq<T>)
  {
    forall i, j :: 0 <= i < j < |s| ==> s[i] != s[j]
  }

  lemma AppendAssociates<T>(a: seq<T>, b: seq<T>, c: seq<T>)
    ensures a + b + c == a + (b + c)
  {
  }

  lemma ToSetSnoc<T>(s: seq<T>, x: T)
    ensures ToSet(s + [x]) == ToSet(s) + {x}
  {
  }

  lemma PrefixSnoc<T>(s: seq<T>, i: nat)
    requires i <= |s|
    ensures if i < |s| then s[..i + 1] == s[..i] + [s[i]] else s[..i] == s
  {
  }

  lemma SameElementsAfterShuffle<T>(batch: seq<T>, results: seq<T>)
    requires multiset(results) == multiset(batch) && NoDuplicates(batch)
    ensures ToSet(results) == ToSet(batch) && |results| == |batch| && NoDuplicates(results)
  {
    assert |multiset(results)| == |results| && |multiset(batch)| == |batch|;
    forall x
      ensures x in results <==> x in batch
    {
      assert x in multiset(results) <==> x in multiset(batch);
    }
    forall i, j | 0 <= i < j < |results|
      ensures results[i] != results[j]
    {
      if results[i] == results[j] {
        OccursTwice(results, i, j);
        OccursOnce(batch, results[i]);
      }
    }
  }

  lemma MultisetWithout<T>(s: seq<T>, i: nat)
    requires i < |s|
    ensures multiset(s[..i] + s[i + 1..]) == multiset(s) - multiset{s[i]}
  {
    assert s == s[..i] + [s[i]] + s[i + 1..];
  }

  lemma SameElements<T>(a: seq<T>, b: seq<T>)
    requires multiset(a) == multiset(b)
    ensures |a| == |b| && forall x :: x in a <==> x in b
  {
    assert |multiset(a)| == |a| && |multiset(b)| == |b|;
    forall x
      ensures x in a <==> x in b
    {
      assert x in multiset(a) <==> x in multiset(b);
    }
  }

  lemma {:induction false} DistinctCount<T>(s: seq<T>)
    requires NoDuplicates(s)
    ensures |ToSet(s)| == |s|
  {
    if s != [] {
      var init, x := s[..|s| - 1], s[|s| - 1];
      assert s == init + [x];
      DistinctCount(init);
      ToSetSnoc(init, x);
    }
  }

  lemma SubsetCount<T>(a: set<T>, b: set<T>)
    requires a <= b
    ensures |a| <= |b|
  {
    assert b == a + (b - a);
  }

  lemma SubsetOfSameCount<T>(a: set<T>, b: set<T>)
    requires a <= b && |a| >= |b|
    ensures a == b
  {
    SubsetCount(a, b);
    assert b == a + (b - a) && |b - a| == |b| - |a|;
  }

  lemma OccursTwice<T>(s: seq<T>, i: nat, j: nat)
    requires i < j < |s| && s[i] == s[j]
    ensures multiset(s)[s[i]] >= 2
  {
    assert s == s[..j] + [s[j]] + s[j + 1..];
    assert s[i] in s[..j];
  }

  lemma {:induction false} OccursOnce<T>(s: seq<T>, x: T)
    requires NoDuplicates(s)
    ensures multiset(s)[x] <= 1
    decreases |s|
  {
    if s != [] {
      assert s == s[..|s| - 1] + [s[|s| - 1]];
      OccursOnce(s[..|s| - 1], x);
    }
  }

  lemma NoDuplicatesConcat<T>(a: seq<T>, b: seq<T>)
    requires NoDuplicates(a) && NoDuplicates(b) && ToSet(a) !! ToSet(b)
    ensures NoDuplicates(a + b) && ToSet(a + b) == ToSet(a) + ToSet(b)
  {
    assert forall i :: 0 <= i < |a| ==> a[i] in ToSet(a);
    assert forall i :: 0 <= i < |b| ==> b[i] in ToSet(b);
  }
}
