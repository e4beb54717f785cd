// Stand-ins for the C++ standard algorithms the engine leans on: std::sort
// with a key, and std::lower_bound on an ascending vector.
module Sorting {
  import opened Prelude

  ghost predicate SortedBy<T>(xs: seq<T>, key: T -> real) {
    forall i, j :: 0 <= i < j < |xs| ==> key(xs[i]) <= key(xs[j])
  }

  // The place of x in the sorted ys: everything before has a key at most
  // key(x), everything from there on a larger one.
  method Place<T>(ys: seq<T>, x: T, key: T -> real) returns (p: nat)
    requires SortedBy(ys, key)
    ensures p <= |ys|
    ensures forall i :: 0 <= i < p ==> key(ys[i]) <= key(x)
    ensures forall i :: p <= i < |ys| ==> key(x) < key(ys[i])
  {
    p := |ys|;
    while p > 0 && key(x) < key(ys[p - 1])
      invariant p <= |ys|
      invariant forall i :: p <= i < |ys| ==> key(x) < key(ys[i])
    {
      p := p - 1;
    }
  }

  method Insert<T>(ys: seq<T>, x: T, key: T -> real) returns (zs: seq<T>)
    requires SortedBy(ys, key)
    ensures SortedBy(zs, key)
    ensures multiset(zs) == multiset(ys) + multiset{x}
    ensures |zs| == |ys| + 1
  {
    var p := Place(ys, x, key);
    zs := ys[..p] + [x] + ys[p..];
    assert ys == ys[..p] + ys[p..];
  }

  method Sort<T>(xs: seq<T>, key: T -> real) returns (ys: seq<T>)
    ensures SortedBy(ys, key)
    ensures multiset(ys) == multiset(xs)
    ensures |ys| == |xs|
  {
    ys := [];
    for i := 0 to |xs|
      invariant SortedBy(ys, key)
      invariant multiset(ys) == multiset(xs[..i])
      invariant |ys| == i
    {
      ys := Insert(ys, xs[i], key);
      assert xs[..i + 1] == xs[..i] + [xs[i]];
    }
    assert xs[..|xs|] == xs;
  }

  ghost predicate Ascending(docs: seq<DocId>) {
    forall i, j :: 0 <= i < j < |docs| ==> docs[i] < docs[j]
  }

  // The documents a cursor standing at index `from` still has to deliver.
  ghost function Tail(docs: seq<DocId>, from: nat): set<DocId> {
    set i | from <= i < |docs| :: docs[i]
  }

  // First index from `from` on whose document is at or after `target`, or
  // |docs| when there is none: a binary search, as std::lower_bound makes.
  method LowerBound(docs: seq<DocId>, from: nat, target: DocId) returns (idx: nat)
    requires from <= |docs| && Ascending(docs)
    ensures from <= idx <= |docs|
    ensures forall i :: from <= i < idx ==> docs[i] < target
    ensures forall i :: idx <= i < |docs| ==> target <= docs[i]
    ensures Tail(docs, idx) == From(Tail(docs, from), target)
  {
    idx := from;
    var hi := |docs|;
    while idx < hi
      invariant from <= idx <= hi <= |docs|
      invariant forall i :: from <= i < idx ==> docs[i] < target
      invariant forall i :: hi <= i < |docs| ==> target <= docs[i]
    {
      var mid := (idx + hi) / 2;
      if docs[mid] < target {
        idx := mid + 1;
      } else {
        hi := mid;
      }
    }
    assert Tail(docs, idx) == From(Tail(docs, from), target);
  }

  // Advancing one index drops exactly the document that was there.
  lemma TailStep(docs: seq<DocId>, from: nat)
    requires from < |docs| && Ascending(docs)
    ensures Tail(docs, from + 1) == Tail(docs, from) - {docs[from]}
    ensures docs[from] in Tail(docs, from)
    ensures forall d :: d in Tail(docs, from) ==> docs[from] <= d
  {
  }

  ghost predicate Distinct<T>(xs: seq<T>) {
    forall i, j :: 0 <= i < j < |xs| ==> xs[i] != xs[j]
  }

  lemma {:induction false} DistinctOnce<T>(xs: seq<T>, x: T)
    requires Distinct(xs)
    ensures multiset(xs)[x] <= 1
  {
    if xs != [] {
      var front := xs[..|xs| - 1];
      assert xs == front + [xs[|xs| - 1]];
      DistinctOnce(front, x);
      assert xs[|xs| - 1] !in multiset(front) by {
        assert forall i :: 0 <= i < |front| ==> front[i] != xs[|xs| - 1];
      }
    }
  }

  lemma TwiceCounted<T>(ys: seq<T>, i: nat, j: nat)
    requires i < j < |ys| && ys[i] == ys[j]
    ensures multiset(ys)[ys[i]] >= 2
  {
    assert ys == ys[..j] + [ys[j]] + ys[j + 1..];
    assert ys[..j][i] == ys[i];
    assert ys[i] in multiset(ys[..j]);
  }

  // Reordering keeps the elements distinct.
  lemma PermutationDistinct<T>(xs: seq<T>, ys: seq<T>)
    requires Distinct(xs) && multiset(xs) == multiset(ys)
    ensures Distinct(ys)
  {
    forall i, j | 0 <= i < j < |ys|
      ensures ys[i] != ys[j]
    {
      DistinctOnce(xs, ys[i]);
      if ys[i] == ys[j] {
        TwiceCounted(ys, i, j);
      }
    }
  }

  lemma PermutationMembers<T>(xs: seq<T>, ys: seq<T>)
    requires multiset(xs) == multiset(ys)
    ensures |xs| == |ys|
    ensures forall x :: x in xs <==> x in ys
  {
    assert |multiset(xs)| == |multiset(ys)|;
    forall x
      ensures x in xs <==> x in ys
    {
      assert x in xs <==> x in multiset(xs);
      assert x in ys <==> x in multiset(ys);
    }
  }
}
