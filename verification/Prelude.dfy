// Document identifiers, sums of reals over sequences, and the one definition
// of "these hits are the best k" that every ranking in the engine is held to.
module Prelude {

  type DocId = nat

  // 0xFFFFFFFF: the document id that means "exhausted".
  const INVALID_DOC: DocId := 0xFFFF_FFFF

  // `cur` is where a cursor over the remaining documents `rem` stands.
  ghost predicate AtMin(cur: DocId, rem: set<DocId>) {
    if cur == INVALID_DOC then rem == {}
    else cur in rem && forall d :: d in rem ==> cur <= d < INVALID_DOC
  }

  ghost function From(rem: set<DocId>, target: DocId): set<DocId> {
    set d | d in rem && target <= d
  }

  lemma FromNext(cur: DocId, rem: set<DocId>)
    requires AtMin(cur, rem) && cur != INVALID_DOC
    ensures From(rem, cur + 1) == rem - {cur}
  {
  }

  lemma DropOne<T>(a: set<T>, b: set<T>, x: T)
    ensures (a - {x}) - b == (a - b) - {x}
  {
  }

  // ---------------------------------------------------------------- sums

  ghost function SumBy<T>(f: T -> real, xs: seq<T>): real {
    if xs == [] then 0.0 else SumBy(f, xs[..|xs| - 1]) + f(xs[|xs| - 1])
  }

  lemma SumByStep<T>(f: T -> real, xs: seq<T>, i: nat)
    requires i < |xs|
    ensures SumBy(f, xs[..i + 1]) == SumBy(f, xs[..i]) + f(xs[i])
  {
    assert xs[..i + 1][..i] == xs[..i];
  }

  lemma {:induction false} SumByLe<T>(f: T -> real, g: T -> real, xs: seq<T>)
    requires forall x :: x in xs ==> f(x) <= g(x)
    ensures SumBy(f, xs) <= SumBy(g, xs)
  {
    if xs != [] {
      SumByLe(f, g, xs[..|xs| - 1]);
    }
  }

  lemma {:induction false} SumByLess<T>(f: T -> real, g: T -> real, xs: seq<T>, x: T)
    requires x in xs && f(x) < g(x) && forall y :: y in xs ==> f(y) <= g(y)
    ensures SumBy(f, xs) < SumBy(g, xs)
  {
    var front, last := xs[..|xs| - 1], xs[|xs| - 1];
    if last == x {
      SumByLe(f, g, front);
    } else {
      SumByLess(f, g, front, x);
    }
  }

  lemma {:induction false} SumBySame<T>(f: T -> real, g: T -> real, xs: seq<T>)
    requires forall x :: x in xs ==> f(x) == g(x)
    ensures SumBy(f, xs) == SumBy(g, xs)
  {
    if xs != [] {
      SumBySame(f, g, xs[..|xs| - 1]);
    }
  }

  lemma {:induction false} SumByZero<T>(f: T -> real, xs: seq<T>)
    requires forall x :: x in xs ==> f(x) == 0.0
    ensures SumBy(f, xs) == 0.0
  {
    if xs != [] {
      SumByZero(f, xs[..|xs| - 1]);
    }
  }

  lemma {:induction false} SumByConcat<T>(f: T -> real, xs: seq<T>, ys: seq<T>)
    ensures SumBy(f, xs + ys) == SumBy(f, xs) + SumBy(f, ys)
  {
    if ys == [] {
      assert xs + ys == xs;
    } else {
      SumByConcat(f, xs, ys[..|ys| - 1]);
      assert (xs + ys)[..|xs + ys| - 1] == xs + ys[..|ys| - 1];
    }
  }

  // The last element of xs has a partner in a rearrangement ys; without the
  // two the rests are rearrangements of each other.
  lemma LastInOther<T>(xs: seq<T>, ys: seq<T>) returns (j: nat)
    requires xs != [] && multiset(xs) == multiset(ys)
    ensures j < |ys| && ys[j] == xs[|xs| - 1]
    ensures multiset(xs[..|xs| - 1]) == multiset(ys[..j] + ys[j + 1..])
  {
    var x, front := xs[|xs| - 1], xs[..|xs| - 1];
    assert xs == front + [x];
    assert x in multiset(ys);
    j :| 0 <= j < |ys| && ys[j] == x;
    assert ys == ys[..j] + [x] + ys[j + 1..];
    calc {
      multiset(front);
      multiset(xs) - multiset{x};
      multiset(ys) - multiset{x};
      multiset(ys[..j]) + multiset(ys[j + 1..]);
    }
  }

  // The order in which contributions are added does not matter.
  lemma {:induction false} SumByPermutation<T>(f: T -> real, xs: seq<T>, ys: seq<T>)
    requires multiset(xs) == multiset(ys)
    ensures SumBy(f, xs) == SumBy(f, ys)
    decreases |xs|
  {
    if xs == [] {
      assert |multiset(ys)| == 0;
    } else {
      var x := xs[|xs| - 1];
      var front := xs[..|xs| - 1];
      var j := LastInOther(xs, ys);
      assert ys == ys[..j] + ([x] + ys[j + 1..]);
      SumByPermutation(f, front, ys[..j] + ys[j + 1..]);
      SumByConcat(f, ys[..j], ys[j + 1..]);
      SumByConcat(f, ys[..j], [x] + ys[j + 1..]);
      SumByConcat(f, [x], ys[j + 1..]);
      assert SumBy(f, [x]) == f(x) by { assert [x][..0] == []; }
    }
  }

  // ---------------------------------------------------------------- ranking

  datatype Hit = Hit(doc: DocId, score: real)

  const ByScore: Hit -> real := (h: Hit) => h.score

  const ByDoc: Hit -> real := (h: Hit) => h.doc as real

  ghost function HitDocs(hits: seq<Hit>): set<DocId> {
    set i | 0 <= i < |hits| :: hits[i].doc
  }

  ghost predicate DistinctDocs(hits: seq<Hit>) {
    forall i, j :: 0 <= i < j < |hits| ==> hits[i].doc != hits[j].doc
  }

  ghost predicate NonIncreasing(hits: seq<Hit>) {
    forall i, j :: 0 <= i < j < |hits| ==> hits[i].score >= hits[j].score
  }

  // `hits` is a best-k ranking of the documents `docs` under `score`: distinct
  // documents with their exact scores, best first, as many as there are up to
  // k, and nothing left out beats anything kept.
  ghost predicate IsTopK(hits: seq<Hit>, docs: set<DocId>, score: DocId -> real, k: nat) {
    && DistinctDocs(hits)
    && NonIncreasing(hits)
    && HitDocs(hits) <= docs
    && |hits| == (if |docs| < k then |docs| else k)
    && (forall i :: 0 <= i < |hits| ==> hits[i].score == score(hits[i].doc))
    && (forall d, i :: d in docs && d !in HitDocs(hits) && 0 <= i < |hits| ==> score(d) <= hits[i].score)
  }

  // What a pruned search hands out: as many distinct documents as are wanted
  // and there are, best first and none overrated. They are a best-k ranking
  // if the pruning was exact, and always when there is room for all.
  ghost predicate IsRanking(hits: seq<Hit>, docs: set<DocId>, score: DocId -> real, k: nat, exact: bool) {
    && DistinctDocs(hits)
    && NonIncreasing(hits)
    && HitDocs(hits) <= docs
    && |hits| == (if |docs| < k then |docs| else k)
    && (forall h :: h in hits ==> 0.0 <= h.score <= score(h.doc))
    && (exact || |docs| <= k ==> IsTopK(hits, docs, score, k))
  }

  lemma {:induction false} HitDocsCount(hits: seq<Hit>)
    requires DistinctDocs(hits)
    ensures |HitDocs(hits)| == |hits|
  {
    if hits != [] {
      var front := hits[..|hits| - 1];
      HitDocsCount(front);
      var d := hits[|hits| - 1].doc;
      assert hits == front + [hits[|hits| - 1]];
      assert d !in HitDocs(front);
      assert HitDocs(hits) == HitDocs(front) + {d} by {
        forall i | 0 <= i < |front|
          ensures hits[i].doc in HitDocs(front)
        {
          assert hits[i] == front[i];
        }
      }
    }
  }

  // ---------------------------------------------------------------- multisets

  lemma Regroup<T>(a: multiset<T>, b: multiset<T>, c: multiset<T>)
    ensures (a + b) + c == a + (b + c)
  {
  }

  lemma Exchange<T>(a: multiset<T>, b: multiset<T>, c: multiset<T>)
    ensures (a + b) + c == (a + c) + b
  {
  }

  lemma Cancel<T>(a: multiset<T>, b: multiset<T>, c: multiset<T>)
    ensures a + c == b + c ==> a == b
  {
    if a + c == b + c {
      assert a == (a + c) - c;
      assert b == (b + c) - c;
    }
  }

  lemma SubsetCount<T>(a: set<T>, b: set<T>)
    requires a <= b
    ensures |a| <= |b|
    ensures |a| == |b| ==> a == b
  {
    assert b == a + (b - a);
  }

  function Numbers(start: nat, n: nat): (ids: seq<nat>)
    ensures |ids| == n && forall i :: 0 <= i < n ==> ids[i] == start + i
  {
    seq(n, i requires 0 <= i < n => start + i)
  }
}
