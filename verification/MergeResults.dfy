// Merging the hit lists of all readers into one: best first, one hit per
// external id, topK at most.
module MergeResults {
  import opened Sorting

  datatype SearchResult = SearchResult(docId: nat, extId: nat, score: real)

  const ByFallingScore: SearchResult -> real := (r: SearchResult) => -r.score

  ghost predicate BestFirst(rs: seq<SearchResult>) {
    forall i, j :: 0 <= i < j < |rs| ==> rs[i].score >= rs[j].score
  }

  // External id 0 means "none" and is never merged.
  ghost predicate NoRepeats(rs: seq<SearchResult>) {
    forall i, j :: 0 <= i < j < |rs| && rs[i].extId != 0 ==> rs[i].extId != rs[j].extId
  }

  ghost predicate Has(rs: seq<SearchResult>, extId: nat) {
    exists r :: r in rs && r.extId == extId
  }

  ghost function Concat<T>(xss: seq<seq<T>>): seq<T> {
    if xss == [] then [] else Concat(xss[..|xss| - 1]) + xss[|xss| - 1]
  }

  // First come, first kept.
  ghost function Deduped(rs: seq<SearchResult>): seq<SearchResult> {
    if rs == [] then []
    else
      var front, r := rs[..|rs| - 1], rs[|rs| - 1];
      if r.extId != 0 && Has(front, r.extId) then Deduped(front) else Deduped(front) + [r]
  }

  lemma {:induction false} DedupedFacts(rs: seq<SearchResult>)
    ensures forall r :: r in Deduped(rs) ==> r in rs
    ensures forall e: nat :: Has(Deduped(rs), e) <==> Has(rs, e)
    ensures NoRepeats(Deduped(rs))
    ensures multiset(Deduped(rs)) <= multiset(rs)
    ensures |Deduped(rs)| <= |rs|
    ensures forall r: SearchResult :: r.extId == 0 ==> multiset(Deduped(rs))[r] == multiset(rs)[r]
  {
    if rs != [] {
      var front, r := rs[..|rs| - 1], rs[|rs| - 1];
      DedupedFacts(front);
      assert rs == front + [r];
      forall e: nat
        ensures Has(Deduped(rs), e) <==> Has(rs, e)
      {
        assert Has(rs, e) <==> Has(front, e) || r.extId == e by {
          assert r in rs && forall x :: x in front ==> x in rs;
        }
        assert r in Deduped(front) + [r] && forall x :: x in Deduped(front) ==> x in Deduped(front) + [r];
      }
      if !(r.extId != 0 && Has(front, r.extId)) {
        assert forall x :: x in Deduped(front) && x.extId != 0 ==> x.extId != r.extId;
      }
    }
  }

  lemma {:induction false} DedupedOrder(rs: seq<SearchResult>)
    requires BestFirst(rs)
    ensures BestFirst(Deduped(rs))
  {
    if rs != [] {
      var front, r := rs[..|rs| - 1], rs[|rs| - 1];
      DedupedOrder(front);
      DedupedFacts(front);
      forall o | o in Deduped(front)
        ensures o.score >= r.score
      {
        assert o in front;
      }
    }
  }

  lemma {:induction false} DedupedBeats(rs: seq<SearchResult>, r: SearchResult)
    requires BestFirst(rs) && r in rs && r.extId != 0
    ensures Beaten(Deduped(rs), r)
  {
    hide NoRepeats;
    var front, last := rs[..|rs| - 1], rs[|rs| - 1];
    assert rs == front + [last];
    assert forall x :: x in Deduped(front) ==> x in Deduped(front) + [last];
    if r in front {
      DedupedBeats(front, r);
    } else if Has(front, r.extId) {
      var x :| x in front && x.extId == r.extId;
      DedupedBeats(front, x);
      assert x.score >= r.score;
    } else {
      assert r in Deduped(rs);
    }
  }

  lemma {:induction false} NothingToDedupe(rs: seq<SearchResult>)
    requires NoRepeats(rs)
    ensures Deduped(rs) == rs
  {
    if rs != [] {
      var front, r := rs[..|rs| - 1], rs[|rs| - 1];
      assert rs == front + [r];
      NothingToDedupe(front);
      assert r.extId != 0 ==> !Has(front, r.extId);
    }
  }

  ghost predicate Beaten(out: seq<SearchResult>, r: SearchResult) {
    r.extId != 0 && exists o :: o in out && o.extId == r.extId && o.score >= r.score
  }

  ghost predicate NoneBelow(out: seq<SearchResult>, r: SearchResult) {
    forall o :: o in out ==> o.score >= r.score
  }

  // What the caller gets: every result it does not get was beaten by one with
  // its own external id, or by all that were kept.
  ghost predicate Merged(out: seq<SearchResult>, all: seq<SearchResult>, topK: int) {
    && BestFirst(out) && NoRepeats(out)
    && multiset(out) <= multiset(all)
    && |out| <= (if topK > 1 then topK else 1)
    && forall r :: r in all ==>
         || multiset(out)[r] == multiset(all)[r]
         || Beaten(out, r)
         || (|out| >= topK && NoneBelow(out, r))
  }

  // `out` is a best-k choice among `all`.
  ghost predicate BestOf(out: seq<SearchResult>, all: multiset<SearchResult>, k: nat) {
    && BestFirst(out)
    && multiset(out) <= all
    && |out| == (if |all| < k then |all| else k)
    && forall r :: r in all && multiset(out)[r] < all[r] ==> NoneBelow(out, r)
  }

  method Flatten(perSeg: seq<seq<SearchResult>>) returns (all: seq<SearchResult>)
    ensures all == Concat(perSeg)
  {
    all := [];
    for i := 0 to |perSeg|
      invariant all == Concat(perSeg[..i])
    {
      assert perSeg[..i + 1][..i] == perSeg[..i];
      all := all + perSeg[i];
    }
    assert perSeg[..|perSeg|] == perSeg;
  }

  method MergeTopK(perSeg: seq<seq<SearchResult>>, topK: int) returns (deduped: seq<SearchResult>)
    requires topK >= 0
    ensures Merged(deduped, Concat(perSeg), topK)
    ensures topK >= 1 && NoRepeats(Concat(perSeg)) ==> BestOf(deduped, multiset(Concat(perSeg)), topK)
  {
    hide BestFirst, NoRepeats, Merged, BestOf, Deduped;
    var all := Flatten(perSeg);
    var sorted := Sort(all, ByFallingScore);
    var seen: set<nat> := {};
    deduped := [];
    var n := 0;
    NoneDeduped(sorted);
    while n < |sorted| && (deduped == [] || |deduped| < topK)
      invariant n <= |sorted| && deduped == Deduped(sorted[..n])
      invariant forall e: nat :: e in seen <==> e != 0 && Has(sorted[..n], e)
      invariant |deduped| <= (if topK > 1 then topK else 1)
    {
      var r := sorted[n];
      DedupedStep(sorted, n);
      if r.extId == 0 || r.extId !in seen {
        seen := if r.extId != 0 then seen + {r.extId} else seen;
        deduped := deduped + [r];
      }
      n := n + 1;
    }
    SortedIsBestFirst(sorted);
    MergeDone(all, sorted, n, deduped, topK);
    BestDone(all, sorted, n, deduped, topK);
  }

  lemma NoneDeduped(rs: seq<SearchResult>)
    ensures Deduped(rs[..0]) == []
  {
  }

  lemma DedupedStep(rs: seq<SearchResult>, n: nat)
    requires n < |rs|
    ensures Deduped(rs[..n + 1]) ==
            if rs[n].extId != 0 && Has(rs[..n], rs[n].extId) then Deduped(rs[..n]) else Deduped(rs[..n]) + [rs[n]]
    ensures forall e: nat :: Has(rs[..n + 1], e) <==> Has(rs[..n], e) || rs[n].extId == e
  {
    var more := rs[..n + 1];
    assert more[..n] == rs[..n] && more == rs[..n] + [rs[n]];
    forall e: nat
      ensures Has(more, e) <==> Has(rs[..n], e) || rs[n].extId == e
    {
      HasMore(rs[..n], rs[n], e);
    }
  }

  lemma HasMore(rs: seq<SearchResult>, r: SearchResult, e: nat)
    ensures Has(rs + [r], e) <==> Has(rs, e) || r.extId == e
  {
  }

  lemma SortedIsBestFirst(sorted: seq<SearchResult>)
    requires SortedBy(sorted, ByFallingScore)
    ensures BestFirst(sorted)
  {
  }

  // Stopping early leaves only results that no kept one is beaten by.
  lemma MergeDone(all: seq<SearchResult>, sorted: seq<SearchResult>, n: nat, out: seq<SearchResult>, topK: int)
    requires multiset(sorted) == multiset(all) && BestFirst(sorted) && n <= |sorted|
    requires out == Deduped(sorted[..n]) && |out| <= (if topK > 1 then topK else 1)
    requires n == |sorted| || |out| >= topK
    ensures Merged(out, all, topK)
  {
    hide Deduped, BestFirst, NoRepeats, Beaten, NoneBelow;
    FrontOrder(sorted, n);
    assert sorted == sorted[..n] + sorted[n..];
    DedupedFacts(sorted[..n]);
    DedupedOrder(sorted[..n]);
    forall r | r in all && multiset(out)[r] != multiset(all)[r]
      ensures Beaten(out, r) || (|out| >= topK && NoneBelow(out, r))
    {
      LeftOut(sorted, n, out, r);
    }
  }

  lemma BestDone(all: seq<SearchResult>, sorted: seq<SearchResult>, n: nat, out: seq<SearchResult>, topK: int)
    requires multiset(sorted) == multiset(all) && BestFirst(sorted) && n <= |sorted|
    requires out == Deduped(sorted[..n]) && |out| <= (if topK > 1 then topK else 1)
    requires n == |sorted| || |out| >= topK
    ensures topK >= 1 && NoRepeats(all) ==> BestOf(out, multiset(all), topK)
  {
    hide Deduped, BestFirst, NoRepeats, BestOf;
    if topK >= 1 && NoRepeats(all) {
      DistinctKept(all, sorted, n);
      FrontIsBest(all, sorted, n, topK);
    }
  }

  lemma FrontIsBest(all: seq<SearchResult>, sorted: seq<SearchResult>, n: nat, k: nat)
    requires multiset(sorted) == multiset(all) && BestFirst(sorted) && n <= |sorted|
    requires n <= k && (n == |sorted| || n == k)
    ensures BestOf(sorted[..n], multiset(all), k)
  {
    hide NoneBelow;
    FrontOrder(sorted, n);
    assert sorted == sorted[..n] + sorted[n..];
    PermutationMembers(all, sorted);
    forall r | r in multiset(all) && multiset(sorted[..n])[r] < multiset(all)[r]
      ensures NoneBelow(sorted[..n], r)
    {
      AheadOf(sorted, n, r);
    }
  }

  lemma FrontOrder(sorted: seq<SearchResult>, n: nat)
    requires BestFirst(sorted) && n <= |sorted|
    ensures BestFirst(sorted[..n])
  {
  }

  lemma AheadOf(sorted: seq<SearchResult>, n: nat, r: SearchResult)
    requires BestFirst(sorted) && n <= |sorted| && multiset(sorted[..n])[r] < multiset(sorted)[r]
    ensures n < |sorted| && NoneBelow(sorted[..n], r)
  {
    assert sorted == sorted[..n] + sorted[n..];
    assert r in multiset(sorted[n..]);
  }

  lemma DistinctKept(all: seq<SearchResult>, sorted: seq<SearchResult>, n: nat)
    requires multiset(sorted) == multiset(all) && NoRepeats(all) && n <= |sorted|
    ensures Deduped(sorted[..n]) == sorted[..n]
  {
    NoRepeatsPermuted(all, sorted);
    NothingToDedupe(sorted[..n]);
  }

  lemma LeftOut(sorted: seq<SearchResult>, n: nat, out: seq<SearchResult>, r: SearchResult)
    requires BestFirst(sorted) && n <= |sorted| && out == Deduped(sorted[..n])
    requires multiset(out)[r] != multiset(sorted)[r]
    ensures Beaten(out, r) || (n < |sorted| && NoneBelow(out, r))
  {
    hide NoRepeats, BestFirst, Deduped;
    var front := sorted[..n];
    FrontOrder(sorted, n);
    DedupedFacts(front);
    if r in front && r.extId != 0 {
      DedupedBeats(front, r);
    } else {
      assert multiset(out)[r] == multiset(front)[r] by {
        if r !in front {
          assert r !in multiset(front);
        }
      }
      assert sorted == front + sorted[n..];
      AheadOf(sorted, n, r);
      assert forall o :: o in out ==> o in front;
    }
  }

  lemma {:induction false} AtMostOnce(rs: seq<SearchResult>, r: SearchResult)
    requires NoRepeats(rs) && r.extId != 0
    ensures multiset(rs)[r] <= 1
  {
    if rs != [] {
      var front := rs[..|rs| - 1];
      assert rs == front + [rs[|rs| - 1]];
      AtMostOnce(front, r);
      if rs[|rs| - 1] == r {
        assert r !in front;
      }
    }
  }

  lemma NoRepeatsPermuted(xs: seq<SearchResult>, ys: seq<SearchResult>)
    requires NoRepeats(xs) && multiset(xs) == multiset(ys)
    ensures NoRepeats(ys)
  {
    PermutationMembers(xs, ys);
    forall i, j | 0 <= i < j < |ys| && ys[i].extId != 0
      ensures ys[i].extId != ys[j].extId
    {
      AtMostOnce(xs, ys[i]);
      if ys[i] == ys[j] {
        TwiceCounted(ys, i, j);
      } else {
        assert ys[i] in xs && ys[j] in xs;
      }
    }
  }

  // ---------------------------------------------------------------- one list per reader

  lemma {:induction false} ConcatCount(xss: seq<seq<SearchResult>>, r: SearchResult)
    ensures forall i :: 0 <= i < |xss| ==> multiset(xss[i])[r] <= multiset(Concat(xss))[r]
    ensures (forall i :: 0 <= i < |xss| ==> r !in xss[i]) ==> r !in Concat(xss)
  {
    if xss != [] {
      ConcatCount(xss[..|xss| - 1], r);
    }
  }

  lemma {:induction false} SomeShort(short: seq<seq<SearchResult>>, full: seq<seq<SearchResult>>, r: SearchResult) returns (i: nat)
    requires |short| == |full| && multiset(Concat(short))[r] < multiset(Concat(full))[r]
    ensures i < |full| && multiset(short[i])[r] < multiset(full[i])[r]
  {
    var n := |full| - 1;
    if multiset(short[n])[r] < multiset(full[n])[r] {
      i := n;
    } else {
      i := SomeShort(short[..n], full[..n], r);
    }
  }

  lemma {:induction false} ConcatWithin(short: seq<seq<SearchResult>>, full: seq<seq<SearchResult>>)
    requires |short| == |full| && forall i :: 0 <= i < |full| ==> multiset(short[i]) <= multiset(full[i])
    ensures multiset(Concat(short)) <= multiset(Concat(full))
    ensures (forall i :: 0 <= i < |full| ==> |short[i]| == |full[i]|) ==> |Concat(short)| == |Concat(full)|
  {
    if full != [] {
      ConcatWithin(short[..|full| - 1], full[..|full| - 1]);
    }
  }

  lemma {:induction false} ConcatLong(short: seq<seq<SearchResult>>, i: nat)
    requires i < |short|
    ensures |Concat(short)| >= |short[i]|
  {
    if i < |short| - 1 {
      ConcatLong(short[..|short| - 1], i);
    }
  }

  // Readers may cut their lists to the best k before the merge: the best k of
  // the cut lists are a best k of everything.
  lemma BestOfBest(short: seq<seq<SearchResult>>, full: seq<seq<SearchResult>>, out: seq<SearchResult>, k: nat)
    requires |short| == |full| && forall i :: 0 <= i < |full| ==> BestOf(short[i], multiset(full[i]), k)
    requires BestOf(out, multiset(Concat(short)), k)
    ensures BestOf(out, multiset(Concat(full)), k)
  {
    hide Concat, BestFirst, NoneBelow;
    ConcatWithin(short, full);
    var all := multiset(Concat(full));
    forall r | r in all && multiset(out)[r] < all[r]
      ensures NoneBelow(out, r)
    {
      if multiset(Concat(short))[r] <= multiset(out)[r] {
        var i := SomeShort(short, full, r);
        CutListBeats(short, i, full[i], out, k, r);
      }
    }
    SizesAgree(short, full, k);
  }

  lemma {:induction false} SizesAgree(short: seq<seq<SearchResult>>, full: seq<seq<SearchResult>>, k: nat)
    requires |short| == |full| && multiset(Concat(short)) <= multiset(Concat(full))
    requires forall i :: 0 <= i < |full| ==> |short[i]| == if |full[i]| < k then |full[i]| else k
    requires (forall i :: 0 <= i < |full| ==> |short[i]| == |full[i]|) ==> |Concat(short)| == |Concat(full)|
    ensures |Concat(short)| == |Concat(full)| || (|Concat(short)| >= k && |Concat(full)| >= k)
  {
    hide Concat;
    var a, b := multiset(Concat(short)), multiset(Concat(full));
    assert b == a + (b - a);
    assert |a| == |Concat(short)| && |b| == |Concat(full)|;
    if i :| 0 <= i < |full| && |short[i]| != |full[i]| {
      ConcatLong(short, i);
      assert |short[i]| == k;
    }
  }

  lemma CutListBeats(short: seq<seq<SearchResult>>, i: nat, full: seq<SearchResult>, out: seq<SearchResult>, k: nat, r: SearchResult)
    requires i < |short| && BestOf(short[i], multiset(full), k) && BestOf(out, multiset(Concat(short)), k)
    requires multiset(short[i])[r] < multiset(full)[r]
    ensures NoneBelow(out, r)
  {
    hide Concat, BestFirst;
    var cut := multiset(short[i]);
    FewerWithin(cut, multiset(full), r);
    forall y | y in out
      ensures y.score >= r.score
    {
      if y.score < r.score {
        AllIn(short, i, out, y);
        FewerWithin(cut, multiset(out), y);
      }
    }
  }

  // If out keeps y, it keeps everything of a list that beats y throughout.
  lemma AllIn(short: seq<seq<SearchResult>>, i: nat, out: seq<SearchResult>, y: SearchResult)
    requires i < |short| && y in out && forall x :: x in short[i] ==> y.score < x.score
    requires forall x :: x in multiset(Concat(short)) && multiset(out)[x] < multiset(Concat(short))[x] ==> NoneBelow(out, x)
    ensures multiset(short[i]) <= multiset(out) && multiset(short[i])[y] < multiset(out)[y]
  {
    forall x | x in short[i]
      ensures multiset(short[i])[x] <= multiset(out)[x]
    {
      ConcatCount(short, x);
    }
    forall x
      ensures multiset(short[i])[x] <= multiset(out)[x]
    {
      assert x in short[i] || x !in multiset(short[i]);
    }
  }

  lemma FewerWithin(a: multiset<SearchResult>, b: multiset<SearchResult>, r: SearchResult)
    requires a <= b && a[r] < b[r]
    ensures |a| < |b|
  {
    assert b == a + (b - a) && r in b - a;
  }
}
