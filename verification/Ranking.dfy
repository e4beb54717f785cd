// Which documents a best-k ranking can hold, told by how many others score
// more, or as much.
module Rankings {
  import opened Prelude

  // The documents that outscore d.
  ghost function Better(docs: set<DocId>, score: DocId -> real, d: DocId): set<DocId> {
    set e | e in docs && score(e) > score(d)
  }

  // The documents besides d that score at least as much.
  ghost function Rivals(docs: set<DocId>, score: DocId -> real, d: DocId): set<DocId> {
    set e | e in docs && e != d && score(e) >= score(d)
  }

  // A best k holds no document that k others outscore, and every one that has
  // fewer than k rivals.
  lemma KeptByRank(kept: seq<Hit>, docs: set<DocId>, score: DocId -> real, k: nat, d: DocId)
    requires IsTopK(kept, docs, score, k) && d in docs
    ensures |Better(docs, score, d)| >= k ==> d !in HitDocs(kept)
    ensures |Rivals(docs, score, d)| < k ==> d in HitDocs(kept)
  {
    hide NonIncreasing, DistinctDocs;
    HitDocsCount(kept);
    if d in HitDocs(kept) {
      var i :| 0 <= i < |kept| && kept[i].doc == d;
      assert Better(docs, score, d) <= HitDocs(kept) - {d};
      SubsetCount(Better(docs, score, d), HitDocs(kept) - {d});
    } else {
      SubsetCount(HitDocs(kept) + {d}, docs);
      AllRivals(kept, docs, score, k, d);
      SubsetCount(HitDocs(kept), Rivals(docs, score, d));
    }
  }

  // What is kept in place of d scores at least as much.
  lemma AllRivals(kept: seq<Hit>, docs: set<DocId>, score: DocId -> real, k: nat, d: DocId)
    requires IsTopK(kept, docs, score, k) && d in docs && d !in HitDocs(kept)
    ensures HitDocs(kept) <= Rivals(docs, score, d)
  {
    hide NonIncreasing, DistinctDocs;
    forall e | e in HitDocs(kept)
      ensures e in Rivals(docs, score, d)
    {
      var i :| 0 <= i < |kept| && kept[i].doc == e;
      assert score(d) <= kept[i].score;
    }
  }

  // ---------------------------------------------------------------- every choice among ties

  ghost predicate Highest(docs: set<DocId>, score: DocId -> real, x: DocId) {
    x in docs && forall e :: e in docs ==> score(e) <= score(x)
  }

  lemma {:induction false} SomeHighest(docs: set<DocId>, score: DocId -> real) returns (x: DocId)
    requires docs != {}
    ensures Highest(docs, score, x)
    decreases |docs|
  {
    x :| x in docs;
    if docs != {x} {
      assert docs - {x} != {};
      var y := SomeHighest(docs - {x}, score);
      if score(x) < score(y) {
        x := y;
      }
    }
  }

  // One of the highest: `first` if it is one, `last` only if no other is.
  lemma PickHighest(docs: set<DocId>, score: DocId -> real, first: DocId, last: DocId) returns (x: DocId)
    requires docs != {}
    ensures Highest(docs, score, x)
    ensures Highest(docs, score, first) ==> x == first
    ensures x == last != first ==> forall e :: Highest(docs, score, e) ==> e == last
  {
    x := SomeHighest(docs, score);
    if Highest(docs, score, first) {
      x := first;
    } else if e :| Highest(docs, score, e) && e != last {
      x := e;
    }
  }

  lemma HitDocsFirst(h: Hit, rest: seq<Hit>)
    ensures HitDocs([h] + rest) == {h.doc} + HitDocs(rest)
  {
    var hits := [h] + rest;
    assert hits[0] == h && forall i :: 0 <= i < |rest| ==> hits[i + 1] == rest[i];
  }

  lemma TopKFirst(x: DocId, rest: seq<Hit>, docs: set<DocId>, score: DocId -> real, k: nat)
    requires Highest(docs, score, x) && IsTopK(rest, docs - {x}, score, k)
    ensures IsTopK([Hit(x, score(x))] + rest, docs, score, k + 1)
  {
    hide HitDocs, DistinctDocs, NonIncreasing;
    var h := Hit(x, score(x));
    var hits := [h] + rest;
    HitDocsFirst(h, rest);
    HitsInside(rest);
    assert forall i :: 1 <= i < |hits| ==> hits[i] == rest[i - 1];
    HigherFirst(h, rest);
    forall d, i | d in docs && d !in HitDocs(hits) && 0 <= i < |hits|
      ensures score(d) <= hits[i].score
    {
      if i > 0 {
        assert score(d) <= rest[i - 1].score;
      }
    }
  }

  lemma HitsInside(hits: seq<Hit>)
    ensures forall i :: 0 <= i < |hits| ==> hits[i].doc in HitDocs(hits)
  {
  }

  lemma HigherFirst(h: Hit, rest: seq<Hit>)
    requires DistinctDocs(rest) && NonIncreasing(rest)
    requires forall i :: 0 <= i < |rest| ==> rest[i].doc != h.doc && rest[i].score <= h.score
    ensures DistinctDocs([h] + rest) && NonIncreasing([h] + rest)
  {
    assert forall i :: 1 <= i < |[h] + rest| ==> ([h] + rest)[i] == rest[i - 1];
  }

  // A best k that holds `first`, unless k others outscore it, and does
  // without `last` if that has k rivals.
  lemma {:induction false} BestWith(docs: set<DocId>, score: DocId -> real, k: nat, first: DocId, last: DocId) returns (kept: seq<Hit>)
    requires first != last
    ensures IsTopK(kept, docs, score, k)
    ensures first in docs && |Better(docs, score, first)| < k ==> first in HitDocs(kept)
    ensures last in docs && |Rivals(docs, score, last)| >= k ==> last !in HitDocs(kept)
    decreases k
  {
    if k == 0 || docs == {} {
      kept := [];
    } else {
      hide IsTopK, HitDocs, Better, Rivals, Highest;
      var x := PickHighest(docs, score, first, last);
      var rest := BestWith(docs - {x}, score, k - 1, first, last);
      kept := [Hit(x, score(x))] + rest;
      TopKFirst(x, rest, docs, score, k - 1);
      HitDocsFirst(kept[0], rest);
      if first in docs {
        BetterLess(docs, score, x, first);
      }
      if last in docs {
        RivalsLess(docs, score, x, last);
      }
      RestWithout(x, rest, docs, score, k - 1);
    }
  }

  // What taking out one of the highest does to the documents above another.
  lemma BetterLess(docs: set<DocId>, score: DocId -> real, x: DocId, d: DocId)
    requires Highest(docs, score, x) && d in docs && (Highest(docs, score, d) ==> x == d)
    ensures x != d ==> d in docs - {x} && |Better(docs, score, d)| == |Better(docs - {x}, score, d)| + 1
  {
    if x != d {
      assert Better(docs, score, d) == Better(docs - {x}, score, d) + {x};
    }
  }

  lemma RivalsLess(docs: set<DocId>, score: DocId -> real, x: DocId, d: DocId)
    requires Highest(docs, score, x) && d in docs
    requires x == d ==> forall e :: Highest(docs, score, e) ==> e == d
    ensures if x == d then Rivals(docs, score, d) == {}
            else d in docs - {x} && |Rivals(docs, score, d)| == |Rivals(docs - {x}, score, d)| + 1
  {
    if x != d {
      assert Rivals(docs, score, d) == Rivals(docs - {x}, score, d) + {x};
    } else {
      forall e | e in docs && e != d
        ensures score(e) < score(d)
      {
        if score(e) == score(d) {
          assert Highest(docs, score, e);
        }
      }
    }
  }

  lemma RestWithout(x: DocId, rest: seq<Hit>, docs: set<DocId>, score: DocId -> real, k: nat)
    requires IsTopK(rest, docs - {x}, score, k)
    ensures x !in HitDocs(rest)
  {
  }

  // A document is in every best k exactly when it has fewer than k rivals, and
  // in none exactly when k others outscore it.
  lemma AlwaysKeptIff(docs: set<DocId>, score: DocId -> real, k: nat, d: DocId)
    requires d in docs
    ensures (forall kept :: IsTopK(kept, docs, score, k) ==> d in HitDocs(kept)) <==> |Rivals(docs, score, d)| < k
    ensures (forall kept :: IsTopK(kept, docs, score, k) ==> d !in HitDocs(kept)) <==> |Better(docs, score, d)| >= k
  {
    hide IsTopK;
    var with := BestWith(docs, score, k, d, d + 1);
    var without := BestWith(docs, score, k, d + 1, d);
    forall kept | IsTopK(kept, docs, score, k)
      ensures |Better(docs, score, d)| >= k ==> d !in HitDocs(kept)
      ensures |Rivals(docs, score, d)| < k ==> d in HitDocs(kept)
    {
      KeptByRank(kept, docs, score, k, d);
    }
  }

  // ---------------------------------------------------------------- rankings of a part

  // A best k of some of the documents is a best k of all of them exactly when
  // each of the others has k rivals among these.
  lemma BestWithinIff(hits: seq<Hit>, some: set<DocId>, docs: set<DocId>, score: DocId -> real, k: nat)
    requires some <= docs && IsTopK(hits, some, score, k)
    ensures IsTopK(hits, docs, score, k) <==> forall d :: d in docs - some ==> |Rivals(some, score, d)| >= k
  {
    hide NonIncreasing, DistinctDocs;
    HitDocsCount(hits);
    SubsetCount(HitDocs(hits), some);
    SubsetCount(some, docs);
    if IsTopK(hits, docs, score, k) {
      forall d | d in docs - some
        ensures |Rivals(some, score, d)| >= k
      {
        SubsetCount(HitDocs(hits) + {d}, docs);
        AllRivals(hits, docs, score, k, d);
        assert HitDocs(hits) <= Rivals(some, score, d);
        SubsetCount(HitDocs(hits), Rivals(some, score, d));
      }
    } else {
      if forall d :: d in docs - some ==> |Rivals(some, score, d)| >= k {
        RivalsEnough(hits, some, docs, score, k);
      }
    }
  }

  lemma RivalsEnough(hits: seq<Hit>, some: set<DocId>, docs: set<DocId>, score: DocId -> real, k: nat)
    requires some <= docs && IsTopK(hits, some, score, k)
    requires forall d :: d in docs - some ==> |Rivals(some, score, d)| >= k
    ensures IsTopK(hits, docs, score, k)
  {
    hide NonIncreasing, DistinctDocs;
    SubsetCount(some, docs);
    if some != docs {
      var d :| d in docs && d !in some;
      SubsetCount(Rivals(some, score, d), some);
    }
    forall d | d in docs - some
      ensures |some| >= k && forall i :: 0 <= i < |hits| ==> score(d) <= hits[i].score
    {
      SubsetCount(Rivals(some, score, d), some);
      forall i | 0 <= i < |hits|
        ensures score(d) <= hits[i].score
      {
        RivalBelow(hits, some, score, k, d, i);
      }
    }
  }

  // No hit scores less than a document with k rivals among the ranked ones.
  lemma RivalBelow(hits: seq<Hit>, some: set<DocId>, score: DocId -> real, k: nat, d: DocId, i: nat)
    requires IsTopK(hits, some, score, k) && |Rivals(some, score, d)| >= k && i < |hits|
    ensures score(d) <= hits[i].score
  {
    hide NonIncreasing, DistinctDocs;
    HitDocsCount(hits);
    var g := hits[i].doc;
    if score(g) < score(d) {
      forall e | e in Rivals(some, score, d)
        ensures e in HitDocs(hits) - {g}
      {
      }
      SubsetCount(Rivals(some, score, d), HitDocs(hits) - {g});
    }
  }

  lemma SameTopK(hits: seq<Hit>, docs: set<DocId>, f: DocId -> real, g: DocId -> real, k: nat)
    requires forall d :: d in docs ==> f(d) == g(d)
    ensures IsTopK(hits, docs, f, k) <==> IsTopK(hits, docs, g, k)
  {
  }
}
