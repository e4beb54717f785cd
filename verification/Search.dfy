// Searching one segment: drive the scorer tree and keep the best hits.
module Search {
  import opened Prelude
  import opened Sorting
  import opened Scorers
  import opened WandTheory
  import opened Queries
  import opened Deliveries
  import opened Compilation

  const Falling: Hit -> real := (h: Hit) => -h.score

  // The hits taken so far: the eligible documents the tree has delivered,
  // with their scores.
  ghost predicate Taken(ctx: Context, s: Scorer, left: set<DocId>, results: seq<Hit>) {
    && DistinctDocs(results)
    && (forall d :: d in HitDocs(results) <==> d in s.docs && d !in left && ctx.Eligible(d))
    && (forall h :: h in results ==> h.score == s.view.weight(h.doc))
  }

  lemma TakeOne(ctx: Context, s: Scorer, left: set<DocId>, results: seq<Hit>, d: DocId, score: real)
    requires Taken(ctx, s, left, results) && d in left && left <= s.docs
    requires ctx.Eligible(d) ==> score == s.view.weight(d)
    ensures Taken(ctx, s, left - {d}, if ctx.Eligible(d) then results + [Hit(d, score)] else results)
  {
    hide Context.Eligible;
    if ctx.Eligible(d) {
      var more := results + [Hit(d, score)];
      assert more[|results|] == Hit(d, score);
      assert forall i :: 0 <= i < |results| ==> more[i] == results[i] && results[i].doc in HitDocs(results);
      forall e
        ensures e in HitDocs(more) <==> e in HitDocs(results) || e == d
      {
        if e in HitDocs(results) {
          var i :| 0 <= i < |results| && results[i].doc == e;
          assert more[i].doc == e;
        }
        if e == d {
          assert more[|results|].doc == e;
        }
      }
    }
  }

  // Run a tree to its end, one document after the other.
  method Drive(ctx: Context, s: Scorer) returns (results: seq<Hit>)
    requires s.Valid() && s.rem == s.docs
    modifies s.Repr
    ensures Taken(ctx, s, {}, results)
  {
    hide Scorer.Valid, Taken, Context.Eligible;
    results := [];
    NoneTaken(ctx, s);
    while s.Doc() != INVALID_DOC
      invariant s.Valid() && s.rem <= s.docs && Taken(ctx, s, s.rem, results)
      decreases s.rem
    {
      var d := s.Doc();
      var score := 0.0;
      if ctx.Eligible(d) {
        score := s.Score();
      }
      TakeOne(ctx, s, s.rem, results, d, score);
      if ctx.Eligible(d) {
        results := results + [Hit(d, score)];
      }
      var ok := s.Next();
    }
  }

  lemma NoneTaken(ctx: Context, s: Scorer)
    ensures Taken(ctx, s, s.docs, [])
  {
  }

  // Sorted by falling score and cut to k, all hits of a document set are its
  // best k.
  lemma CutIsTopK(results: seq<Hit>, sorted: seq<Hit>, docs: set<DocId>, score: DocId -> real, k: nat)
    requires DistinctDocs(results) && HitDocs(results) == docs
    requires forall h :: h in results ==> h.score == score(h.doc)
    requires multiset(sorted) == multiset(results) && SortedBy(sorted, Falling)
    ensures IsTopK(if |sorted| > k then sorted[..k] else sorted, docs, score, k)
  {
    hide SortedBy, IsTopK, NonIncreasing;
    PermutationMembers(results, sorted);
    DistinctDocsPermuted(results, sorted);
    SameDocs(results, sorted);
    FallingOrder(sorted);
    CutRanked(sorted, score, k);
  }

  lemma CutRanked(sorted: seq<Hit>, score: DocId -> real, k: nat)
    requires DistinctDocs(sorted) && NonIncreasing(sorted)
    requires forall h :: h in sorted ==> h.score == score(h.doc)
    ensures IsTopK(if |sorted| > k then sorted[..k] else sorted, HitDocs(sorted), score, k)
  {
    hide DistinctDocs, NonIncreasing, HitDocs;
    HitDocsCount(sorted);
    var n := if |sorted| > k then k else |sorted|;
    assert sorted[..|sorted|] == sorted;
    CutFront(sorted, n);
    forall d, i | d in HitDocs(sorted) && d !in HitDocs(sorted[..n]) && 0 <= i < n
      ensures score(d) <= sorted[i].score
    {
      CutAway(sorted, score, n, d, i);
    }
  }

  lemma CutFront(sorted: seq<Hit>, n: nat)
    requires DistinctDocs(sorted) && NonIncreasing(sorted) && n <= |sorted|
    ensures DistinctDocs(sorted[..n]) && NonIncreasing(sorted[..n]) && HitDocs(sorted[..n]) <= HitDocs(sorted)
  {
    forall d | d in HitDocs(sorted[..n])
      ensures d in HitDocs(sorted)
    {
      var i :| 0 <= i < n && sorted[..n][i].doc == d;
      assert sorted[i].doc == d;
    }
  }

  lemma CutAway(sorted: seq<Hit>, score: DocId -> real, n: nat, d: DocId, i: nat)
    requires NonIncreasing(sorted) && i < n <= |sorted|
    requires forall h :: h in sorted ==> h.score == score(h.doc)
    requires d in HitDocs(sorted) && d !in HitDocs(sorted[..n])
    ensures score(d) <= sorted[i].score
  {
    assert forall j :: 0 <= j < n ==> sorted[..n][j] == sorted[j] && sorted[j].doc in HitDocs(sorted[..n]);
    var j :| 0 <= j < |sorted| && sorted[j].doc == d;
    assert sorted[j] in sorted;
  }

  lemma FallingOrder(sorted: seq<Hit>)
    requires SortedBy(sorted, Falling)
    ensures NonIncreasing(sorted)
  {
  }

  lemma SameDocs(xs: seq<Hit>, ys: seq<Hit>)
    requires forall h :: h in xs <==> h in ys
    ensures HitDocs(xs) == HitDocs(ys)
  {
    forall d
      ensures d in HitDocs(xs) <==> d in HitDocs(ys)
    {
      assert d in HitDocs(xs) <==> exists h :: h in xs && h.doc == d;
      assert d in HitDocs(ys) <==> exists h :: h in ys && h.doc == d;
    }
  }

  // The best hits of one segment: always the best of what the query
  // delivers there, ranked unions cut short where they are. That is the best
  // of what the query means when all its unions fit, and for a plain union
  // when it is sharp, which lists in memory and lists whose blocks are in
  // step guarantee. A tree that has to be driven throws when it is asked to
  // cut its results to a negative size.
  method SearchImpl(ctx: Context, q: Query) returns (hits: seq<Hit>, thrown: bool, ghost x: Delivery)
    requires ctx.Ok() && q.BooleanQuery?
    ensures Delivers(ctx, q, x) && (SafeLists(ctx, q) && ctx.Sound() ==> x.sharp)
    ensures thrown <==> ctx.topK < 0 && MustDrive(ctx, q)
    ensures !thrown ==> Found(ctx, x, hits)
    ensures !thrown ==> forall h :: h in hits && h.doc >= 1 ==> Admitted(ctx, h.doc)
    ensures forall d :: 1 <= d < INVALID_DOC && Matches(ctx, q, d) && Admitted(ctx, d) ==> d in Answer(ctx, q)
    ensures !thrown && Fits(ctx, q) ==> IsTopK(hits, Answer(ctx, q), ScoreFn(ctx, q), HitsWanted(ctx))
    ensures !thrown && PlainUnion(ctx, q) && x.sharp ==> IsTopK(hits, Answer(ctx, q), ScoreFn(ctx, q), HitsWanted(ctx))
  {
    hide Scorer.Valid, Compiled, Taken, Context.Ok, Context.Eligible, Found, Delivers, SafeLists, Context.Sound, Fits, PlainUnion,
         Answer, ScoreFn, IsTopK, MustDrive, Admitted, Matches;
    var root;
    hits, thrown := [], false;
    AllAnswers(ctx, q);
    root, x := CreateScorer(ctx, q);
    CompiledDelivers(ctx, q, root, x);
    if root == null {
      NoRoot(ctx, q, x);
    } else if root.kind == Wand {
      hits := root.scoreOrder;
      UnionRoot(ctx, q, root, x);
    } else if ctx.topK < 0 {
      return [], true, x;
    } else {
      var results := Drive(ctx, root);
      var sorted := Sort(results, Falling);
      hits := if |sorted| > ctx.topK then sorted[..ctx.topK] else sorted;
      DrivenRoot(ctx, q, root, x, results, sorted);
    }
    Meaning(ctx, q, x, hits);
    Filtered(ctx, q, x, hits);
  }

  // Only documents that are admitted get into the hits, and the answer has
  // all that match.
  lemma Filtered(ctx: Context, q: Query, x: Delivery, hits: seq<Hit>)
    requires ctx.Ok() && Delivers(ctx, q, x) && Found(ctx, x, hits)
    ensures forall h :: h in hits && h.doc >= 1 ==> Admitted(ctx, h.doc)
  {
    hide Context.Ok, Context.Eligible, Admitted, NonIncreasing, DistinctDocs;
    forall h | h in hits && h.doc >= 1
      ensures Admitted(ctx, h.doc)
    {
      HitsAreDocs(hits);
      assert h.doc in Seen(ctx, x);
      DeliveredInRange(ctx, q, x, h.doc);
      EligibleIff(ctx, h.doc);
    }
  }

  lemma AllAnswers(ctx: Context, q: Query)
    ensures forall d :: 1 <= d < INVALID_DOC && Matches(ctx, q, d) && Admitted(ctx, d) ==> d in Answer(ctx, q)
  {
    hide Matches, Admitted, Answer;
    forall d | 1 <= d < INVALID_DOC
      ensures d in Answer(ctx, q) <==> Matches(ctx, q, d) && Admitted(ctx, d)
    {
      AnswerIff(ctx, q, d);
    }
  }

  lemma Meaning(ctx: Context, q: Query, x: Delivery, hits: seq<Hit>)
    requires ctx.Ok() && Delivers(ctx, q, x) && Found(ctx, x, hits)
    ensures Fits(ctx, q) ==> IsTopK(hits, Answer(ctx, q), ScoreFn(ctx, q), HitsWanted(ctx))
    ensures PlainUnion(ctx, q) && x.sharp ==> IsTopK(hits, Answer(ctx, q), ScoreFn(ctx, q), HitsWanted(ctx))
  {
    hide Context.Ok, Delivers, Found, Fits, PlainUnion, Answer, ScoreFn, IsTopK;
    if Fits(ctx, q) {
      FoundMeaning(ctx, q, x, hits);
    }
    if PlainUnion(ctx, q) && x.sharp {
      PlainFound(ctx, q, x, hits);
    }
  }

  lemma CompiledDelivers(ctx: Context, q: Query, s: Scorer?, x: Delivery)
    requires ctx.Ok() && Compiled(ctx, q, s, x)
    ensures Delivers(ctx, q, x) && (SafeLists(ctx, q) && ctx.Sound() ==> x.sharp)
  {
  }

  lemma NoRoot(ctx: Context, q: Query, x: Delivery)
    requires ctx.Ok() && Compiled(ctx, q, null, x)
    ensures Found(ctx, x, [])
  {
    hide Context.Ok, Context.Eligible, Delivers, SafeLists, Context.Sound;
    assert Seen(ctx, x) == {};
  }

  lemma UnionRoot(ctx: Context, q: Query, s: Scorer, x: Delivery)
    requires ctx.Ok() && Compiled(ctx, q, s, x) && s.kind == Wand
    ensures Found(ctx, x, s.scoreOrder)
  {
    hide Context.Ok, Context.Eligible, SoundOn, Delivers, SafeLists, Context.Sound, IsTopK, NonIncreasing, DistinctDocs;
    assert Seen(ctx, x) == HitDocs(s.scoreOrder);
    HitsAreDocs(s.scoreOrder);
    AllHits(s.scoreOrder, x.weight, HitsWanted(ctx));
  }

  lemma AllHits(hits: seq<Hit>, score: DocId -> real, k: nat)
    requires DistinctDocs(hits) && NonIncreasing(hits) && |hits| <= k
    requires forall h :: h in hits ==> h.doc in HitDocs(hits) && h.score == score(h.doc)
    ensures IsTopK(hits, HitDocs(hits), score, k)
  {
    HitDocsCount(hits);
  }

  lemma DrivenRoot(ctx: Context, q: Query, s: Scorer, x: Delivery, results: seq<Hit>, sorted: seq<Hit>)
    requires ctx.Ok() && ctx.topK >= 0 && Compiled(ctx, q, s, x) && Taken(ctx, s, {}, results)
    requires multiset(sorted) == multiset(results) && SortedBy(sorted, Falling)
    ensures Found(ctx, x, if |sorted| > ctx.topK then sorted[..ctx.topK] else sorted)
  {
    hide Context.Ok, Context.Eligible, Delivers, SafeLists, Context.Sound, IsTopK, Trusty;
    assert HitDocs(results) == Seen(ctx, x);
    CutIsTopK(results, sorted, Seen(ctx, x), x.weight, ctx.topK);
  }

  lemma HitsAreDocs(hits: seq<Hit>)
    ensures forall h :: h in hits ==> h.doc in HitDocs(hits)
  {
  }
}
