// What a compiled query delivers on a segment, unions cut short and all, and
// when that is what the query means.
module Deliveries {
  import opened Prelude
  import opened Sorting
  import opened Rankings
  import opened Scorers
  import opened Queries

  // Documents, what each is handed out for, and whether every ranking on the
  // way there is known to be a best one.
  datatype Delivery = Delivery(docs: set<DocId>, weight: DocId -> real, sharp: bool)

  // One of the clauses evaluated so far, of this role, delivers d.
  ghost predicate SomeGives(cls: seq<Clause>, ys: seq<Delivery>, o: Occur, d: DocId)
    requires |ys| <= |cls|
  {
    exists i :: 0 <= i < |ys| && cls[i].occur == o && d in ys[i].docs
  }

  ghost predicate AllGive(cls: seq<Clause>, ys: seq<Delivery>, d: DocId)
    requires |ys| <= |cls|
  {
    forall i :: 0 <= i < |ys| && cls[i].occur == MUST ==> d in ys[i].docs
  }

  // What the clauses of this role that deliver d hand it out for together.
  ghost function Worth(cls: seq<Clause>, ys: seq<Delivery>, n: nat, o: Occur, d: DocId): real
    requires n <= |ys| <= |cls|
  {
    if n == 0 then 0.0
    else
      Worth(cls, ys, n - 1, o, d)
      + (if cls[n - 1].occur == o && d in ys[n - 1].docs then ys[n - 1].weight(d) else 0.0)
  }

  // The documents a ranked union chooses from.
  ghost function Pool(ctx: Context, cls: seq<Clause>, ys: seq<Delivery>): set<DocId>
    requires |ys| <= |cls|
  {
    set i, d | 0 <= i < |ys| && cls[i].occur == SHOULD && d in ys[i].docs && ctx.Eligible(d) :: d
  }

  ghost function PoolWorth(cls: seq<Clause>, ys: seq<Delivery>): DocId -> real
    requires |ys| <= |cls|
  {
    (d: DocId) => Worth(cls, ys, |ys|, SHOULD, d)
  }

  ghost function HitsWanted(ctx: Context): nat {
    if ctx.topK > 0 then ctx.topK else 0
  }

  // How one level of a query puts together what its clauses deliver: the
  // documents of all MUST clauses, or else the union's choice among those of
  // the SHOULD clauses; the documents of MUST_NOT clauses are taken out last.
  // A MUST clause without documents ends the evaluation.
  ghost predicate Combines(ctx: Context, cls: seq<Clause>, ys: seq<Delivery>, x: Delivery) {
    if |ys| < |cls| then
      ys != [] && cls[|ys| - 1].occur == MUST && ys[|ys| - 1].docs == {} && x.docs == {}
    else
      && |ys| == |cls|
      && if HasOccur(cls, |cls|, MUST) then
           Meets(cls, ys, x)
         else
           exists hits :: Chooses(ctx, cls, ys, hits, x)
  }

  ghost predicate Meets(cls: seq<Clause>, ys: seq<Delivery>, x: Delivery)
    requires |ys| <= |cls|
  {
    forall d ::
      && (d in x.docs <==> AllGive(cls, ys, d) && !SomeGives(cls, ys, MUST_NOT, d))
      && (d in x.docs ==> x.weight(d) == Worth(cls, ys, |ys|, MUST, d))
  }

  ghost predicate Chooses(ctx: Context, cls: seq<Clause>, ys: seq<Delivery>, hits: seq<Hit>, x: Delivery)
    requires |ys| <= |cls|
  {
    && IsRanking(hits, Pool(ctx, cls, ys), PoolWorth(cls, ys), HitsWanted(ctx), x.sharp)
    && (forall d :: d in x.docs <==> d in HitDocs(hits) && !SomeGives(cls, ys, MUST_NOT, d))
    && (forall h :: h in hits && h.doc in x.docs ==> x.weight(h.doc) == h.score)
  }

  ghost predicate Delivers(ctx: Context, q: Query, x: Delivery)
    requires ctx.Ok()
    decreases q
  {
    match q
    case TermQuery(f, t) => GivesTerm(ctx, f, t, x)
    case BooleanQuery(cls) =>
      exists ys: seq<Delivery> ::
        && Combines(ctx, cls, ys, x)
        && |ys| <= |cls|
        && forall i :: 0 <= i < |ys| ==> Delivers(ctx, cls[i].query, ys[i]) && (x.sharp ==> ys[i].sharp)
  }

  ghost predicate GivesTerm(ctx: Context, f: string, t: string, x: Delivery)
    requires ctx.Ok()
  {
    if f != "" && (f, t) in ctx.lists then
      && (forall d :: d in x.docs <==> d in ctx.lists[(f, t)].docs)
      && (forall d :: d in x.docs ==> x.weight(d) == ctx.ViewOf(f, t).weight(d))
    else x.docs == {}
  }

  // All that the first |ys| clauses deliver.
  ghost predicate ClausesDeliver(ctx: Context, cls: seq<Clause>, ys: seq<Delivery>)
    requires ctx.Ok()
  {
    |ys| <= |cls| && forall i :: 0 <= i < |ys| ==> Delivers(ctx, cls[i].query, ys[i])
  }

  ghost predicate AllSharp(ys: seq<Delivery>) {
    forall y :: y in ys ==> y.sharp
  }

  lemma DeliversBy(ctx: Context, q: Query, ys: seq<Delivery>, x: Delivery)
    requires ctx.Ok() && q.BooleanQuery? && ClausesDeliver(ctx, q.clauses, ys)
    requires Combines(ctx, q.clauses, ys, x) && (x.sharp ==> AllSharp(ys))
    ensures Delivers(ctx, q, x)
  {
    hide Combines, Context.Ok;
  }

  lemma DeliversParts(ctx: Context, q: Query, x: Delivery) returns (ys: seq<Delivery>)
    requires ctx.Ok() && q.BooleanQuery? && Delivers(ctx, q, x)
    ensures ClausesDeliver(ctx, q.clauses, ys) && Combines(ctx, q.clauses, ys, x) && (x.sharp ==> AllSharp(ys))
  {
    hide Combines, Context.Ok;
    var cls := q.clauses;
    ys :| && Combines(ctx, cls, ys, x)
          && |ys| <= |cls|
          && forall i :: 0 <= i < |ys| ==> Delivers(ctx, cls[i].query, ys[i]) && (x.sharp ==> ys[i].sharp);
  }

  // ---------------------------------------------------------------- what the query means

  ghost function ScoreFn(ctx: Context, q: Query): DocId -> real
    requires ctx.Ok()
  {
    (d: DocId) => ScoreOf(ctx, q, d)
  }

  // Clause i plays a part in the meaning.
  ghost predicate Counts(q: Query, i: nat)
    requires q.BooleanQuery? && i < |q.clauses|
  {
    q.clauses[i].occur == SHOULD ==> !HasOccur(q.clauses, |q.clauses|, MUST)
  }

  // All clauses that play a part fit.
  ghost predicate ClausesFit(ctx: Context, q: Query)
    requires q.BooleanQuery?
  {
    forall i :: 0 <= i < |q.clauses| && Counts(q, i) ==> Fits(ctx, q.clauses[i].query)
  }

  // What has been delivered for the clauses that play a part is what they
  // mean, as far as eligible documents go.
  ghost predicate ClausesMean(ctx: Context, q: Query, ys: seq<Delivery>)
    requires ctx.Ok() && q.BooleanQuery?
  {
    && |ys| <= |q.clauses|
    && forall i :: 0 <= i < |ys| && Counts(q, i) ==>
         Represents(ctx, q.clauses[i].query, ys[i].docs, ys[i].weight)
  }

  // A query whose unions all fit delivers what it means, with its scores.
  lemma {:induction false} DeliversMeaning(ctx: Context, q: Query, x: Delivery)
    requires ctx.Ok() && Delivers(ctx, q, x) && Fits(ctx, q)
    ensures Represents(ctx, q, x.docs, x.weight)
    decreases q
  {
    hide Context.Eligible, Context.Ok, Represents, Combines, Context.ViewOf;
    match q
    case TermQuery(f, t) =>
      TermMeaning(ctx, q, x);
    case BooleanQuery(cls) =>
      var ys := DeliversParts(ctx, q, x);
      forall i | 0 <= i < |ys| && Counts(q, i)
        ensures Represents(ctx, cls[i].query, ys[i].docs, ys[i].weight)
      {
        assert Fits(ctx, cls[i].query);
        DeliversMeaning(ctx, cls[i].query, ys[i]);
      }
      CombinesMeaning(ctx, q, ys, x);
  }

  lemma TermMeaning(ctx: Context, q: Query, x: Delivery)
    requires ctx.Ok() && q.TermQuery? && GivesTerm(ctx, q.field, q.term, x)
    ensures Represents(ctx, q, x.docs, x.weight)
  {
    hide Context.Eligible, Context.Ok, Context.ViewOf;
  }

  lemma CombinesMeaning(ctx: Context, q: Query, ys: seq<Delivery>, x: Delivery)
    requires ctx.Ok() && q.BooleanQuery? && ClausesMean(ctx, q, ys) && Combines(ctx, q.clauses, ys, x)
    requires !HasOccur(q.clauses, |q.clauses|, MUST) ==> |Choice(ctx, q)| <= ctx.topK
    ensures Represents(ctx, q, x.docs, x.weight)
  {
    hide Context.Eligible, Context.Ok, Represents, Meets, Chooses, Choice;
    if |ys| < |q.clauses| {
      CutOffMeaning(ctx, q, ys, x);
    } else if HasOccur(q.clauses, |q.clauses|, MUST) {
      MeetsMeaning(ctx, q, ys, x);
    } else {
      var hits :| Chooses(ctx, q.clauses, ys, hits, x);
      ChoiceMeaning(ctx, q, ys, hits, x);
    }
  }

  lemma CutOffMeaning(ctx: Context, q: Query, ys: seq<Delivery>, x: Delivery)
    requires ctx.Ok() && q.BooleanQuery? && ClausesMean(ctx, q, ys)
    requires 0 < |ys| && q.clauses[|ys| - 1].occur == MUST && ys[|ys| - 1].docs == {} && x.docs == {}
    ensures Represents(ctx, q, x.docs, x.weight)
  {
    hide Context.Eligible, Context.Ok, ScoreOf;
    var n := |ys| - 1;
    assert Represents(ctx, q.clauses[n].query, ys[n].docs, ys[n].weight);
    forall d | ctx.Eligible(d)
      ensures !Matches(ctx, q, d)
    {
      assert !Matches(ctx, q.clauses[n].query, d);
      assert HasOccur(q.clauses, |q.clauses|, MUST) && !AllMust(ctx, q, |q.clauses|, d);
    }
  }

  // One role and one document at a time.
  lemma SomeMeans(ctx: Context, q: Query, ys: seq<Delivery>, o: Occur, d: DocId)
    requires ctx.Ok() && q.BooleanQuery? && ClausesMean(ctx, q, ys) && |ys| == |q.clauses| && ctx.Eligible(d)
    requires o == SHOULD ==> !HasOccur(q.clauses, |q.clauses|, MUST)
    ensures SomeGives(q.clauses, ys, o, d) <==> AnyOf(ctx, q, |q.clauses|, o, d)
  {
    hide Context.Eligible, Context.Ok, ScoreOf, Matches;
    forall i | 0 <= i < |ys| && q.clauses[i].occur == o
      ensures d in ys[i].docs <==> Matches(ctx, q.clauses[i].query, d)
    {
      assert Represents(ctx, q.clauses[i].query, ys[i].docs, ys[i].weight);
    }
  }

  lemma AllMean(ctx: Context, q: Query, ys: seq<Delivery>, d: DocId)
    requires ctx.Ok() && q.BooleanQuery? && ClausesMean(ctx, q, ys) && |ys| == |q.clauses| && ctx.Eligible(d)
    ensures AllGive(q.clauses, ys, d) <==> AllMust(ctx, q, |q.clauses|, d)
  {
    hide Context.Eligible, Context.Ok, ScoreOf, Matches;
    forall i | 0 <= i < |ys| && q.clauses[i].occur == MUST
      ensures d in ys[i].docs <==> Matches(ctx, q.clauses[i].query, d)
    {
      assert Represents(ctx, q.clauses[i].query, ys[i].docs, ys[i].weight);
    }
  }

  lemma {:induction false} ShouldWorth(ctx: Context, q: Query, ys: seq<Delivery>, n: nat, d: DocId)
    requires ctx.Ok() && q.BooleanQuery? && ClausesMean(ctx, q, ys) && n <= |ys| && ctx.Eligible(d)
    requires !HasOccur(q.clauses, |q.clauses|, MUST)
    ensures Worth(q.clauses, ys, n, SHOULD, d) == SumShould(ctx, q, n, d)
  {
    hide Context.Eligible, Context.Ok, ScoreOf, Matches;
    if n > 0 {
      ShouldWorth(ctx, q, ys, n - 1, d);
      assert Counts(q, n - 1);
    }
  }

  lemma {:induction false} MustWorth(ctx: Context, q: Query, ys: seq<Delivery>, n: nat, d: DocId)
    requires ctx.Ok() && q.BooleanQuery? && ClausesMean(ctx, q, ys) && n <= |ys| && ctx.Eligible(d)
    requires AllGive(q.clauses, ys, d)
    ensures Worth(q.clauses, ys, n, MUST, d) == SumMust(ctx, q, n, d)
  {
    hide Context.Eligible, Context.Ok, ScoreOf, Matches;
    if n > 0 {
      MustWorth(ctx, q, ys, n - 1, d);
    }
  }

  lemma MeetsMeaning(ctx: Context, q: Query, ys: seq<Delivery>, x: Delivery)
    requires ctx.Ok() && q.BooleanQuery? && ClausesMean(ctx, q, ys) && |ys| == |q.clauses|
    requires HasOccur(q.clauses, |q.clauses|, MUST) && Meets(q.clauses, ys, x)
    ensures Represents(ctx, q, x.docs, x.weight)
  {
    hide Context.Eligible, Context.Ok, ClausesMean, SomeGives, AllGive, AllMust, AnyOf;
    forall d | ctx.Eligible(d)
      ensures d in x.docs <==> Matches(ctx, q, d)
      ensures d in x.docs ==> x.weight(d) == ScoreOf(ctx, q, d)
    {
      AllMean(ctx, q, ys, d);
      SomeMeans(ctx, q, ys, MUST_NOT, d);
      if d in x.docs {
        MustWorth(ctx, q, ys, |ys|, d);
      }
    }
  }

  // A union chooses from what its clauses can match, at their scores.
  lemma PoolMeans(ctx: Context, q: Query, ys: seq<Delivery>)
    requires ctx.Ok() && q.BooleanQuery? && ClausesMean(ctx, q, ys) && |ys| == |q.clauses|
    requires !HasOccur(q.clauses, |q.clauses|, MUST)
    ensures Pool(ctx, q.clauses, ys) == Choice(ctx, q)
    ensures forall d :: d in Choice(ctx, q) ==> PoolWorth(q.clauses, ys)(d) == ScoreFn(ctx, q)(d)
  {
    hide Context.Eligible, Context.Ok, ClausesMean, Matches;
    forall d | ctx.Eligible(d)
      ensures d in Pool(ctx, q.clauses, ys) <==> d in Choice(ctx, q)
      ensures PoolWorth(q.clauses, ys)(d) == ScoreFn(ctx, q)(d)
    {
      SomeMeans(ctx, q, ys, SHOULD, d);
      ShouldWorth(ctx, q, ys, |ys|, d);
      if AnyOf(ctx, q, |q.clauses|, SHOULD, d) {
        IsChoice(ctx, q, d);
      }
    }
  }

  lemma IsChoice(ctx: Context, q: Query, d: DocId)
    requires q.BooleanQuery? && ctx.Eligible(d) && AnyOf(ctx, q, |q.clauses|, SHOULD, d)
    ensures d in Choice(ctx, q)
  {
    hide Context.Eligible, Matches;
    var i :| 0 <= i < |q.clauses| && q.clauses[i].occur == SHOULD && Matches(ctx, q.clauses[i].query, d);
    MatchesAreDocs(ctx, q.clauses[i].query, d);
  }

  lemma ChoiceMeaning(ctx: Context, q: Query, ys: seq<Delivery>, hits: seq<Hit>, x: Delivery)
    requires ctx.Ok() && q.BooleanQuery? && ClausesMean(ctx, q, ys) && |ys| == |q.clauses|
    requires !HasOccur(q.clauses, |q.clauses|, MUST) && |Choice(ctx, q)| <= ctx.topK
    requires Chooses(ctx, q.clauses, ys, hits, x)
    ensures Represents(ctx, q, x.docs, x.weight)
  {
    hide Context.Eligible, Context.Ok, ClausesMean, Pool, PoolWorth, Choice, SomeGives, AnyOf, IsTopK;
    PoolMeans(ctx, q, ys);
    NothingLeftOut(hits, Choice(ctx, q), PoolWorth(q.clauses, ys), HitsWanted(ctx));
    forall d | ctx.Eligible(d)
      ensures d in x.docs <==> Matches(ctx, q, d)
      ensures d in x.docs ==> x.weight(d) == ScoreOf(ctx, q, d)
    {
      SomeMeans(ctx, q, ys, MUST_NOT, d);
      ChoiceIff(ctx, q, d);
      if d in x.docs {
        var h :| h in hits && h.doc == d;
        assert x.weight(h.doc) == h.score;
      }
    }
  }

  lemma ChoiceIff(ctx: Context, q: Query, d: DocId)
    requires q.BooleanQuery? && ctx.Eligible(d)
    ensures d in Choice(ctx, q) <==> AnyOf(ctx, q, |q.clauses|, SHOULD, d)
  {
    hide Context.Eligible, AnyOf;
    if AnyOf(ctx, q, |q.clauses|, SHOULD, d) {
      IsChoice(ctx, q, d);
    }
  }

  // A ranking with room for everything leaves nothing out.
  lemma NothingLeftOut(hits: seq<Hit>, docs: set<DocId>, score: DocId -> real, k: nat)
    requires IsTopK(hits, docs, score, k) && |docs| <= k
    ensures HitDocs(hits) == docs
    ensures forall h :: h in hits ==> h.score == score(h.doc)
    ensures forall d :: d in docs ==> exists h :: h in hits && h.doc == d
  {
    hide NonIncreasing;
    HitDocsCount(hits);
    SubsetCount(HitDocs(hits), docs);
    forall d | d in docs
      ensures exists h :: h in hits && h.doc == d
    {
      var i :| 0 <= i < |hits| && hits[i].doc == d;
      assert hits[i] in hits;
    }
  }

  // ---------------------------------------------------------------- searching

  // What a search sees of a delivery.
  ghost function Seen(ctx: Context, x: Delivery): set<DocId> {
    set d | d in x.docs && ctx.Eligible(d)
  }

  // `hits` are the best of what was delivered.
  ghost predicate Found(ctx: Context, x: Delivery, hits: seq<Hit>) {
    IsTopK(hits, Seen(ctx, x), x.weight, HitsWanted(ctx))
  }

  // The search of a query whose unions fit finds the best of what it means.
  lemma FoundMeaning(ctx: Context, q: Query, x: Delivery, hits: seq<Hit>)
    requires ctx.Ok() && Delivers(ctx, q, x) && Fits(ctx, q) && Found(ctx, x, hits)
    ensures IsTopK(hits, Answer(ctx, q), ScoreFn(ctx, q), HitsWanted(ctx))
  {
    hide Context.Eligible, Context.Ok, IsTopK, Delivers, Fits, Matches, ScoreOf;
    DeliversMeaning(ctx, q, x);
    forall d | d in Seen(ctx, x)
      ensures d in AllDocs(ctx)
    {
      MatchesAreDocs(ctx, q, d);
    }
    assert Seen(ctx, x) == Answer(ctx, q);
    SameTopK(hits, Answer(ctx, q), x.weight, ScoreFn(ctx, q), HitsWanted(ctx));
  }

  // Whatever is delivered stands in some posting list.
  lemma {:induction false} DeliveredInRange(ctx: Context, q: Query, x: Delivery, d: DocId)
    requires ctx.Ok() && Delivers(ctx, q, x) && d in x.docs
    ensures d < INVALID_DOC
    decreases q
  {
    match q
    case TermQuery(f, t) =>
      ListInRange(ctx, f, t, d);
    case BooleanQuery(cls) =>
      var i, y := DeliveredByPart(ctx, q, x, d);
      DeliveredInRange(ctx, cls[i].query, y, d);
  }

  // Some clause delivers it.
  lemma DeliveredByPart(ctx: Context, q: Query, x: Delivery, d: DocId) returns (i: nat, y: Delivery)
    requires ctx.Ok() && q.BooleanQuery? && Delivers(ctx, q, x) && d in x.docs
    ensures i < |q.clauses| && Delivers(ctx, q.clauses[i].query, y) && d in y.docs
  {
    hide Context.Eligible, Context.Ok, Context.ViewOf, PoolWorth, Worth, IsTopK, NonIncreasing, DistinctDocs;
    var cls := q.clauses;
    var ys := DeliversParts(ctx, q, x);
    if HasOccur(cls, |cls|, MUST) {
      i :| 0 <= i < |cls| && cls[i].occur == MUST;
      assert |ys| == |cls| && AllGive(cls, ys, d);
    } else {
      var kept: seq<Hit> :| Chooses(ctx, cls, ys, kept, x);
      assert d in Pool(ctx, cls, ys);
      i :| 0 <= i < |ys| && cls[i].occur == SHOULD && d in ys[i].docs;
    }
    y := ys[i];
  }

  // ---------------------------------------------------------------- unions that keep nothing

  // d is delivered even if no union keeps anything.
  ghost predicate Survives(ctx: Context, q: Query, d: DocId)
    decreases q
  {
    match q
    case TermQuery(f, t) => f != "" && (f, t) in ctx.lists && d in ctx.lists[(f, t)].docs
    case BooleanQuery(cls) =>
      && HasOccur(cls, |cls|, MUST)
      && forall i :: 0 <= i < |cls| ==>
           && (cls[i].occur == MUST ==> Survives(ctx, cls[i].query, d))
           && (cls[i].occur == MUST_NOT ==> !Survives(ctx, cls[i].query, d))
  }

  ghost predicate Anything(ctx: Context, q: Query) {
    exists d :: Survives(ctx, q, d)
  }

  ghost predicate SomeAnything(ctx: Context, q: Query, o: Occur)
    requires q.BooleanQuery?
  {
    exists i :: 0 <= i < |q.clauses| && q.clauses[i].occur == o && Anything(ctx, q.clauses[i].query)
  }

  // With unions that keep nothing the query still compiles to a tree that is
  // not a plain union: MUST clauses that all deliver something, or a union
  // with something to exclude.
  ghost predicate MustDrive(ctx: Context, q: Query)
    requires q.BooleanQuery?
  {
    if HasOccur(q.clauses, |q.clauses|, MUST) then
      forall i :: 0 <= i < |q.clauses| && q.clauses[i].occur == MUST ==> Anything(ctx, q.clauses[i].query)
    else SomeAnything(ctx, q, SHOULD) && SomeAnything(ctx, q, MUST_NOT)
  }

  lemma {:induction false} BareDelivered(ctx: Context, q: Query, x: Delivery, d: DocId)
    requires ctx.Ok() && ctx.topK <= 0 && Delivers(ctx, q, x)
    ensures d in x.docs <==> Survives(ctx, q, d)
    decreases q
  {
    hide Context.Eligible, Context.Ok, Context.ViewOf, Pool, PoolWorth, Worth;
    match q
    case TermQuery(f, t) =>
    case BooleanQuery(cls) =>
      var ys := DeliversParts(ctx, q, x);
      forall i | 0 <= i < |ys|
        ensures d in ys[i].docs <==> Survives(ctx, cls[i].query, d)
      {
        BareDelivered(ctx, cls[i].query, ys[i], d);
      }
      if |ys| < |cls| {
        var n := |ys| - 1;
        assert cls[n].occur == MUST && !Survives(ctx, cls[n].query, d);
      } else if !HasOccur(cls, |cls|, MUST) {
        var kept: seq<Hit> :| Chooses(ctx, cls, ys, kept, x);
        assert HitDocs(kept) == {};
      }
  }

  // Clause i delivers something.
  lemma BareClause(ctx: Context, q: Query, ys: seq<Delivery>, i: nat)
    requires ctx.Ok() && ctx.topK <= 0 && q.BooleanQuery? && ClausesDeliver(ctx, q.clauses, ys) && i < |ys|
    ensures ys[i].docs != {} <==> Anything(ctx, q.clauses[i].query)
  {
    hide Context.Ok, Delivers, Survives;
    forall d
      ensures d in ys[i].docs <==> Survives(ctx, q.clauses[i].query, d)
    {
      BareDelivered(ctx, q.clauses[i].query, ys[i], d);
    }
  }

  // ---------------------------------------------------------------- a union that is cut short

  // The best k of a set, less some documents, are the best k of the set less
  // these documents exactly when none of them was among the best k, or
  // nothing but the best k is left.
  lemma CutIff(kept: seq<Hit>, pool: set<DocId>, score: DocId -> real, k: nat, out: set<DocId>, hits: seq<Hit>)
    requires IsTopK(kept, pool, score, k) && IsTopK(hits, HitDocs(kept) - out, score, k)
    ensures IsTopK(hits, pool - out, score, k) <==> HitDocs(kept) !! out || pool - out <= HitDocs(kept)
  {
    hide NonIncreasing, DistinctDocs;
    HitDocsCount(kept);
    HitDocsCount(hits);
    SubsetCount(HitDocs(kept), pool);
    SubsetCount(HitDocs(kept) - out, pool - out);
    SubsetCount(HitDocs(hits), HitDocs(kept) - out);
    if HitDocs(kept) !! out {
      assert HitDocs(kept) - out == HitDocs(kept);
      CutNothing(kept, pool, score, k, out, hits);
    } else {
      CutSome(kept, pool, score, k, out, hits);
    }
  }

  lemma CutNothing(kept: seq<Hit>, pool: set<DocId>, score: DocId -> real, k: nat, out: set<DocId>, hits: seq<Hit>)
    requires IsTopK(kept, pool, score, k) && IsTopK(hits, HitDocs(kept), score, k) && HitDocs(kept) !! out
    ensures IsTopK(hits, pool - out, score, k)
  {
    hide NonIncreasing, DistinctDocs;
    HitDocsCount(kept);
    HitDocsCount(hits);
    SubsetCount(HitDocs(kept), pool - out);
    SubsetCount(pool - out, pool);
    SubsetCount(HitDocs(hits), HitDocs(kept));
    forall d, i | d in pool - out && d !in HitDocs(hits) && 0 <= i < |hits|
      ensures score(d) <= hits[i].score
    {
      assert hits[i].doc in HitDocs(kept);
      var j :| 0 <= j < |kept| && kept[j].doc == hits[i].doc;
    }
  }

  lemma CutSome(kept: seq<Hit>, pool: set<DocId>, score: DocId -> real, k: nat, out: set<DocId>, hits: seq<Hit>)
    requires IsTopK(kept, pool, score, k) && IsTopK(hits, HitDocs(kept) - out, score, k) && !(HitDocs(kept) !! out)
    ensures IsTopK(hits, pool - out, score, k) <==> pool - out <= HitDocs(kept)
  {
    hide NonIncreasing, DistinctDocs;
    HitDocsCount(kept);
    HitDocsCount(hits);
    var d :| d in HitDocs(kept) && d in out;
    assert HitDocs(kept) - out <= HitDocs(kept) - {d};
    SubsetCount(HitDocs(kept) - out, HitDocs(kept) - {d});
    assert |hits| < k;
    if pool - out <= HitDocs(kept) {
      assert pool - out == HitDocs(kept) - out;
    }
    if IsTopK(hits, pool - out, score, k) {
      SubsetCount(HitDocs(hits), pool - out);
    }
  }

  // The clauses that play a part deliver what they mean if they fit.
  lemma FitClausesMean(ctx: Context, q: Query, ys: seq<Delivery>)
    requires ctx.Ok() && q.BooleanQuery? && ClausesDeliver(ctx, q.clauses, ys) && ClausesFit(ctx, q)
    ensures ClausesMean(ctx, q, ys)
  {
    hide Context.Ok, Delivers, Represents, Fits;
    forall i | 0 <= i < |ys| && Counts(q, i)
      ensures Represents(ctx, q.clauses[i].query, ys[i].docs, ys[i].weight)
    {
      DeliversMeaning(ctx, q.clauses[i].query, ys[i]);
    }
  }

  ghost function ExcludedBy(ctx: Context, q: Query): set<DocId>
    requires q.BooleanQuery?
  {
    set d | d in Choice(ctx, q) && AnyOf(ctx, q, |q.clauses|, MUST_NOT, d)
  }

  // Without a MUST clause the query means the choice less what is excluded.
  lemma AnswerIsChoice(ctx: Context, q: Query)
    requires q.BooleanQuery? && !HasOccur(q.clauses, |q.clauses|, MUST)
    ensures Answer(ctx, q) == Choice(ctx, q) - ExcludedBy(ctx, q)
  {
    hide Context.Eligible, AnyOf;
    forall d
      ensures d in Answer(ctx, q) <==> d in Choice(ctx, q) - ExcludedBy(ctx, q)
    {
      if ctx.Eligible(d) {
        ChoiceIff(ctx, q, d);
      }
    }
  }

  // What the search sees of a union less its exclusions.
  lemma SeenIsKept(ctx: Context, q: Query, ys: seq<Delivery>, kept: seq<Hit>, x: Delivery)
    requires ctx.Ok() && q.BooleanQuery? && ClausesMean(ctx, q, ys) && |ys| == |q.clauses|
    requires !HasOccur(q.clauses, |q.clauses|, MUST) && Chooses(ctx, q.clauses, ys, kept, x) && x.sharp
    ensures IsTopK(kept, Choice(ctx, q), ScoreFn(ctx, q), HitsWanted(ctx))
    ensures Seen(ctx, x) == HitDocs(kept) - ExcludedBy(ctx, q)
    ensures forall d :: d in Seen(ctx, x) ==> x.weight(d) == ScoreFn(ctx, q)(d)
  {
    hide Context.Eligible, Context.Ok, ClausesMean, Pool, PoolWorth, Choice, SomeGives, AnyOf, NonIncreasing, DistinctDocs, ScoreFn;
    PoolMeans(ctx, q, ys);
    SameTopK(kept, Choice(ctx, q), PoolWorth(q.clauses, ys), ScoreFn(ctx, q), HitsWanted(ctx));
    forall d
      ensures d in Seen(ctx, x) <==> d in HitDocs(kept) - ExcludedBy(ctx, q)
      ensures d in Seen(ctx, x) ==> x.weight(d) == ScoreFn(ctx, q)(d)
    {
      if d in HitDocs(kept) {
        ChoiceEligible(ctx, q, d);
        SomeMeans(ctx, q, ys, MUST_NOT, d);
        var i :| 0 <= i < |kept| && kept[i].doc == d;
        assert kept[i] in kept;
      }
    }
  }

  lemma ChoiceEligible(ctx: Context, q: Query, d: DocId)
    requires q.BooleanQuery? && d in Choice(ctx, q)
    ensures ctx.Eligible(d)
  {
  }

  // A union that may be cut short, with exclusions on top: the search finds
  // the best of what the query means if and only if every hit the union kept
  // is an answer, or every answer was kept.
  lemma UnionFoundIff(ctx: Context, q: Query, ys: seq<Delivery>, kept: seq<Hit>, x: Delivery, hits: seq<Hit>)
    requires ctx.Ok() && q.BooleanQuery? && ClausesDeliver(ctx, q.clauses, ys) && ClausesFit(ctx, q)
    requires |ys| == |q.clauses| && !HasOccur(q.clauses, |q.clauses|, MUST)
    requires Chooses(ctx, q.clauses, ys, kept, x) && x.sharp && Found(ctx, x, hits)
    ensures IsTopK(hits, Answer(ctx, q), ScoreFn(ctx, q), HitsWanted(ctx)) <==>
            HitDocs(kept) <= Answer(ctx, q) || Answer(ctx, q) <= HitDocs(kept)
  {
    hide Context.Eligible, Context.Ok, Delivers, ClausesMean, Chooses, Choice, ExcludedBy, IsTopK, Answer, ScoreFn;
    FitClausesMean(ctx, q, ys);
    SeenIsKept(ctx, q, ys, kept, x);
    AnswerIsChoice(ctx, q);
    SameTopK(hits, Seen(ctx, x), x.weight, ScoreFn(ctx, q), HitsWanted(ctx));
    CutIff(kept, Choice(ctx, q), ScoreFn(ctx, q), HitsWanted(ctx), ExcludedBy(ctx, q), hits);
    KeptInChoice(kept, Choice(ctx, q), ScoreFn(ctx, q), HitsWanted(ctx));
  }

  lemma KeptInChoice(kept: seq<Hit>, docs: set<DocId>, score: DocId -> real, k: nat)
    requires IsTopK(kept, docs, score, k)
    ensures HitDocs(kept) <= docs
  {
  }

  // Only SHOULD clauses, and no child holds a union that is cut short.
  ghost predicate PlainUnion(ctx: Context, q: Query) {
    && q.BooleanQuery?
    && forall i :: 0 <= i < |q.clauses| ==> q.clauses[i].occur == SHOULD && Fits(ctx, q.clauses[i].query)
  }

  // A sharp plain union finds the best of what it means, cut short or not.
  lemma PlainFound(ctx: Context, q: Query, x: Delivery, hits: seq<Hit>)
    requires ctx.Ok() && PlainUnion(ctx, q) && Delivers(ctx, q, x) && x.sharp && Found(ctx, x, hits)
    ensures IsTopK(hits, Answer(ctx, q), ScoreFn(ctx, q), HitsWanted(ctx))
  {
    hide Context.Eligible, Context.Ok, Delivers, Chooses, Choice, ExcludedBy, IsTopK, Answer, ScoreFn, Fits;
    var ys := DeliversParts(ctx, q, x);
    var kept :| Chooses(ctx, q.clauses, ys, kept, x);
    FitClausesMean(ctx, q, ys);
    SeenIsKept(ctx, q, ys, kept, x);
    AnswerIsChoice(ctx, q);
    NoneExcluded(ctx, q);
    KeptInChoice(kept, Choice(ctx, q), ScoreFn(ctx, q), HitsWanted(ctx));
    UnionFoundIff(ctx, q, ys, kept, x, hits);
  }

  lemma NoneExcluded(ctx: Context, q: Query)
    requires PlainUnion(ctx, q)
    ensures ExcludedBy(ctx, q) == {}
  {
    hide Context.Eligible, Choice, Fits, Matches;
  }

  // ---------------------------------------------------------------- unions below other clauses

  // Unions are cut short at the top or below MUST clauses only, neither below
  // another union nor in what is excluded.
  ghost predicate CutsPlainly(ctx: Context, q: Query)
    decreases q
  {
    match q
    case TermQuery(_, _) => true
    case BooleanQuery(cls) =>
      if HasOccur(cls, |cls|, MUST) then
        forall i :: 0 <= i < |cls| ==>
          && (cls[i].occur == MUST ==> CutsPlainly(ctx, cls[i].query))
          && (cls[i].occur == MUST_NOT ==> Fits(ctx, cls[i].query))
      else ClausesFit(ctx, q)
  }

  // What x hands out the query means, at these scores.
  ghost predicate Honest(ctx: Context, q: Query, x: Delivery)
    requires ctx.Ok()
  {
    forall d :: d in x.docs && ctx.Eligible(d) ==> Matches(ctx, q, d) && x.weight(d) == ScoreOf(ctx, q, d)
  }

  // Such a tree delivers nothing that the query does not mean, however little.
  lemma {:induction false} PlainlyHonest(ctx: Context, q: Query, x: Delivery)
    requires ctx.Ok() && CutsPlainly(ctx, q) && Delivers(ctx, q, x) && x.sharp
    ensures Honest(ctx, q, x)
    decreases q
  {
    hide Context.Eligible, Context.Ok, Represents, Meets, Chooses, Context.ViewOf, Honest;
    match q
    case TermQuery(f, t) =>
      TermMeaning(ctx, q, x);
      RepresentsHonest(ctx, q, x);
    case BooleanQuery(cls) =>
      var ys := DeliversParts(ctx, q, x);
      if |ys| < |cls| {
        assert Honest(ctx, q, x) by { NothingHonest(ctx, q, x); }
      } else if HasOccur(cls, |cls|, MUST) {
        forall i | 0 <= i < |ys|
          ensures cls[i].occur == MUST ==> Honest(ctx, cls[i].query, ys[i])
          ensures cls[i].occur == MUST_NOT ==> Represents(ctx, cls[i].query, ys[i].docs, ys[i].weight)
        {
          if cls[i].occur == MUST {
            assert ys[i] in ys;
            PlainlyHonest(ctx, cls[i].query, ys[i]);
          } else if cls[i].occur == MUST_NOT {
            DeliversMeaning(ctx, cls[i].query, ys[i]);
          }
        }
        MeetsHonest(ctx, q, ys, x);
      } else {
        var kept: seq<Hit> :| Chooses(ctx, cls, ys, kept, x);
        UnionHonest(ctx, q, ys, kept, x);
      }
  }

  lemma NothingHonest(ctx: Context, q: Query, x: Delivery)
    requires ctx.Ok() && x.docs == {}
    ensures Honest(ctx, q, x)
  {
  }

  lemma RepresentsHonest(ctx: Context, q: Query, x: Delivery)
    requires ctx.Ok() && Represents(ctx, q, x.docs, x.weight)
    ensures Honest(ctx, q, x)
  {
    hide Context.Eligible, Context.Ok, Matches, ScoreOf;
  }

  lemma UnionHonest(ctx: Context, q: Query, ys: seq<Delivery>, kept: seq<Hit>, x: Delivery)
    requires ctx.Ok() && q.BooleanQuery? && ClausesDeliver(ctx, q.clauses, ys) && ClausesFit(ctx, q)
    requires |ys| == |q.clauses| && !HasOccur(q.clauses, |q.clauses|, MUST)
    requires Chooses(ctx, q.clauses, ys, kept, x) && x.sharp
    ensures Honest(ctx, q, x)
  {
    hide Context.Eligible, Context.Ok, Delivers, ClausesMean, Chooses, Choice, ExcludedBy, IsTopK, Matches;
    FitClausesMean(ctx, q, ys);
    SeenIsKept(ctx, q, ys, kept, x);
    AnswerIsChoice(ctx, q);
    KeptInChoice(kept, Choice(ctx, q), ScoreFn(ctx, q), HitsWanted(ctx));
    forall d | d in x.docs && ctx.Eligible(d)
      ensures Matches(ctx, q, d) && x.weight(d) == ScoreOf(ctx, q, d)
    {
      assert d in Seen(ctx, x) && d in Answer(ctx, q);
    }
  }

  lemma MeetsHonest(ctx: Context, q: Query, ys: seq<Delivery>, x: Delivery)
    requires ctx.Ok() && q.BooleanQuery? && |ys| == |q.clauses|
    requires HasOccur(q.clauses, |q.clauses|, MUST) && Meets(q.clauses, ys, x)
    requires forall i :: 0 <= i < |ys| && q.clauses[i].occur == MUST ==> Honest(ctx, q.clauses[i].query, ys[i])
    requires forall i :: 0 <= i < |ys| && q.clauses[i].occur == MUST_NOT ==> Represents(ctx, q.clauses[i].query, ys[i].docs, ys[i].weight)
    ensures Honest(ctx, q, x)
  {
    hide Context.Eligible, Context.Ok, ScoreOf, Matches;
    forall d | d in x.docs && ctx.Eligible(d)
      ensures Matches(ctx, q, d) && x.weight(d) == ScoreOf(ctx, q, d)
    {
      forall i | 0 <= i < |ys| && q.clauses[i].occur == MUST
        ensures d in ys[i].docs && Matches(ctx, q.clauses[i].query, d) && ys[i].weight(d) == ScoreOf(ctx, q.clauses[i].query, d)
      {
        assert Honest(ctx, q.clauses[i].query, ys[i]);
      }
      NotExcluded(ctx, q, ys, d);
      MustWorthAt(ctx, q, ys, |ys|, d);
      MeetsAt(ctx, q, d);
    }
  }

  lemma NotExcluded(ctx: Context, q: Query, ys: seq<Delivery>, d: DocId)
    requires ctx.Ok() && q.BooleanQuery? && |ys| == |q.clauses| && ctx.Eligible(d) && !SomeGives(q.clauses, ys, MUST_NOT, d)
    requires forall i :: 0 <= i < |ys| && q.clauses[i].occur == MUST_NOT ==> Represents(ctx, q.clauses[i].query, ys[i].docs, ys[i].weight)
    ensures !AnyOf(ctx, q, |q.clauses|, MUST_NOT, d)
  {
    hide Context.Eligible, Context.Ok, ScoreOf, Matches;
    forall i | 0 <= i < |ys| && q.clauses[i].occur == MUST_NOT
      ensures !Matches(ctx, q.clauses[i].query, d)
    {
      assert Represents(ctx, q.clauses[i].query, ys[i].docs, ys[i].weight);
    }
  }

  lemma {:induction false} MustWorthAt(ctx: Context, q: Query, ys: seq<Delivery>, n: nat, d: DocId)
    requires ctx.Ok() && q.BooleanQuery? && n <= |ys| == |q.clauses|
    requires forall i :: 0 <= i < |ys| && q.clauses[i].occur == MUST ==>
               d in ys[i].docs && ys[i].weight(d) == ScoreOf(ctx, q.clauses[i].query, d)
    ensures Worth(q.clauses, ys, n, MUST, d) == SumMust(ctx, q, n, d)
  {
    hide Context.Ok, ScoreOf;
    if n > 0 {
      MustWorthAt(ctx, q, ys, n - 1, d);
    }
  }

  lemma MeetsAt(ctx: Context, q: Query, d: DocId)
    requires ctx.Ok() && q.BooleanQuery? && HasOccur(q.clauses, |q.clauses|, MUST)
    ensures Matches(ctx, q, d) <==> AllMust(ctx, q, |q.clauses|, d) && !AnyOf(ctx, q, |q.clauses|, MUST_NOT, d)
    ensures ScoreOf(ctx, q, d) == SumMust(ctx, q, |q.clauses|, d)
  {
  }

  // The search of such a tree finds the best of what the query means if and
  // only if every answer the unions lost has topK rivals among those they
  // delivered.
  lemma PlainlyFoundIff(ctx: Context, q: Query, x: Delivery, hits: seq<Hit>)
    requires ctx.Ok() && CutsPlainly(ctx, q) && Delivers(ctx, q, x) && x.sharp && Found(ctx, x, hits)
    ensures Seen(ctx, x) <= Answer(ctx, q)
    ensures IsTopK(hits, Answer(ctx, q), ScoreFn(ctx, q), HitsWanted(ctx)) <==>
            forall d :: d in Answer(ctx, q) - Seen(ctx, x) ==> |Rivals(Seen(ctx, x), ScoreFn(ctx, q), d)| >= HitsWanted(ctx)
  {
    hide Context.Eligible, Context.Ok, Delivers, CutsPlainly, IsTopK, Matches, Rivals;
    PlainlyHonest(ctx, q, x);
    forall d | d in Seen(ctx, x)
      ensures d in Answer(ctx, q)
    {
      MatchesAreDocs(ctx, q, d);
    }
    SameTopK(hits, Seen(ctx, x), x.weight, ScoreFn(ctx, q), HitsWanted(ctx));
    BestWithinIff(hits, Seen(ctx, x), Answer(ctx, q), ScoreFn(ctx, q), HitsWanted(ctx));
  }

  // ---------------------------------------------------------------- told beforehand

  // Nothing is handed out for less than nothing.
  lemma {:induction false} NonNegativeWeights(ctx: Context, q: Query, x: Delivery, d: DocId)
    requires ctx.Ok() && Delivers(ctx, q, x) && d in x.docs
    ensures x.weight(d) >= 0.0
    decreases q
  {
    hide Context.Eligible, Context.Ok, Context.ViewOf, Pool, PoolWorth, IsTopK, NonIncreasing, DistinctDocs, AllGive, SomeGives;
    match q
    case TermQuery(f, t) =>
      NonNegativeTerm(ctx, f, t, d);
    case BooleanQuery(cls) =>
      var ys := DeliversParts(ctx, q, x);
      if HasOccur(cls, |cls|, MUST) {
        forall i | 0 <= i < |ys| && d in ys[i].docs
          ensures ys[i].weight(d) >= 0.0
        {
          NonNegativeWeights(ctx, cls[i].query, ys[i], d);
        }
        NonNegativeWorth(cls, ys, |ys|, MUST, d);
      } else {
        var kept: seq<Hit> :| Chooses(ctx, cls, ys, kept, x);
        var i :| 0 <= i < |kept| && kept[i].doc == d;
        assert kept[i] in kept;
      }
  }

  lemma NonNegativeTerm(ctx: Context, f: string, t: string, d: DocId)
    requires ctx.Ok() && f != "" && (f, t) in ctx.lists && d in ctx.lists[(f, t)].docs
    ensures ctx.ViewOf(f, t).weight(d) >= 0.0
  {
    hide TermList.Ok, TermList.UpperBound;
    var l := ctx.lists[(f, t)];
    assert l.Ok(ctx.f32);
    ctx.StatsOk(f, t);
    OpenedListOk(l, ctx.f32);
    TermTame(ctx.StatsOf(f, t), l.List(ctx.f32), Tail(l.docs, 0));
  }

  lemma {:induction false} NonNegativeWorth(cls: seq<Clause>, ys: seq<Delivery>, n: nat, o: Occur, d: DocId)
    requires n <= |ys| <= |cls| && forall i :: 0 <= i < |ys| && d in ys[i].docs ==> ys[i].weight(d) >= 0.0
    ensures Worth(cls, ys, n, o, d) >= 0.0
  {
    if n > 0 {
      NonNegativeWorth(cls, ys, n - 1, o, d);
    }
  }

  // Every query has a delivery whose rankings are all best ones.
  lemma {:induction false} SharpExists(ctx: Context, q: Query) returns (x: Delivery)
    requires ctx.Ok()
    ensures Delivers(ctx, q, x) && x.sharp
    decreases q, 1
  {
    hide Context.Ok, Context.ViewOf, IsTopK, Combines;
    match q
    case TermQuery(f, t) =>
      x := SharpTerm(ctx, f, t);
    case BooleanQuery(cls) =>
      var ys := SharpClauses(ctx, q, |cls|);
      if HasOccur(cls, |cls|, MUST) {
        x := SharpMeet(cls, ys);
        assert Combines(ctx, cls, ys, x) by { CombinesMeet(ctx, cls, ys, x); }
      } else {
        var kept := BestWith(Pool(ctx, cls, ys), PoolWorth(cls, ys), HitsWanted(ctx), 0, 1);
        x := SharpUnion(ctx, q, ys, kept);
        assert Combines(ctx, cls, ys, x) by { CombinesUnion(ctx, cls, ys, kept, x); }
      }
      DeliversBy(ctx, q, ys, x);
  }

  lemma CombinesMeet(ctx: Context, cls: seq<Clause>, ys: seq<Delivery>, x: Delivery)
    requires |ys| == |cls| && HasOccur(cls, |cls|, MUST) && Meets(cls, ys, x)
    ensures Combines(ctx, cls, ys, x)
  {
    hide Meets;
  }

  lemma CombinesUnion(ctx: Context, cls: seq<Clause>, ys: seq<Delivery>, kept: seq<Hit>, x: Delivery)
    requires |ys| == |cls| && !HasOccur(cls, |cls|, MUST) && Chooses(ctx, cls, ys, kept, x)
    ensures Combines(ctx, cls, ys, x)
  {
    hide Chooses;
  }

  lemma SharpTerm(ctx: Context, f: string, t: string) returns (x: Delivery)
    requires ctx.Ok()
    ensures GivesTerm(ctx, f, t, x) && x.sharp
  {
    hide Context.Ok, Context.ViewOf;
    if f != "" && (f, t) in ctx.lists {
      x := Delivery((set d | d in ctx.lists[(f, t)].docs), ctx.ViewOf(f, t).weight, true);
    } else {
      x := Delivery({}, (d: DocId) => 0.0, true);
    }
  }

  lemma {:induction false} SharpClauses(ctx: Context, q: Query, n: nat) returns (ys: seq<Delivery>)
    requires ctx.Ok() && q.BooleanQuery? && n <= |q.clauses|
    ensures |ys| == n && ClausesDeliver(ctx, q.clauses, ys) && AllSharp(ys)
    decreases q, 0, n
  {
    hide Context.Ok, Delivers;
    if n == 0 {
      ys := [];
    } else {
      var front := SharpClauses(ctx, q, n - 1);
      var y := SharpExists(ctx, q.clauses[n - 1].query);
      ys := front + [y];
    }
  }

  lemma SharpMeet(cls: seq<Clause>, ys: seq<Delivery>) returns (x: Delivery)
    requires |ys| == |cls| && HasOccur(cls, |cls|, MUST)
    ensures Meets(cls, ys, x) && x.sharp
  {
    hide AllGive, SomeGives;
    var i :| 0 <= i < |cls| && cls[i].occur == MUST;
    x := Delivery((set d | d in ys[i].docs && AllGive(cls, ys, d) && !SomeGives(cls, ys, MUST_NOT, d)),
                  (d: DocId) => Worth(cls, ys, |ys|, MUST, d), true);
    forall d | AllGive(cls, ys, d)
      ensures d in ys[i].docs
    {
      GivesOne(cls, ys, d, i);
    }
  }

  lemma GivesOne(cls: seq<Clause>, ys: seq<Delivery>, d: DocId, i: nat)
    requires |ys| <= |cls| && i < |ys| && cls[i].occur == MUST && AllGive(cls, ys, d)
    ensures d in ys[i].docs
  {
  }

  // A union may make any best choice.
  lemma SharpUnion(ctx: Context, q: Query, ys: seq<Delivery>, kept: seq<Hit>) returns (x: Delivery)
    requires ctx.Ok() && q.BooleanQuery? && ClausesDeliver(ctx, q.clauses, ys) && |ys| == |q.clauses|
    requires IsTopK(kept, Pool(ctx, q.clauses, ys), PoolWorth(q.clauses, ys), HitsWanted(ctx))
    ensures Chooses(ctx, q.clauses, ys, kept, x) && x.sharp
  {
    hide Context.Ok, Context.Eligible, Delivers, SomeGives, NonIncreasing, DistinctDocs;
    var cls := q.clauses;
    x := Delivery((set d | d in HitDocs(kept) && !SomeGives(cls, ys, MUST_NOT, d)), PoolWorth(cls, ys), true);
    forall h | h in kept
      ensures h.score == PoolWorth(cls, ys)(h.doc) >= 0.0
    {
      forall i | 0 <= i < |ys| && h.doc in ys[i].docs
        ensures ys[i].weight(h.doc) >= 0.0
      {
        NonNegativeWeights(ctx, cls[i].query, ys[i], h.doc);
      }
      NonNegativeWorth(cls, ys, |ys|, SHOULD, h.doc);
    }
  }

  // Whatever best choice the union makes among ties, the search finds the
  // best of what the query means.
  ghost predicate AlwaysRight(ctx: Context, q: Query)
    requires ctx.Ok()
  {
    forall x, hits :: Delivers(ctx, q, x) && x.sharp && Found(ctx, x, hits) ==>
      IsTopK(hits, Answer(ctx, q), ScoreFn(ctx, q), HitsWanted(ctx))
  }

  ghost predicate AllOutscored(ctx: Context, q: Query)
    requires ctx.Ok() && q.BooleanQuery?
  {
    forall d :: d in ExcludedBy(ctx, q) ==> |Better(Choice(ctx, q), ScoreFn(ctx, q), d)| >= HitsWanted(ctx)
  }

  ghost predicate FewRivals(ctx: Context, q: Query)
    requires ctx.Ok() && q.BooleanQuery?
  {
    forall d :: d in Answer(ctx, q) ==> |Rivals(Choice(ctx, q), ScoreFn(ctx, q), d)| < HitsWanted(ctx)
  }

  // A union with exclusions, told by query and segment alone: every best
  // choice it can make is right if and only if every excluded candidate is
  // outscored by topK candidates, or every answer has fewer than topK rivals
  // among the candidates.
  lemma UnionExactIff(ctx: Context, q: Query)
    requires ctx.Ok() && q.BooleanQuery? && ClausesFit(ctx, q) && !HasOccur(q.clauses, |q.clauses|, MUST)
    ensures AlwaysRight(ctx, q) <==> AllOutscored(ctx, q) || FewRivals(ctx, q)
  {
    hide Context.Ok, ClausesFit, Delivers, Found, IsTopK, Answer, ScoreFn, AllOutscored, FewRivals;
    if AllOutscored(ctx, q) || FewRivals(ctx, q) {
      forall x, hits | Delivers(ctx, q, x) && x.sharp && Found(ctx, x, hits)
        ensures IsTopK(hits, Answer(ctx, q), ScoreFn(ctx, q), HitsWanted(ctx))
      {
        ChoiceRight(ctx, q, x, hits);
      }
    } else {
      var x, hits := WrongChoice(ctx, q);
    }
  }

  lemma ChoiceRight(ctx: Context, q: Query, x: Delivery, hits: seq<Hit>)
    requires ctx.Ok() && q.BooleanQuery? && ClausesFit(ctx, q) && !HasOccur(q.clauses, |q.clauses|, MUST)
    requires Delivers(ctx, q, x) && x.sharp && Found(ctx, x, hits)
    requires AllOutscored(ctx, q) || FewRivals(ctx, q)
    ensures IsTopK(hits, Answer(ctx, q), ScoreFn(ctx, q), HitsWanted(ctx))
  {
    hide Context.Eligible, Context.Ok, Delivers, Chooses, Choice, ExcludedBy, IsTopK, Answer, ScoreFn, Fits, Better, Rivals;
    var ys := DeliversParts(ctx, q, x);
    var kept :| Chooses(ctx, q.clauses, ys, kept, x);
    FitClausesMean(ctx, q, ys);
    SeenIsKept(ctx, q, ys, kept, x);
    AnswerIsChoice(ctx, q);
    KeptInChoice(kept, Choice(ctx, q), ScoreFn(ctx, q), HitsWanted(ctx));
    UnionFoundIff(ctx, q, ys, kept, x, hits);
    ExcludedChosen(ctx, q);
    forall d | d in Choice(ctx, q)
      ensures |Better(Choice(ctx, q), ScoreFn(ctx, q), d)| >= HitsWanted(ctx) ==> d !in HitDocs(kept)
      ensures |Rivals(Choice(ctx, q), ScoreFn(ctx, q), d)| < HitsWanted(ctx) ==> d in HitDocs(kept)
    {
      KeptByRank(kept, Choice(ctx, q), ScoreFn(ctx, q), HitsWanted(ctx), d);
    }
  }

  // Otherwise the union can keep an excluded candidate and drop an answer.
  lemma WrongChoice(ctx: Context, q: Query) returns (x: Delivery, hits: seq<Hit>)
    requires ctx.Ok() && q.BooleanQuery? && ClausesFit(ctx, q) && !HasOccur(q.clauses, |q.clauses|, MUST)
    requires !AllOutscored(ctx, q) && !FewRivals(ctx, q)
    ensures Delivers(ctx, q, x) && x.sharp && Found(ctx, x, hits)
    ensures !IsTopK(hits, Answer(ctx, q), ScoreFn(ctx, q), HitsWanted(ctx))
  {
    hide Context.Eligible, Context.Ok, Delivers, Chooses, Choice, ExcludedBy, IsTopK, Answer, ScoreFn, Fits, Better, Rivals,
         Pool, PoolWorth, Combines, ClausesMean, ClausesFit, Seen;
    var d :| d in ExcludedBy(ctx, q) && |Better(Choice(ctx, q), ScoreFn(ctx, q), d)| < HitsWanted(ctx);
    var a :| a in Answer(ctx, q) && |Rivals(Choice(ctx, q), ScoreFn(ctx, q), a)| >= HitsWanted(ctx);
    ExcludedChosen(ctx, q);
    AnswerIsChoice(ctx, q);
    var kept := BestWith(Choice(ctx, q), ScoreFn(ctx, q), HitsWanted(ctx), d, a);
    var ys := SharpClauses(ctx, q, |q.clauses|);
    FitClausesMean(ctx, q, ys);
    PoolMeans(ctx, q, ys);
    SameTopK(kept, Choice(ctx, q), PoolWorth(q.clauses, ys), ScoreFn(ctx, q), HitsWanted(ctx));
    x := SharpUnion(ctx, q, ys, kept);
    CombinesUnion(ctx, q.clauses, ys, kept, x);
    DeliversBy(ctx, q, ys, x);
    hits := BestWith(Seen(ctx, x), x.weight, HitsWanted(ctx), d, a);
    UnionFoundIff(ctx, q, ys, kept, x, hits);
  }

  lemma ExcludedChosen(ctx: Context, q: Query)
    requires q.BooleanQuery?
    ensures ExcludedBy(ctx, q) <= Choice(ctx, q)
  {
    hide Choice;
  }
}
