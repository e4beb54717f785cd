// Compiling a query into a scorer tree, and the proof that the tree delivers
// what the query delivers.
module Compilation {
  import opened Prelude
  import opened Sorting
  import opened MemoryPostings
  import opened DiskPostings
  import opened Postings
  import opened Scorers
  import opened WandTheory
  import opened WandRuns
  import opened Wand
  import opened Queries
  import opened Rankings
  import opened Deliveries

  // A query nothing can match is compiled to no scorer at all.
  ghost function DocsOf(s: Scorer?): set<DocId> {
    if s == null then {} else s.docs
  }

  ghost function WeightOf(s: Scorer?): DocId -> real {
    if s == null then (d: DocId) => 0.0 else s.view.weight
  }

  // The scorer compiled for q delivers x.
  ghost predicate Compiled(ctx: Context, q: Query, s: Scorer?, x: Delivery)
    requires ctx.Ok()
  {
    && x.docs == DocsOf(s) && x.weight == WeightOf(s)
    && Delivers(ctx, q, x)
    && (s != null ==> Trusty(ctx, s))
    && (SafeLists(ctx, q) && ctx.Sound() ==> x.sharp)
    && (q.TermQuery? ==> x.sharp && (s != null && s.docs != {} ==> IsCursor(ctx, q, s)))
  }

  // The bounds of a scorer are true if the stored ones are, its blocks are
  // bounded by its list if every list is one block, and the hits of a ranked
  // union are in order.
  ghost predicate Trusty(ctx: Context, s: Scorer)
    requires ctx.Ok()
  {
    && (ctx.Sound() ==> SoundOn(s.docs, s.view))
    && (ctx.OneBlockLists() ==> Flat(s))
    && (s.kind == Wand ==> Ranked(ctx, s))
  }

  // A ranked union keeps its hits best first, eligible documents only and no
  // more than asked for.
  ghost predicate Ranked(ctx: Context, s: Scorer) {
    && NonIncreasing(s.scoreOrder) && DistinctDocs(s.scoreOrder)
    && HitDocs(s.scoreOrder) == s.docs
    && (forall d :: d in s.docs ==> ctx.Eligible(d))
    && (forall h :: h in s.scoreOrder ==> s.view.weight(h.doc) == h.score)
    && |s.scoreOrder| <= HitsWanted(ctx)
  }

  // ---------------------------------------------------------------- blocks in step

  // c is a cursor over the list of the term.
  ghost predicate IsCursor(ctx: Context, q: Query, c: Scorer)
    requires ctx.Ok()
  {
    && q.TermQuery? && HasList(ctx, q)
    && c.docs == ListDocs(ctx, q) && c.view == ctx.ViewOf(q.field, q.term)
  }

  ghost predicate HasList(ctx: Context, q: Query)
    requires q.TermQuery?
  {
    q.field != "" && (q.field, q.term) in ctx.lists
  }

  ghost function ListDocs(ctx: Context, q: Query): set<DocId>
    requires q.TermQuery? && HasList(ctx, q)
  {
    Tail(ctx.lists[(q.field, q.term)].docs, 0)
  }

  // A union of terms whose lists have their blocks in step.
  ghost predicate ListsInStep(ctx: Context, q: Query)
    requires ctx.Ok()
  {
    && q.BooleanQuery?
    && (forall i :: 0 <= i < |q.clauses| ==> q.clauses[i].occur == SHOULD && q.clauses[i].query.TermQuery?)
    && (forall i, j :: 0 <= i < |q.clauses| && 0 <= j < |q.clauses| ==>
          TermsInStep(ctx, q.clauses[i].query, q.clauses[j].query))
  }

  ghost predicate TermsInStep(ctx: Context, a: Query, b: Query)
    requires ctx.Ok() && a.TermQuery? && b.TermQuery?
  {
    HasList(ctx, a) && HasList(ctx, b) ==>
      PairInStep(ListDocs(ctx, a), ctx.ViewOf(a.field, a.term), ListDocs(ctx, b), ctx.ViewOf(b.field, b.term))
  }

  // What can be looked at before the search to know that no block skip can
  // split a document.
  ghost predicate SafeLists(ctx: Context, q: Query)
    requires ctx.Ok()
  {
    ctx.OneBlockLists() || ListsInStep(ctx, q)
  }

  ghost predicate Cursors(ctx: Context, q: Query, cs: seq<Scorer>)
    requires ctx.Ok() && q.BooleanQuery?
  {
    forall c :: c in cs ==> exists i :: 0 <= i < |q.clauses| && FromClause(ctx, q, i, c)
  }

  ghost predicate FromClause(ctx: Context, q: Query, i: nat, c: Scorer)
    requires ctx.Ok() && q.BooleanQuery? && i < |q.clauses|
  {
    q.clauses[i].query.TermQuery? ==> IsCursor(ctx, q.clauses[i].query, c)
  }

  lemma CursorEnds(ctx: Context, q: Query, c: Scorer)
    requires ctx.Ok() && IsCursor(ctx, q, c)
    ensures EndsKnown(c.docs, c.view)
  {
    hide Written, NormsOk;
    var l := ctx.lists[(q.field, q.term)];
    assert l.Ok(ctx.f32);
    OpenedListOk(l, ctx.f32);
  }

  lemma CursorsInStep(ctx: Context, q: Query, r: Run)
    requires ctx.Ok() && ListsInStep(ctx, q) && Cursors(ctx, q, r.cs)
    requires forall c :: c in r.cs && c in r.start ==> r.start[c] == c.docs
    ensures InStep(r)
  {
    hide Context.Ok, Context.ViewOf, PairInStep, EndsKnown, EndsUnknown;
    forall c | c in r.cs && c in r.start
      ensures EndsKnown(r.start[c], c.view)
    {
      var i :| 0 <= i < |q.clauses| && FromClause(ctx, q, i, c);
      CursorEnds(ctx, q.clauses[i].query, c);
    }
    forall a, b | a in r.cs && b in r.cs && a in r.start && b in r.start
      ensures PairInStep(r.start[a], a.view, r.start[b], b.view)
    {
      var i :| 0 <= i < |q.clauses| && FromClause(ctx, q, i, a);
      var j :| 0 <= j < |q.clauses| && FromClause(ctx, q, j, b);
      assert TermsInStep(ctx, q.clauses[i].query, q.clauses[j].query);
    }
  }

  // ---------------------------------------------------------------- gathering

  datatype Parts = Parts(must: seq<Scorer>, should: seq<Scorer>, mustNot: seq<Scorer>)
  {
    function All(): seq<Scorer> {
      must + should + mustNot
    }

    function With(occur: Occur, c: Scorer): Parts {
      match occur
      case MUST => this.(must := must + [c])
      case SHOULD => this.(should := should + [c])
      case MUST_NOT => this.(mustNot := mustNot + [c])
    }
  }

  ghost predicate AllHave(cs: seq<Scorer>, d: DocId) {
    forall c :: c in cs ==> d in c.docs
  }

  ghost predicate SomeHas(cs: seq<Scorer>, d: DocId) {
    exists c :: c in cs && d in c.docs
  }

  ghost function DocShare(d: DocId): Scorer -> real {
    (c: Scorer) => if d in c.docs then c.view.weight(d) else 0.0
  }

  // The scorers cs, gathered from clauses of one role, say about every
  // document what these clauses deliver.
  ghost predicate SpeakFor(cls: seq<Clause>, ys: seq<Delivery>, o: Occur, cs: seq<Scorer>)
    requires |ys| <= |cls|
  {
    forall d ::
      && (SomeHas(cs, d) <==> SomeGives(cls, ys, o, d))
      && SumBy(DocShare(d), cs) == Worth(cls, ys, |ys|, o, d)
  }

  ghost predicate Gathered(cls: seq<Clause>, ys: seq<Delivery>, p: Parts)
    requires |ys| <= |cls|
  {
    && SpeakFor(cls, ys, MUST, p.must) && SpeakFor(cls, ys, SHOULD, p.should) && SpeakFor(cls, ys, MUST_NOT, p.mustNot)
    && forall d :: AllHave(p.must, d) <==> AllGive(cls, ys, d)
  }

  lemma SomeHasMore(cs: seq<Scorer>, c: Scorer, d: DocId)
    ensures SomeHas(cs + [c], d) <==> SomeHas(cs, d) || d in c.docs
    ensures AllHave(cs + [c], d) <==> AllHave(cs, d) && d in c.docs
  {
  }

  lemma GivesMore(cls: seq<Clause>, ys: seq<Delivery>, y: Delivery, o: Occur, d: DocId)
    requires |ys| < |cls|
    ensures SomeGives(cls, ys + [y], o, d) <==> SomeGives(cls, ys, o, d) || (cls[|ys|].occur == o && d in y.docs)
    ensures AllGive(cls, ys + [y], d) <==> AllGive(cls, ys, d) && (cls[|ys|].occur == MUST ==> d in y.docs)
  {
    var zs := ys + [y];
    assert zs[|ys|] == y && forall i :: 0 <= i < |ys| ==> zs[i] == ys[i];
  }

  lemma {:induction false} WorthKept(cls: seq<Clause>, ys: seq<Delivery>, y: Delivery, n: nat, o: Occur, d: DocId)
    requires n <= |ys| < |cls|
    ensures Worth(cls, ys + [y], n, o, d) == Worth(cls, ys, n, o, d)
  {
    if n > 0 {
      WorthKept(cls, ys, y, n - 1, o, d);
    }
  }

  lemma SpeakForWith(cls: seq<Clause>, ys: seq<Delivery>, o: Occur, cs: seq<Scorer>, y: Delivery, c: Scorer)
    requires |ys| < |cls| && cls[|ys|].occur == o && y.docs == c.docs && y.weight == c.view.weight
    requires SpeakFor(cls, ys, o, cs)
    ensures SpeakFor(cls, ys + [y], o, cs + [c])
  {
    hide SomeHas, SomeGives;
    forall d
      ensures SomeHas(cs + [c], d) <==> SomeGives(cls, ys + [y], o, d)
      ensures SumBy(DocShare(d), cs + [c]) == Worth(cls, ys + [y], |ys| + 1, o, d)
    {
      SomeHasMore(cs, c, d);
      GivesMore(cls, ys, y, o, d);
      WorthKept(cls, ys, y, |ys|, o, d);
      assert (cs + [c])[..|cs|] == cs;
    }
  }

  lemma SpeakForWithout(cls: seq<Clause>, ys: seq<Delivery>, o: Occur, cs: seq<Scorer>, y: Delivery)
    requires |ys| < |cls| && (cls[|ys|].occur != o || y.docs == {})
    requires SpeakFor(cls, ys, o, cs)
    ensures SpeakFor(cls, ys + [y], o, cs)
  {
    hide SomeHas, SomeGives;
    forall d
      ensures SomeHas(cs, d) <==> SomeGives(cls, ys + [y], o, d)
      ensures SumBy(DocShare(d), cs) == Worth(cls, ys + [y], |ys| + 1, o, d)
    {
      GivesMore(cls, ys, y, o, d);
      WorthKept(cls, ys, y, |ys|, o, d);
    }
  }

  // A clause's scorer takes its place.
  lemma OneGathered(cls: seq<Clause>, ys: seq<Delivery>, p: Parts, y: Delivery, c: Scorer)
    requires |ys| < |cls| && Gathered(cls, ys, p) && y.docs == c.docs && y.weight == c.view.weight
    ensures Gathered(cls, ys + [y], p.With(cls[|ys|].occur, c))
  {
    hide SpeakFor, AllHave, AllGive;
    match cls[|ys|].occur {
      case MUST =>
        SpeakForWith(cls, ys, MUST, p.must, y, c);
        SpeakForWithout(cls, ys, SHOULD, p.should, y);
        SpeakForWithout(cls, ys, MUST_NOT, p.mustNot, y);
      case SHOULD =>
        SpeakForWith(cls, ys, SHOULD, p.should, y, c);
        SpeakForWithout(cls, ys, MUST, p.must, y);
        SpeakForWithout(cls, ys, MUST_NOT, p.mustNot, y);
      case MUST_NOT =>
        SpeakForWith(cls, ys, MUST_NOT, p.mustNot, y, c);
        SpeakForWithout(cls, ys, MUST, p.must, y);
        SpeakForWithout(cls, ys, SHOULD, p.should, y);
    }
    forall d
      ensures AllHave(p.With(cls[|ys|].occur, c).must, d) <==> AllGive(cls, ys + [y], d)
    {
      SomeHasMore(p.must, c, d);
      GivesMore(cls, ys, y, MUST, d);
    }
  }

  // Nothing is kept of a clause that delivers nothing, unless it is a MUST.
  lemma NothingGathered(cls: seq<Clause>, ys: seq<Delivery>, p: Parts, y: Delivery)
    requires |ys| < |cls| && Gathered(cls, ys, p) && y.docs == {} && cls[|ys|].occur != MUST
    ensures Gathered(cls, ys + [y], p)
  {
    hide SpeakFor, AllGive;
    SpeakForWithout(cls, ys, MUST, p.must, y);
    SpeakForWithout(cls, ys, SHOULD, p.should, y);
    SpeakForWithout(cls, ys, MUST_NOT, p.mustNot, y);
    forall d
      ensures AllHave(p.must, d) <==> AllGive(cls, ys + [y], d)
    {
      GivesMore(cls, ys, y, MUST, d);
    }
  }

  lemma EmptyGathered(ctx: Context, q: Query)
    requires ctx.Ok() && q.BooleanQuery?
    ensures Gathered(q.clauses, [], Parts([], [], [])) && ClausesDeliver(ctx, q.clauses, [])
    ensures Ready(Parts([], [], []).All()) && AllTrusty(ctx, Parts([], [], []).All()) && Cursors(ctx, q, [])
  {
  }

  ghost predicate AllTrusty(ctx: Context, cs: seq<Scorer>)
    requires ctx.Ok()
  {
    forall c :: c in cs ==> Trusty(ctx, c)
  }

  lemma TrustyWith(ctx: Context, p: Parts, occur: Occur, c: Scorer)
    requires ctx.Ok() && AllTrusty(ctx, p.All()) && Trusty(ctx, c)
    ensures AllTrusty(ctx, p.With(occur, c).All())
  {
    hide Trusty, Context.Ok;
    assert forall e :: e in p.With(occur, c).All() ==> e in p.All() || e == c;
  }

  lemma CursorsWith(ctx: Context, q: Query, cs: seq<Scorer>, i: nat, c: Scorer, x: Delivery)
    requires ctx.Ok() && q.BooleanQuery? && i < |q.clauses| && Cursors(ctx, q, cs)
    requires Compiled(ctx, q.clauses[i].query, c, x) && c.docs != {}
    ensures Cursors(ctx, q, cs + [c])
  {
    hide Context.Ok, Delivers, Trusty, IsCursor, SafeLists;
    assert FromClause(ctx, q, i, c);
  }

  // ---------------------------------------------------------------- compiling

  // Scorers that have not moved yet.
  ghost predicate AtStart(cs: seq<Scorer>)
    reads cs
  {
    forall c :: c in cs ==> c.rem == c.docs
  }

  ghost predicate Ready(cs: seq<Scorer>)
    reads cs, ReprOf(cs)
  {
    Forest(cs) && AtStart(cs)
  }

  lemma ReprOfBoth(a: seq<Scorer>, b: seq<Scorer>)
    ensures ReprOf(a + b) == ReprOf(a) + ReprOf(b)
  {
    forall o
      ensures o in ReprOf(a + b) <==> o in ReprOf(a) || o in ReprOf(b)
    {
      if o in ReprOf(a) {
        var i :| 0 <= i < |a| && o in a[i].Repr;
        assert (a + b)[i] == a[i];
      }
      if o in ReprOf(b) {
        var i :| 0 <= i < |b| && o in b[i].Repr;
        assert (a + b)[|a| + i] == b[i];
      }
    }
  }

  lemma Footprint(cs: seq<Scorer>)
    requires Forest(cs)
    ensures forall c :: c in cs ==> c in ReprOf(cs)
  {
    forall i | 0 <= i < |cs|
      ensures cs[i] in ReprOf(cs)
    {
      assert cs[i].Valid();
    }
  }

  lemma ReadySplit(a: seq<Scorer>, b: seq<Scorer>)
    requires Ready(a + b)
    ensures Ready(a) && Ready(b) && ReprOf(a) !! ReprOf(b)
    ensures ReprOf(a + b) == ReprOf(a) + ReprOf(b)
  {
    hide Scorer.Valid;
    ReprOfBoth(a, b);
    assert forall i :: 0 <= i < |a| ==> (a + b)[i] == a[i];
    assert forall i :: 0 <= i < |b| ==> (a + b)[|a| + i] == b[i];
  }

  lemma ReadyOneMore(cs: seq<Scorer>, c: Scorer)
    requires Ready(cs) && c.Valid() && c.rem == c.docs && c.Repr !! ReprOf(cs)
    ensures Ready(cs + [c]) && ReprOf(cs + [c]) == ReprOf(cs) + c.Repr
  {
    hide Scorer.Valid;
    ReprOfBoth(cs, [c]);
    assert ReprOf([c]) == c.Repr by { assert [c][0] == c; }
    forall i | 0 <= i < |cs|
      ensures cs[i].Repr <= ReprOf(cs)
    {
    }
  }

  lemma ReadyPermuted(cs: seq<Scorer>, ds: seq<Scorer>)
    requires Ready(cs) && multiset(cs) == multiset(ds)
    ensures Ready(ds) && ReprOf(ds) == ReprOf(cs)
  {
    hide Scorer.Valid;
    PermutationForest(cs, ds);
    PermutationMembers(cs, ds);
  }

  // A newly compiled scorer joins the gathered ones.
  lemma ReadyWith(p: Parts, occur: Occur, c: Scorer)
    requires Ready(p.All()) && c.Valid() && c.rem == c.docs && c.Repr !! ReprOf(p.All())
    ensures Ready(p.With(occur, c).All())
    ensures ReprOf(p.With(occur, c).All()) == ReprOf(p.All()) + c.Repr
  {
    hide Ready, ReprOf, Scorer.Valid;
    ReadyOneMore(p.All(), c);
    ReadyPermuted(p.All() + [c], p.With(occur, c).All());
  }

  // Opens a term's posting list. A term without a field, or one the segment
  // does not have, gets an empty cursor.
  method OpenList(ctx: Context, field: string, term: string) returns (iter: PostingCursor)
    requires ctx.Ok()
    ensures iter.Valid() && fresh(iter.Repr())
    ensures if field != "" && (field, term) in ctx.lists then
              var l := ctx.lists[(field, term)];
              iter.Rem() == Tail(l.docs, 0) && iter.list == l.List(ctx.f32)
            else iter.Rem() == {}
  {
    hide TermList.Ok, PostingCursor.Valid, PostingCursor.Repr;
    if field == "" || (field, term) !in ctx.lists {
      iter := new PostingCursor.Empty();
      return;
    }
    var l := ctx.lists[(field, term)];
    assert l.Ok(ctx.f32);
    if l.InMemory? {
      iter := OpenMemory(l, ctx.f32);
    } else {
      iter := OpenDisk(l, ctx.f32);
    }
  }

  method OpenMemory(l: TermList, f32: nat -> real) returns (iter: PostingCursor)
    requires l.InMemory? && l.Ok(f32)
    ensures iter.Valid() && fresh(iter.Repr()) && iter.Rem() == Tail(l.docs, 0) && iter.list == l.List(f32)
  {
    hide PostingCursor.Valid, MemoryPostingIterator.Valid, MemoryList, PostingDocs, Tail;
    var m := new MemoryPostingIterator(l.docs, l.tfs, l.upperBound);
    iter := new PostingCursor.InMemory(m);
  }

  method OpenDisk(l: TermList, f32: nat -> real) returns (iter: PostingCursor)
    requires l.OnDisk? && l.Ok(f32)
    ensures iter.Valid() && fresh(iter.Repr()) && iter.Rem() == Tail(l.docs, 0) && iter.list == l.List(f32)
  {
    hide PostingCursor.Valid, PostingIterator.Valid, Written;
    var d := new PostingIterator(l.file, l.meta, l.docs, l.tfBytes, l.norms, l.skips, l.compressed);
    iter := new PostingCursor.OnDisk(d, f32);
  }

  method OpenTerm(ctx: Context, field: string, term: string) returns (s: Scorer, ghost x: Delivery)
    requires ctx.Ok()
    ensures s.Valid() && fresh(s.Repr) && s.rem == s.docs
    ensures Compiled(ctx, TermQuery(field, term), s, x)
  {
    hide Scorer.Valid, PostingCursor.Valid, Compiled, TermList.Ok, TermList.List, Context.Ok, Context.StatsOf;
    ctx.StatsOk(field, term);
    var iter := OpenList(ctx, field, term);
    s := new Scorer.TermScorer(ctx.StatsOf(field, term), iter);
    MaxIsMax(s);
    x := Delivery(s.docs, s.view.weight, true);
    TermCompiled(ctx, field, term, s, x);
  }

  lemma TermCompiled(ctx: Context, field: string, term: string, s: Scorer, x: Delivery)
    requires ctx.Ok() && s.kind == Term && x == Delivery(s.docs, s.view.weight, true)
    requires if field != "" && (field, term) in ctx.lists then
               s.docs == Tail(ctx.lists[(field, term)].docs, 0) && s.view == ctx.ViewOf(field, term)
             else s.docs == {}
    requires s.view.max == s.maxScore == ctx.StatsOf(field, term).listUb
    ensures Compiled(ctx, TermQuery(field, term), s, x)
  {
    hide Context.Eligible, Ranked, TermList.Ok, Context.StatsOf, SoundOn, Flat, Context.Ok, Context.ViewOf, SafeLists;
    if field != "" && (field, term) in ctx.lists {
      TermFlat(ctx, field, term, s);
      TailAll(ctx.lists[(field, term)].docs);
    } else {
      NoneTrusty(ctx, s);
    }
  }

  lemma TailAll(docs: seq<DocId>)
    ensures forall d :: d in Tail(docs, 0) <==> d in docs
  {
  }

  lemma NoneTrusty(ctx: Context, s: Scorer)
    requires ctx.Ok() && s.docs == {} && s.kind != Wand
    ensures Trusty(ctx, s)
  {
    hide Context.Ok;
  }

  // A list in memory bounds its one block as it bounds the whole.
  lemma OneBlock(stats: TermStats, docs: seq<DocId>, tfs: seq<nat>, ub: real)
    requires stats.NonNegative() && stats.listUb == ub * stats.idf
    ensures forall d :: TermView(stats, MemoryList(docs, tfs, ub)).blockMax(d) == stats.listUb
  {
  }

  lemma TermFlat(ctx: Context, field: string, term: string, s: Scorer)
    requires ctx.Ok() && field != "" && (field, term) in ctx.lists
    requires s.view == ctx.ViewOf(field, term) && s.maxScore == ctx.StatsOf(field, term).listUb
    ensures ctx.OneBlockLists() ==> Flat(s)
  {
    hide Context.Ok, TermList.Ok, Context.Idf, TermView, MemoryList;
    ctx.StatsOk(field, term);
    var l := ctx.lists[(field, term)];
    if l.InMemory? {
      OneBlock(ctx.StatsOf(field, term), l.docs, l.tfs, l.upperBound);
    }
  }

  lemma MaxIsMax(s: Scorer)
    requires s.Valid()
    ensures s.view.max == s.maxScore
  {
  }

  ghost predicate Excluded(docs: set<DocId>, base: set<DocId>, excl: seq<Scorer>) {
    forall d :: d in docs <==> d in base && !SomeHas(excl, d)
  }

  lemma ExcludedNone(base: set<DocId>)
    ensures Excluded(base, base, [])
  {
  }

  lemma ExcludedOneMore(docs: set<DocId>, base: set<DocId>, excl: seq<Scorer>, i: nat, docs': set<DocId>)
    requires i < |excl| && Excluded(docs, base, excl[..i]) && docs' == docs - excl[i].docs
    ensures Excluded(docs', base, excl[..i + 1])
  {
  }

  method ExcludeNext(root: Scorer, excl: seq<Scorer>, i: nat) returns (s: Scorer)
    requires i < |excl| && root.Valid() && root.rem == root.docs
    requires Ready(excl[i..]) && root.Repr !! ReprOf(excl[i..])
    modifies root.Repr, ReprOf(excl[i..])
    ensures s.Valid() && s.rem == s.docs && s.kind == Exclusion
    ensures Ready(excl[i + 1..]) && s.Repr !! ReprOf(excl[i + 1..]) && ReprOf(excl[i + 1..]) <= ReprOf(excl[i..])
    ensures fresh(s.Repr - root.Repr - ReprOf(excl[i..]))
    ensures s.docs == root.docs - excl[i].docs && s.view == OpaqueBlocks(root.view) && Flat(s)
    ensures SoundOn(root.docs, root.view) ==> SoundOn(s.docs, s.view)
  {
    hide Scorer.Valid, SoundOn, TameOn;
    assert excl[i..] == [excl[i]] + excl[i + 1..];
    ReadySplit([excl[i]], excl[i + 1..]);
    SoleReady(excl[i]);
    assert Forest([root, excl[i]]);
    Footprint(excl[i + 1..]);
    s := NewExclusion(root, excl[i]);
    MaxIsMax(s);
    if SoundOn(root.docs, root.view) {
      OpaqueSound(root.docs, s.docs, root.view);
    }
  }

  lemma SoleReady(c: Scorer)
    ensures ReprOf([c]) == c.Repr && (Ready([c]) ==> c.Valid() && c.rem == c.docs)
  {
    hide Scorer.Valid;
    assert [c][0] == c && c in [c];
  }

  // MUST_NOT clauses wrap the scorer one after the other.
  method ExcludeAll(ghost ctx: Context, base: Scorer, excl: seq<Scorer>) returns (s: Scorer)
    requires ctx.Ok() && base.Valid() && base.rem == base.docs && Ready(excl) && base.Repr !! ReprOf(excl)
    requires Trusty(ctx, base)
    modifies base.Repr, ReprOf(excl)
    ensures s.Valid() && fresh(s.Repr - base.Repr - ReprOf(excl)) && s.rem == s.docs
    ensures Excluded(s.docs, base.docs, excl) && s.view.weight == base.view.weight
    ensures Trusty(ctx, s)
    ensures if excl == [] then s == base else s.kind == Exclusion
  {
    hide Scorer.Valid, Forest, SoundOn, Flat, Excluded, ReprOf, Trusty, Context.Ok;
    s := base;
    assert excl[0..] == excl && excl[..0] == [];
    ExcludedNone(base.docs);
    for i := 0 to |excl|
      invariant s.Valid() && s.rem == s.docs && Ready(excl[i..]) && s.Repr !! ReprOf(excl[i..])
      invariant fresh(s.Repr - base.Repr - ReprOf(excl)) && ReprOf(excl[i..]) <= ReprOf(excl)
      invariant Excluded(s.docs, base.docs, excl[..i]) && s.view.weight == base.view.weight
      invariant Trusty(ctx, s)
      invariant if i == 0 then s == base else s.kind == Exclusion
    {
      ghost var before := s;
      s := ExcludeNext(s, excl, i);
      StaysTrusty(ctx, before, s);
      ExcludedOneMore(before.docs, base.docs, excl, i, s.docs);
    }
    assert excl[..|excl|] == excl;
  }

  lemma StaysTrusty(ctx: Context, before: Scorer, s: Scorer)
    requires ctx.Ok() && Trusty(ctx, before) && s.kind == Exclusion && Flat(s)
    requires SoundOn(before.docs, before.view) ==> SoundOn(s.docs, s.view)
    ensures Trusty(ctx, s)
  {
    hide Context.Ok, SoundOn, Flat;
  }

  // ---------------------------------------------------------------- unions

  // SHOULD clauses without a MUST: a ranked union, run at once.
  method MakeUnion(ctx: Context, q: Query, p: Parts, ghost ys: seq<Delivery>) returns (s: Scorer, ghost sharp: bool)
    requires ctx.Ok() && q.BooleanQuery? && |ys| == |q.clauses| && Gathered(q.clauses, ys, p)
    requires Ready(p.should) && AllTrusty(ctx, p.should) && Cursors(ctx, q, p.should)
    modifies ReprOf(p.should)
    ensures s.Valid() && fresh(s.Repr) && s.rem == s.docs && s.kind == Wand && Trusty(ctx, s)
    ensures IsRanking(s.scoreOrder, Pool(ctx, q.clauses, ys), PoolWorth(q.clauses, ys), HitsWanted(ctx), sharp)
    ensures SafeLists(ctx, q) && ctx.Sound() ==> sharp
  {
    hide Scorer.Valid, Gathered, SoundOn, Context.Eligible, Context.Sound, Context.Ok, Forest, UnionRan, Cursors, AllTrusty,
         SafeLists, IsRanking, Pool, PoolWorth, Trusty;
    var skipped;
    ghost var start := Rems(p.should);
    ghost var t, end;
    s, skipped, t, end := NewWand(p.should, ctx.topK, (d: DocId) => ctx.Eligible(d), true);
    sharp := UnionBuilt(ctx, q, p, ys, start, s, t, end, skipped);
  }

  // The union's run is over exactly the documents its clauses deliver, and
  // scores them as its clauses do.
  lemma UnionTargets(ctx: Context, q: Query, p: Parts, ys: seq<Delivery>, r: Run)
    requires q.BooleanQuery? && |ys| == |q.clauses| && SpeakFor(q.clauses, ys, SHOULD, p.should)
    requires r.cs == p.should && r.eligible == ((d: DocId) => ctx.Eligible(d))
    requires r.start.Keys == (set c | c in p.should) && forall c :: c in p.should ==> r.start[c] == c.docs
    ensures r.Targets() == Pool(ctx, q.clauses, ys)
    ensures forall d :: r.TrueScore()(d) == PoolWorth(q.clauses, ys)(d)
  {
    hide Context.Eligible;
    forall d
      ensures d in Union(r.start) <==> SomeGives(q.clauses, ys, SHOULD, d)
      ensures ScoreIn(r.cs, r.start, d) == Worth(q.clauses, ys, |ys|, SHOULD, d)
    {
      assert SomeHas(p.should, d) <==> SomeGives(q.clauses, ys, SHOULD, d);
      SumBySame(Share(r.start, d), DocShare(d), r.cs);
    }
  }

  lemma SameRanking(hits: seq<Hit>, docs: set<DocId>, f: DocId -> real, g: DocId -> real, k: nat, exact: bool)
    requires IsRanking(hits, docs, f, k, exact) && forall d :: f(d) == g(d)
    ensures IsRanking(hits, docs, g, k, exact)
  {
    hide IsTopK;
    SameTopK(hits, docs, f, g, k);
  }

  lemma UnionBuilt(ctx: Context, q: Query, p: Parts, ys: seq<Delivery>, start: Snapshot, s: Scorer, t: Trace, end: Lineup,
                   skipped: nat) returns (sharp: bool)
    requires ctx.Ok() && q.BooleanQuery? && |ys| == |q.clauses| && Gathered(q.clauses, ys, p)
    requires AllTrusty(ctx, p.should) && Cursors(ctx, q, p.should)
    requires start.Keys == (set c | c in p.should) && forall c :: c in p.should ==> start[c] == c.docs
    requires s.kind == Wand
    requires ctx.topK <= 0 ==> s.docs == {} && s.scoreOrder == []
    requires ctx.topK > 0 ==> UnionRan(s, Run(p.should, start, ctx.topK, (d: DocId) => ctx.Eligible(d)), true, t, end, skipped)
    ensures Trusty(ctx, s)
    ensures IsRanking(s.scoreOrder, Pool(ctx, q.clauses, ys), PoolWorth(q.clauses, ys), HitsWanted(ctx), sharp)
    ensures SafeLists(ctx, q) && ctx.Sound() ==> sharp
  {
    hide SoundOn, Context.Eligible, Context.Sound, Context.Ok, Pool, PoolWorth, SpeakFor, Cursors, ListsInStep, IsRanking,
         Context.OneBlockLists, UnionRan, Trusty, AllTrusty;
    if ctx.topK <= 0 {
      sharp := true;
      NothingWanted(ctx, s);
      EmptyRanking(Pool(ctx, q.clauses, ys), PoolWorth(q.clauses, ys));
    } else {
      var r := Run(p.should, start, ctx.topK, (d: DocId) => ctx.Eligible(d));
      sharp := r.Sound() && Clean(t);
      UnionTrusty(ctx, p, r, t, end, s, skipped);
      UnionTargets(ctx, q, p, ys, r);
      UnionRanks(s, r, t, end, skipped);
      SameRanking(s.scoreOrder, r.Targets(), r.TrueScore(), PoolWorth(q.clauses, ys), HitsWanted(ctx), sharp);
      if SafeLists(ctx, q) && ctx.Sound() {
        UnionSafe(ctx, q, p, r, t, end, s, skipped);
      }
    }
  }

  lemma NothingWanted(ctx: Context, s: Scorer)
    requires ctx.Ok() && s.kind == Wand && s.docs == {} && s.scoreOrder == []
    ensures Trusty(ctx, s)
  {
    hide Context.Ok, Context.Eligible;
  }

  lemma EmptyRanking(docs: set<DocId>, score: DocId -> real)
    ensures IsRanking([], docs, score, 0, true)
  {
  }

  lemma UnionRanks(s: Scorer, r: Run, t: Trace, end: Lineup, skipped: nat)
    requires UnionRan(s, r, true, t, end, skipped)
    ensures IsRanking(s.scoreOrder, r.Targets(), r.TrueScore(), r.k, r.Sound() && Clean(t))
  {
    hide IsRanking, Run.Sound, Clean, IsRun, SafeToSkip, SoundOn;
  }

  // The bounds of a union are true if those of its cursors are.
  lemma UnionTrusty(ctx: Context, p: Parts, r: Run, t: Trace, end: Lineup, s: Scorer, skipped: nat)
    requires ctx.Ok() && AllTrusty(ctx, p.should) && s.kind == Wand && ctx.topK > 0
    requires r.cs == p.should && r.k == ctx.topK && r.eligible == ((d: DocId) => ctx.Eligible(d))
    requires UnionRan(s, r, true, t, end, skipped)
    ensures Trusty(ctx, s) && (ctx.Sound() ==> r.Sound())
  {
    hide SoundOn, Context.Eligible, Context.Sound, Context.Ok, IsTopK, NonIncreasing, DistinctDocs, IsRun, Clean, SafeToSkip, ScoreIn;
    forall c | c in r.cs
      ensures ctx.Sound() ==> SoundOn(c.docs, c.view)
    {
      assert Trusty(ctx, c);
    }
  }

  lemma UnionSafe(ctx: Context, q: Query, p: Parts, r: Run, t: Trace, end: Lineup, s: Scorer, skipped: nat)
    requires ctx.Ok() && q.BooleanQuery? && AllTrusty(ctx, p.should) && Cursors(ctx, q, p.should) && SafeLists(ctx, q)
    requires r.cs == p.should && forall c :: c in p.should && c in r.start ==> r.start[c] == c.docs
    requires UnionRan(s, r, true, t, end, skipped)
    ensures Clean(t)
  {
    hide SoundOn, Context.Sound, Context.Ok, Context.OneBlockLists, IsRanking, IsRun, Clean, Cursors, ListsInStep, InStep, Flat, Aloof;
    if ctx.OneBlockLists() {
      forall c | c in r.cs
        ensures Flat(c)
      {
        assert Trusty(ctx, c);
      }
    } else {
      CursorsInStep(ctx, q, r);
    }
    assert SafeToSkip(r, true);
  }

  // ---------------------------------------------------------------- conjunctions

  lemma MeetFlat(must: seq<Scorer>, s: Scorer)
    requires forall c :: c in must ==> Flat(c)
    requires forall d :: d in s.docs ==> AllHave(must, d)
    requires multiset(s.children) == multiset(must)
    requires s.view == MeetView(s.children) && s.maxScore == s.view.max
    ensures Flat(s)
  {
    PermutationMembers(s.children, must);
    forall d | d in s.docs
      ensures SumBy(BlockMaxAt(d), s.children) == s.maxScore
    {
      SumBySame(BlockMaxAt(d), (c: Scorer) => c.maxScore, s.children);
    }
  }

  lemma MaxesAreMax(cs: seq<Scorer>)
    requires Forest(cs)
    ensures forall c :: c in cs ==> c.view.max == c.maxScore
  {
    forall i | 0 <= i < |cs|
      ensures cs[i].view.max == cs[i].maxScore
    {
      assert cs[i].Valid();
    }
  }

  // MUST clauses: one is passed through, several are met.
  method MakeMeet(ctx: Context, p: Parts) returns (s: Scorer)
    requires ctx.Ok() && Ready(p.must) && p.must != [] && AllTrusty(ctx, p.must)
    modifies ReprOf(p.must)
    ensures s.Valid() && fresh(s.Repr - ReprOf(p.must)) && s.rem == s.docs
    ensures forall d :: d in s.docs <==> AllHave(p.must, d)
    ensures forall d :: d in s.docs ==> s.view.weight(d) == SumBy(DocShare(d), p.must)
    ensures Trusty(ctx, s) && (s.kind == Wand ==> s in p.must)
  {
    hide Scorer.Valid, Context.Ok, Trusty, SumBy, DocShare, MeetView, AllTrusty;
    if |p.must| == 1 {
      s := p.must[0];
      assert s in p.must && s.Valid() && s.Repr <= ReprOf(p.must);
      Sole(ctx, p.must, s);
    } else {
      ghost var meet := MeetOf(p.must);
      assert forall d :: d in meet <==> AllHave(p.must, d);
      MaxesAreMax(p.must);
      s := NewConjunction(p.must);
      MaxIsMax(s);
      Met(ctx, p.must, s);
    }
  }

  lemma Sole(ctx: Context, must: seq<Scorer>, s: Scorer)
    requires ctx.Ok() && must == [s] && AllTrusty(ctx, must)
    ensures Trusty(ctx, s)
    ensures forall d :: d in s.docs <==> AllHave(must, d)
    ensures forall d :: d in s.docs ==> s.view.weight(d) == SumBy(DocShare(d), must)
  {
    hide Context.Ok, Trusty;
    assert s in must && must[..0] == [];
    forall d
      ensures SumBy(DocShare(d), must) == DocShare(d)(s)
    {
      assert SumBy(DocShare(d), must[..0]) == 0.0;
    }
  }

  lemma Met(ctx: Context, must: seq<Scorer>, s: Scorer)
    requires ctx.Ok() && must != [] && AllTrusty(ctx, must) && s.kind == Conjunction
    requires forall d :: d in s.docs <==> AllHave(must, d)
    requires multiset(s.children) == multiset(must) && s.view == MeetView(s.children) && s.maxScore == s.view.max
    requires forall c :: c in must ==> c.view.max == c.maxScore
    ensures forall d :: d in s.docs ==> s.view.weight(d) == SumBy(DocShare(d), must)
    ensures Trusty(ctx, s)
  {
    hide Ranked, SoundOn, Context.Sound, Context.Ok, Context.OneBlockLists;
    PermutationMembers(s.children, must);
    forall d | d in s.docs
      ensures SumBy(WeightAt(d), s.children) == SumBy(DocShare(d), must)
    {
      SumByPermutation(WeightAt(d), s.children, must);
      SumBySame(WeightAt(d), DocShare(d), must);
    }
    MetTrusty(ctx, must, s);
  }

  lemma MetTrusty(ctx: Context, must: seq<Scorer>, s: Scorer)
    requires ctx.Ok() && must != [] && AllTrusty(ctx, must) && s.kind == Conjunction
    requires forall d :: d in s.docs <==> AllHave(must, d)
    requires multiset(s.children) == multiset(must) && s.view == MeetView(s.children) && s.maxScore == s.view.max
    requires forall c :: c in must ==> c.view.max == c.maxScore
    ensures Trusty(ctx, s)
  {
    hide Ranked, SoundOn, Flat, Context.Sound, Context.Ok, Context.OneBlockLists, MeetView;
    PermutationMembers(s.children, must);
    forall c | c in must
      ensures ctx.Sound() ==> SoundOn(c.docs, c.view)
      ensures ctx.OneBlockLists() ==> Flat(c)
    {
      assert Trusty(ctx, c);
    }
    if ctx.Sound() {
      MeetSound(s.children, s.docs);
    }
    if ctx.OneBlockLists() {
      MeetFlat(must, s);
    }
  }

  // ---------------------------------------------------------------- trees

  // Compile the clauses one by one and sort them by role. A MUST clause
  // without documents ends it; other exhausted scorers are dropped.
  method Gather(ctx: Context, q: Query) returns (p: Parts, ok: bool, ghost ys: seq<Delivery>)
    requires ctx.Ok() && q.BooleanQuery?
    ensures ClausesDeliver(ctx, q.clauses, ys)
    ensures SafeLists(ctx, q) && ctx.Sound() ==> AllSharp(ys)
    ensures !ok ==> 0 < |ys| && q.clauses[|ys| - 1].occur == MUST && ys[|ys| - 1].docs == {}
    ensures ok ==> |ys| == |q.clauses| && SoFar(ctx, q, ys, p)
    ensures ok ==> Ready(p.All()) && fresh(ReprOf(p.All()))
    decreases q, 0
  {
    hide Scorer.Valid, Ready, Compiled, Context.Ok, SoFar, Parts.With;
    p, ys := Parts([], [], []), [];
    NothingYet(ctx, q);
    for i := 0 to |q.clauses|
      invariant Ready(p.All()) && fresh(ReprOf(p.All()))
      invariant |ys| == i && SoFar(ctx, q, ys, p)
    {
      var occur := q.clauses[i].occur;
      var scorer;
      ghost var y;
      ghost var repr := ReprOf(p.All());
      scorer, y := CreateScorer(ctx, q.clauses[i].query);
      assert ReprOf(p.All()) == repr;
      if scorer != null {
        ExhaustedIff(scorer);
      }
      if scorer == null || scorer.Doc() == INVALID_DOC {
        ExhaustedNext(ctx, q, ys, p, scorer, y);
        ys := ys + [y];
        if occur == MUST {
          return p, false, ys;
        }
      } else {
        ScorerNext(ctx, q, ys, p, scorer, y);
        ReadyWith(p, occur, scorer);
        ys, p := ys + [y], p.With(occur, scorer);
      }
    }
    ok := true;
    AllSoFar(ctx, q, ys, p);
  }

  // What is known of the clauses compiled so far.
  ghost predicate SoFar(ctx: Context, q: Query, ys: seq<Delivery>, p: Parts)
    requires ctx.Ok() && q.BooleanQuery?
  {
    && ClausesDeliver(ctx, q.clauses, ys) && (SafeLists(ctx, q) && ctx.Sound() ==> AllSharp(ys))
    && Gathered(q.clauses, ys, p) && AllTrusty(ctx, p.All()) && Cursors(ctx, q, p.should)
    && (p.must != [] <==> HasOccur(q.clauses, |ys|, MUST))
    && AllNonEmpty(p.All()) && NoneMissing(q.clauses, ys)
  }

  lemma NothingYet(ctx: Context, q: Query)
    requires ctx.Ok() && q.BooleanQuery?
    ensures SoFar(ctx, q, [], Parts([], [], []))
    ensures Ready(Parts([], [], []).All()) && ReprOf(Parts([], [], []).All()) == {}
  {
    hide Context.Ok;
    EmptyGathered(ctx, q);
  }

  lemma AllSoFar(ctx: Context, q: Query, ys: seq<Delivery>, p: Parts)
    requires ctx.Ok() && q.BooleanQuery? && SoFar(ctx, q, ys, p) && |ys| == |q.clauses|
    ensures ClausesDeliver(ctx, q.clauses, ys) && (SafeLists(ctx, q) && ctx.Sound() ==> AllSharp(ys))
    ensures Gathered(q.clauses, ys, p) && AllTrusty(ctx, p.All()) && Cursors(ctx, q, p.should)
    ensures p.must != [] <==> HasOccur(q.clauses, |q.clauses|, MUST)
    ensures AllNonEmpty(p.All()) && NoneMissing(q.clauses, ys)
  {
  }

  lemma ExhaustedNext(ctx: Context, q: Query, ys: seq<Delivery>, p: Parts, s: Scorer?, y: Delivery)
    requires ctx.Ok() && q.BooleanQuery? && |ys| < |q.clauses| && SoFar(ctx, q, ys, p)
    requires Compiled(ctx, q.clauses[|ys|].query, s, y) && DocsOf(s) == {}
    ensures ClausesDeliver(ctx, q.clauses, ys + [y]) && (SafeLists(ctx, q) && ctx.Sound() ==> AllSharp(ys + [y])) && y.docs == {}
    ensures q.clauses[|ys|].occur != MUST ==> SoFar(ctx, q, ys + [y], p)
  {
    hide Context.Ok, Context.Sound, Gathered, AllTrusty, Cursors, HasOccur, AllNonEmpty, NoneMissing, SafeLists,
         Compiled, ClausesDeliver, AllSharp;
    OneDelivers(ctx, q, ys, s, y);
    if q.clauses[|ys|].occur != MUST {
      NothingGathered(q.clauses, ys, p, y);
      NoneKept(q.clauses, ys, y);
    }
  }

  lemma ScorerNext(ctx: Context, q: Query, ys: seq<Delivery>, p: Parts, c: Scorer, y: Delivery)
    requires ctx.Ok() && q.BooleanQuery? && |ys| < |q.clauses| && SoFar(ctx, q, ys, p)
    requires Compiled(ctx, q.clauses[|ys|].query, c, y) && c.docs != {}
    ensures SoFar(ctx, q, ys + [y], p.With(q.clauses[|ys|].occur, c))
  {
    hide Context.Ok, Context.Sound, Gathered, AllTrusty, Cursors, HasOccur, AllNonEmpty, NoneMissing, SafeLists,
         Compiled, ClausesDeliver, AllSharp;
    var occur := q.clauses[|ys|].occur;
    OneDelivers(ctx, q, ys, c, y);
    OneGathered(q.clauses, ys, p, y, c);
    OneKept(q.clauses, ys, p, y, c);
    TrustyWith(ctx, p, occur, c);
    CursorsWith(ctx, q, p.should, |ys|, c, y);
  }

  // Every scorer has a document to deliver, and so has every MUST clause.
  ghost predicate AllNonEmpty(cs: seq<Scorer>) {
    forall c :: c in cs ==> c.docs != {}
  }

  ghost predicate NoneMissing(cls: seq<Clause>, ys: seq<Delivery>)
    requires |ys| <= |cls|
  {
    forall i :: 0 <= i < |ys| && cls[i].occur == MUST ==> ys[i].docs != {}
  }

  // What clause |ys| delivers joins what the clauses before it deliver.
  lemma OneDelivers(ctx: Context, q: Query, ys: seq<Delivery>, s: Scorer?, y: Delivery)
    requires ctx.Ok() && q.BooleanQuery? && |ys| < |q.clauses| && ClausesDeliver(ctx, q.clauses, ys)
    requires Compiled(ctx, q.clauses[|ys|].query, s, y)
    requires SafeLists(ctx, q) && ctx.Sound() ==> AllSharp(ys)
    ensures ClausesDeliver(ctx, q.clauses, ys + [y])
    ensures SafeLists(ctx, q) && ctx.Sound() ==> AllSharp(ys + [y])
    ensures y.docs == DocsOf(s) && y.weight == WeightOf(s) && (s != null ==> Trusty(ctx, s))
  {
    hide Context.Ok, Context.Sound, Delivers, Trusty, Context.OneBlockLists, TermsInStep, IsCursor;
    var zs := ys + [y];
    assert zs[|ys|] == y && forall i :: 0 <= i < |ys| ==> zs[i] == ys[i];
  }

  lemma ExhaustedIff(s: Scorer)
    requires s.Valid() && s.rem == s.docs
    ensures s.Doc() == INVALID_DOC <==> s.docs == {}
  {
  }

  lemma OneKept(cls: seq<Clause>, ys: seq<Delivery>, p: Parts, y: Delivery, c: Scorer)
    requires |ys| < |cls| && AllNonEmpty(p.All()) && NoneMissing(cls, ys) && y.docs == c.docs != {}
    requires p.must != [] <==> HasOccur(cls, |ys|, MUST)
    ensures var p' := p.With(cls[|ys|].occur, c);
            AllNonEmpty(p'.All()) && NoneMissing(cls, ys + [y]) && (p'.must != [] <==> HasOccur(cls, |ys| + 1, MUST))
  {
    var p' := p.With(cls[|ys|].occur, c);
    assert forall e :: e in p'.All() ==> e in p.All() || e == c;
  }

  lemma NoneKept(cls: seq<Clause>, ys: seq<Delivery>, y: Delivery)
    requires |ys| < |cls| && NoneMissing(cls, ys) && cls[|ys|].occur != MUST
    ensures NoneMissing(cls, ys + [y]) && (HasOccur(cls, |ys| + 1, MUST) <==> HasOccur(cls, |ys|, MUST))
  {
  }

  // A query as a scorer tree; null when nothing can match.
  method CreateScorer(ctx: Context, q: Query) returns (s: Scorer?, ghost x: Delivery)
    requires ctx.Ok()
    ensures s != null ==> s.Valid() && fresh(s.Repr) && s.rem == s.docs
    ensures Compiled(ctx, q, s, x)
    ensures q.BooleanQuery? && ctx.topK < 0 ==> (s != null && s.kind != Wand <==> MustDrive(ctx, q))
    decreases q, 1
  {
    hide Scorer.Valid, Compiled, Ready, Gathered, Context.Ok, ReprOf, Delivers, Context.Sound, SafeLists, AllTrusty, Cursors,
         ClausesDeliver, SoFar;
    if q.TermQuery? {
      s, x := OpenTerm(ctx, q.field, q.term);
      return;
    }
    var p, ok;
    ghost var ys;
    p, ok, ys := Gather(ctx, q);
    if !ok {
      x := NoMatch(ctx, q, ys);
      NotDriven(ctx, q, ys);
      return null, x;
    }
    AllSoFar(ctx, q, ys, p);
    s, x := BuildRoot(ctx, q, p, ys);
  }

  // A MUST clause without documents: no tree at all.
  lemma NotDriven(ctx: Context, q: Query, ys: seq<Delivery>)
    requires ctx.Ok() && q.BooleanQuery? && ClausesDeliver(ctx, q.clauses, ys)
    requires 0 < |ys| && q.clauses[|ys| - 1].occur == MUST && ys[|ys| - 1].docs == {}
    ensures ctx.topK < 0 ==> !MustDrive(ctx, q)
  {
    hide Context.Ok, Delivers, Anything;
    if ctx.topK < 0 {
      BareClause(ctx, q, ys, |ys| - 1);
    }
  }

  // Scorers of one role are left exactly when some clause of it delivers
  // something.
  lemma LeftIff(ctx: Context, q: Query, ys: seq<Delivery>, o: Occur, cs: seq<Scorer>)
    requires ctx.Ok() && ctx.topK <= 0 && q.BooleanQuery? && ClausesDeliver(ctx, q.clauses, ys) && |ys| == |q.clauses|
    requires SpeakFor(q.clauses, ys, o, cs) && AllNonEmpty(cs)
    ensures cs != [] <==> SomeAnything(ctx, q, o)
  {
    hide Context.Ok, Delivers, Anything, SumBy, Worth;
    forall i | 0 <= i < |ys|
      ensures ys[i].docs != {} <==> Anything(ctx, q.clauses[i].query)
    {
      BareClause(ctx, q, ys, i);
    }
    if cs != [] {
      assert cs[0] in cs;
      var d :| d in cs[0].docs;
      assert SomeHas(cs, d);
    }
    if i :| 0 <= i < |ys| && q.clauses[i].occur == o && ys[i].docs != {} {
      var d :| d in ys[i].docs;
      assert SomeGives(q.clauses, ys, o, d);
    }
  }

  // The root a negative topK leads to.
  lemma WhatRoot(ctx: Context, q: Query, p: Parts, ys: seq<Delivery>)
    requires ctx.Ok() && ctx.topK < 0 && q.BooleanQuery? && ClausesDeliver(ctx, q.clauses, ys) && |ys| == |q.clauses|
    requires Gathered(q.clauses, ys, p) && (p.must != [] <==> HasOccur(q.clauses, |q.clauses|, MUST))
    requires AllNonEmpty(p.All()) && NoneMissing(q.clauses, ys) && AllTrusty(ctx, p.All())
    ensures MustDrive(ctx, q) <==> p.must != [] || (p.should != [] && p.mustNot != [])
    ensures forall c :: c in p.must ==> c.kind != Wand
  {
    hide Context.Ok, Delivers, Anything, SpeakFor, AllTrusty;
    assert forall c :: c in p.must || c in p.should || c in p.mustNot ==> c in p.All();
    LeftIff(ctx, q, ys, SHOULD, p.should);
    LeftIff(ctx, q, ys, MUST_NOT, p.mustNot);
    forall i | 0 <= i < |ys| && q.clauses[i].occur == MUST
      ensures Anything(ctx, q.clauses[i].query)
    {
      BareClause(ctx, q, ys, i);
    }
    forall c | c in p.must
      ensures c.kind != Wand
    {
      NoHitsWanted(ctx, p.All(), c);
    }
  }

  lemma NoHitsWanted(ctx: Context, cs: seq<Scorer>, c: Scorer)
    requires ctx.Ok() && ctx.topK < 0 && AllTrusty(ctx, cs) && c in cs && c.docs != {}
    ensures c.kind != Wand
  {
    hide Context.Ok, Context.Sound, SoundOn, Flat, Context.Eligible, NonIncreasing, DistinctDocs;
    assert Trusty(ctx, c);
    assert c.kind == Wand ==> Ranked(ctx, c);
  }

  lemma NoMatch(ctx: Context, q: Query, ys: seq<Delivery>) returns (x: Delivery)
    requires ctx.Ok() && q.BooleanQuery? && ClausesDeliver(ctx, q.clauses, ys)
    requires 0 < |ys| && q.clauses[|ys| - 1].occur == MUST && ys[|ys| - 1].docs == {}
    requires SafeLists(ctx, q) && ctx.Sound() ==> AllSharp(ys)
    ensures Compiled(ctx, q, null, x)
  {
    hide Context.Ok, Delivers, SafeLists, Context.Sound;
    x := Delivery({}, (d: DocId) => 0.0, AllSharp(ys));
    NothingMet(ctx, q, ys, x);
    DeliversBy(ctx, q, ys, x);
  }

  // An empty MUST clause leaves nothing, also when it is the last clause.
  lemma NothingMet(ctx: Context, q: Query, ys: seq<Delivery>, x: Delivery)
    requires q.BooleanQuery? && 0 < |ys| <= |q.clauses| && x.docs == {}
    requires q.clauses[|ys| - 1].occur == MUST && ys[|ys| - 1].docs == {}
    ensures Combines(ctx, q.clauses, ys, x)
  {
    hide SomeGives;
    if |ys| == |q.clauses| {
      forall d
        ensures !AllGive(q.clauses, ys, d)
      {
      }
    }
  }

  // Root first, exclusions around it.
  method BuildRoot(ctx: Context, q: Query, p: Parts, ghost ys: seq<Delivery>) returns (s: Scorer?, ghost x: Delivery)
    requires ctx.Ok() && q.BooleanQuery? && ClausesDeliver(ctx, q.clauses, ys) && |ys| == |q.clauses|
    requires Gathered(q.clauses, ys, p) && Ready(p.All()) && AllTrusty(ctx, p.All()) && Cursors(ctx, q, p.should)
    requires SafeLists(ctx, q) && ctx.Sound() ==> AllSharp(ys)
    requires p.must != [] <==> HasOccur(q.clauses, |q.clauses|, MUST)
    requires AllNonEmpty(p.All()) && NoneMissing(q.clauses, ys)
    modifies ReprOf(p.All())
    ensures s != null ==> s.Valid() && fresh(s.Repr - ReprOf(p.All())) && s.rem == s.docs
    ensures Compiled(ctx, q, s, x)
    ensures ctx.topK < 0 ==> (s != null && s.kind != Wand <==> MustDrive(ctx, q))
  {
    hide Scorer.Valid, Compiled, Gathered, Context.Ok, Forest, HasOccur, Trusty, AllTrusty, Cursors, SafeLists, Context.Sound,
         IsRanking, Excluded, AllSharp, ClausesDeliver, Pool, PoolWorth;
    ReadySplit(p.must + p.should, p.mustNot);
    ReadySplit(p.must, p.should);
    Footprint(p.mustNot);
    PartsTrusty(ctx, p);
    ghost var sharp := true;
    if ctx.topK < 0 {
      WhatRoot(ctx, q, p, ys);
    }
    var root: Scorer;
    if p.must == [] && p.should != [] {
      root, sharp := MakeUnion(ctx, q, p, ys);
    } else if p.must != [] {
      root := MakeMeet(ctx, p);
    } else {
      x := NothingToFind(ctx, q, p, ys);
      return null, x;
    }
    s := ExcludeAll(ctx, root, p.mustNot);
    x := Delivery(s.docs, s.view.weight, sharp && AllSharp(ys));
    RootDelivers(ctx, q, p, ys, root, s, x, sharp);
  }

  lemma PartsTrusty(ctx: Context, p: Parts)
    requires ctx.Ok() && AllTrusty(ctx, p.All())
    ensures AllTrusty(ctx, p.must) && AllTrusty(ctx, p.should)
  {
    hide Context.Ok, Trusty;
    assert forall c :: c in p.must || c in p.should ==> c in p.All();
  }

  lemma NothingToFind(ctx: Context, q: Query, p: Parts, ys: seq<Delivery>) returns (x: Delivery)
    requires ctx.Ok() && q.BooleanQuery? && ClausesDeliver(ctx, q.clauses, ys) && |ys| == |q.clauses|
    requires Gathered(q.clauses, ys, p) && p.must == [] == p.should && !HasOccur(q.clauses, |q.clauses|, MUST)
    requires SafeLists(ctx, q) && ctx.Sound() ==> AllSharp(ys)
    ensures Compiled(ctx, q, null, x)
  {
    hide Context.Ok, Delivers, SafeLists, Context.Sound, IsRanking;
    x := Delivery({}, (d: DocId) => 0.0, AllSharp(ys));
    forall d
      ensures !SomeGives(q.clauses, ys, SHOULD, d)
    {
      assert SomeHas(p.should, d) <==> SomeGives(q.clauses, ys, SHOULD, d);
    }
    PoolOfNone(ctx, q.clauses, ys);
    RankingOfNone(PoolWorth(q.clauses, ys), HitsWanted(ctx), x.sharp);
    assert Chooses(ctx, q.clauses, ys, [], x);
    DeliversBy(ctx, q, ys, x);
  }

  lemma PoolOfNone(ctx: Context, cls: seq<Clause>, ys: seq<Delivery>)
    requires |ys| <= |cls| && forall d :: !SomeGives(cls, ys, SHOULD, d)
    ensures Pool(ctx, cls, ys) == {}
  {
    hide SomeGives, Pool;
    PoolGives(ctx, cls, ys);
  }

  lemma PoolGives(ctx: Context, cls: seq<Clause>, ys: seq<Delivery>)
    requires |ys| <= |cls|
    ensures forall d :: d in Pool(ctx, cls, ys) ==> SomeGives(cls, ys, SHOULD, d)
  {
    hide Context.Eligible;
  }

  lemma RankingOfNone(score: DocId -> real, k: nat, exact: bool)
    ensures IsRanking([], {}, score, k, exact)
  {
  }

  lemma RootDelivers(ctx: Context, q: Query, p: Parts, ys: seq<Delivery>, root: Scorer, s: Scorer, x: Delivery, sharp: bool)
    requires ctx.Ok() && q.BooleanQuery? && ClausesDeliver(ctx, q.clauses, ys) && |ys| == |q.clauses|
    requires Gathered(q.clauses, ys, p) && (p.must != [] <==> HasOccur(q.clauses, |q.clauses|, MUST))
    requires x == Delivery(s.docs, s.view.weight, sharp && AllSharp(ys))
    requires SafeLists(ctx, q) && ctx.Sound() ==> AllSharp(ys) && sharp
    requires Excluded(s.docs, root.docs, p.mustNot) && s.view.weight == root.view.weight && Trusty(ctx, s) && Trusty(ctx, root)
    requires p.must == [] ==>
               root.kind == Wand
               && IsRanking(root.scoreOrder, Pool(ctx, q.clauses, ys), PoolWorth(q.clauses, ys), HitsWanted(ctx), sharp)
    requires p.must != [] ==>
               && (forall d :: d in root.docs <==> AllHave(p.must, d))
               && (forall d :: d in root.docs ==> root.view.weight(d) == SumBy(DocShare(d), p.must))
    ensures Compiled(ctx, q, s, x)
  {
    hide Context.Ok, Delivers, SafeLists, Context.Sound, SoundOn, Flat, HasOccur, ClausesDeliver, Pool, PoolWorth;
    assert forall d :: SomeHas(p.mustNot, d) <==> SomeGives(q.clauses, ys, MUST_NOT, d) by {
      assert SpeakFor(q.clauses, ys, MUST_NOT, p.mustNot);
    }
    if p.must == [] {
      UnionChooses(ctx, q, p, ys, root, s, x, sharp);
    } else {
      MustMeets(q, p, ys, root, s, x);
    }
    DeliversBy(ctx, q, ys, x);
  }

  lemma UnionChooses(ctx: Context, q: Query, p: Parts, ys: seq<Delivery>, root: Scorer, s: Scorer, x: Delivery, sharp: bool)
    requires ctx.Ok() && q.BooleanQuery? && |ys| == |q.clauses|
    requires forall d :: SomeHas(p.mustNot, d) <==> SomeGives(q.clauses, ys, MUST_NOT, d)
    requires Excluded(x.docs, root.docs, p.mustNot) && x.weight == root.view.weight && (x.sharp ==> sharp)
    requires root.kind == Wand && Trusty(ctx, root)
    requires IsRanking(root.scoreOrder, Pool(ctx, q.clauses, ys), PoolWorth(q.clauses, ys), HitsWanted(ctx), sharp)
    ensures Chooses(ctx, q.clauses, ys, root.scoreOrder, x)
  {
    hide Context.Ok, SoundOn, Flat, Pool, PoolWorth, SomeHas, SomeGives, Context.Eligible, NonIncreasing, DistinctDocs, IsTopK;
  }

  lemma MustMeets(q: Query, p: Parts, ys: seq<Delivery>, root: Scorer, s: Scorer, x: Delivery)
    requires q.BooleanQuery? && |ys| == |q.clauses| && Gathered(q.clauses, ys, p)
    requires forall d :: SomeHas(p.mustNot, d) <==> SomeGives(q.clauses, ys, MUST_NOT, d)
    requires Excluded(x.docs, root.docs, p.mustNot) && x.weight == root.view.weight
    requires forall d :: d in root.docs <==> AllHave(p.must, d)
    requires forall d :: d in root.docs ==> root.view.weight(d) == SumBy(DocShare(d), p.must)
    ensures Meets(q.clauses, ys, x)
  {
    hide SomeHas, SomeGives, AllHave, AllGive, DocShare;
  }
}
