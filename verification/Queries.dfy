// Boolean queries: what a tree of MUST, SHOULD and MUST_NOT clauses means on a
// segment, independently of how it is evaluated.
module Queries {
  import opened Prelude
  import opened Sorting
  import opened Bits
  import opened Bm25
  import opened MemoryPostings
  import opened DiskPostings
  import opened Postings
  import opened Scorers
  import opened SkipLists

  datatype Option<+T> = None | Some(value: T)

  // ---------------------------------------------------------------- segments

  // A term's posting list: collected out of a memory segment, or compressed
  // in a file with the metadata that finds it there. Stored floats are bit
  // patterns, which f32 turns into numbers.
  datatype TermList =
    | InMemory(docs: seq<DocId>, tfs: seq<nat>, upperBound: real)
    | OnDisk(docs: seq<DocId>, file: seq<byte>, meta: TermMeta, tfBytes: seq<byte>, norms: seq<nat>,
             skips: SkipList, compressed: seq<byte>)
  {
    function UpperBound(f32: nat -> real): real {
      match this
      case InMemory(_, _, ub) => ub
      case OnDisk(_, _, meta, _, _, _, _) => f32(meta.upperBound)
    }

    ghost function List(f32: nat -> real): PostingList {
      match this
      case InMemory(docs, tfs, ub) => MemoryList(docs, tfs, ub)
      case OnDisk(docs, _, meta, tfBytes, norms, _, _) => DiskList(meta, docs, tfBytes, norms, f32)
    }

    // Well-formed: ascending, really in the file, nothing negative.
    ghost predicate Ok(f32: nat -> real) {
      && PostingDocs(docs)
      && UpperBound(f32) >= 0.0
      && (OnDisk? ==> NormsOk(norms, f32) && Written(file, meta, docs, tfBytes, norms, skips, compressed))
    }
  }

  lemma OpenedListOk(l: TermList, f32: nat -> real)
    requires l.Ok(f32)
    ensures l.List(f32).Ok() && l.List(f32).docs == l.docs
  {
    hide Written;
    match l
    case InMemory(docs, tfs, ub) => MemoryOk(docs, tfs, ub);
    case OnDisk(docs, _, meta, tfBytes, norms, _, _) => DiskOk(meta, docs, tfBytes, norms, f32);
  }

  const INT64_MIN: int := -0x8000_0000_0000_0000

  const INT64_MAX: int := 0x7FFF_FFFF_FFFF_FFFF

  datatype NumericFilter = NumericFilter(pubtimeLo: int, pubtimeHi: int, uid: int)
  {
    predicate HasPubtimeRange() {
      pubtimeLo != INT64_MIN || pubtimeHi != INT64_MAX
    }

    predicate HasUidFilter() {
      uid >= 0
    }
  }

  // What a scorer tree asks of a segment and of the search it serves. A disk
  // segment has a bitmap of live documents, with an unused bit 0 in front; in
  // memory every document lives. Fast fields are columns, and 0 beyond them.
  datatype Context = Context(
    lists: map<(string, string), TermList>,
    f32: nat -> real,
    docLen: (string, DocId) -> nat,
    avgDocLen: string -> real,
    liv: Option<seq<bool>>,
    pubtimes: seq<int>,
    uids: seq<int>,
    idfs: map<string, real>,
    filter: Option<NumericFilter>,
    topK: int)
  {
    predicate Alive(d: DocId) {
      match liv
      case None => true
      case Some(bits) => d < |bits| && bits[d]
    }

    function FfPubtime(idx: nat): int {
      if idx < |pubtimes| then pubtimes[idx] else 0
    }

    function FfUid(idx: nat): int {
      if idx < |uids| then uids[idx] else 0
    }

    // Fast fields are indexed from zero, documents from one; the subtraction
    // is on unsigned 32-bit numbers.
    predicate PassesFilter(d: DocId) {
      match filter
      case None => true
      case Some(f) =>
        var idx := (d + 0xFFFF_FFFF) % 0x1_0000_0000;
        && (f.HasPubtimeRange() ==> f.pubtimeLo <= FfPubtime(idx) <= f.pubtimeHi)
        && (f.HasUidFilter() ==> FfUid(idx) == f.uid)
    }

    predicate Eligible(d: DocId) {
      Alive(d) && PassesFilter(d)
    }

    ghost predicate Ok() {
      && (forall k :: k in lists ==> lists[k].Ok(f32))
      && (forall f :: avgDocLen(f) >= 0.0)
      && (forall k :: k in idfs ==> idfs[k] >= 0.0)
    }

    function Idf(field: string, term: string): real {
      var key := field + ":" + term;
      if key in idfs then idfs[key] else 0.0
    }

    function StatsOf(field: string, term: string): TermStats {
      if field != "" && (field, term) in lists then
        TermStats(Idf(field, term), lists[(field, term)].UpperBound(f32) * Idf(field, term), avgDocLen(field),
                  (d: DocId) => docLen(field, d))
      else TermStats(0.0, 0.0, 0.0, (d: DocId) => 0)
    }

    lemma StatsOk(field: string, term: string)
      requires Ok()
      ensures StatsOf(field, term).NonNegative()
    {
      hide TermList.Ok, TermList.UpperBound;
      if field != "" && (field, term) in lists {
        assert lists[(field, term)].Ok(f32);
        UpperBoundOk(field, term);
      }
    }

    lemma UpperBoundOk(field: string, term: string)
      requires Ok() && (field, term) in lists
      ensures lists[(field, term)].UpperBound(f32) * Idf(field, term) >= 0.0
    {
      hide Written, PostingDocs, NormsOk;
      assert lists[(field, term)].Ok(f32);
      ProductOk(lists[(field, term)].UpperBound(f32), Idf(field, term));
    }

    ghost function ViewOf(field: string, term: string): View
      requires Ok() && (field, term) in lists && field != ""
    {
      StatsOk(field, term);
      TermView(StatsOf(field, term), lists[(field, term)].List(f32))
    }

    // Every list has one block bound, its list bound: so it is in memory.
    ghost predicate OneBlockLists() {
      forall k :: k in lists ==> lists[k].InMemory?
    }

    // The stored upper bounds really bound the scores.
    ghost predicate Sound()
      requires Ok()
    {
      forall f, t :: f != "" && (f, t) in lists ==> SoundOn(Tail(lists[(f, t)].docs, 0), ViewOf(f, t))
    }
  }

  // ---------------------------------------------------------------- queries

  datatype Occur = MUST | SHOULD | MUST_NOT

  datatype Query =
    | TermQuery(field: string, term: string)
    | BooleanQuery(clauses: seq<Clause>)

  datatype Clause = Clause(query: Query, occur: Occur)

  // Does one of the first n clauses have this role?
  predicate HasOccur(cls: seq<Clause>, n: nat, o: Occur)
    requires n <= |cls|
  {
    exists i :: 0 <= i < n && cls[i].occur == o
  }

  // d matches a MUST group when it matches every MUST clause, otherwise when
  // it matches some SHOULD clause; in both cases no MUST_NOT clause.
  ghost predicate Matches(ctx: Context, q: Query, d: DocId)
    decreases q, 1
  {
    match q
    case TermQuery(f, t) => f != "" && (f, t) in ctx.lists && d in ctx.lists[(f, t)].docs
    case BooleanQuery(cls) =>
      && (if HasOccur(cls, |cls|, MUST) then AllMust(ctx, q, |cls|, d) else AnyOf(ctx, q, |cls|, SHOULD, d))
      && !AnyOf(ctx, q, |cls|, MUST_NOT, d)
  }

  ghost predicate AllMust(ctx: Context, q: Query, n: nat, d: DocId)
    requires q.BooleanQuery? && n <= |q.clauses|
    decreases q, 0
  {
    forall i :: 0 <= i < n && q.clauses[i].occur == MUST ==> Matches(ctx, q.clauses[i].query, d)
  }

  ghost predicate AnyOf(ctx: Context, q: Query, n: nat, o: Occur, d: DocId)
    requires q.BooleanQuery? && n <= |q.clauses|
    decreases q, 0
  {
    exists i :: 0 <= i < n && q.clauses[i].occur == o && Matches(ctx, q.clauses[i].query, d)
  }

  // A conjunction scores the sum of its MUST clauses, a union the sum of the
  // SHOULD clauses that match; exclusions add nothing.
  ghost function ScoreOf(ctx: Context, q: Query, d: DocId): real
    requires ctx.Ok()
    decreases q, 1
  {
    match q
    case TermQuery(f, t) =>
      if f != "" && (f, t) in ctx.lists then ctx.ViewOf(f, t).weight(d) else 0.0
    case BooleanQuery(cls) =>
      if HasOccur(cls, |cls|, MUST) then SumMust(ctx, q, |cls|, d) else SumShould(ctx, q, |cls|, d)
  }

  ghost function SumMust(ctx: Context, q: Query, n: nat, d: DocId): real
    requires ctx.Ok() && q.BooleanQuery? && n <= |q.clauses|
    decreases q, 0, n
  {
    if n == 0 then 0.0
    else
      var c := q.clauses[n - 1];
      SumMust(ctx, q, n - 1, d) + (if c.occur == MUST then ScoreOf(ctx, c.query, d) else 0.0)
  }

  ghost function SumShould(ctx: Context, q: Query, n: nat, d: DocId): real
    requires ctx.Ok() && q.BooleanQuery? && n <= |q.clauses|
    decreases q, 0, n
  {
    if n == 0 then 0.0
    else
      var c := q.clauses[n - 1];
      SumShould(ctx, q, n - 1, d)
      + (if c.occur == SHOULD && Matches(ctx, c.query, d) then ScoreOf(ctx, c.query, d) else 0.0)
  }

  // How often document i of a list has the term, as a search reads it.
  function StoredTf(l: TermList, i: nat): nat {
    match l
    case InMemory(_, tfs, _) => if i < |tfs| then tfs[i] else 1
    case OnDisk(_, _, meta, tfBytes, _, _, _) => if meta.tfDataOffset != 0 && i < |tfBytes| then tfBytes[i] else 1
  }

  // The score of a document for a term: the inverse document frequency of the
  // term in this field times 2.2 tf / (tf + 0.3 + 0.9 len / average), with
  // len / average taken for 1 where there is no average.
  lemma TermScoreIs(ctx: Context, f: string, t: string, i: nat)
    requires ctx.Ok() && f != "" && (f, t) in ctx.lists && i < |ctx.lists[(f, t)].docs|
    ensures var l, key := ctx.lists[(f, t)], f + ":" + t;
            var d, tf := l.docs[i], StoredTf(l, i) as real;
            var idf := if key in ctx.idfs then ctx.idfs[key] else 0.0;
            var share := if ctx.avgDocLen(f) > 0.0 then 0.9 * (ctx.docLen(f, d) as real / ctx.avgDocLen(f)) else 0.9;
            ScoreOf(ctx, TermQuery(f, t), d) * (tf + 0.3 + share) == idf * (2.2 * tf)
  {
    hide TermStats.Score, TermStats.NonNegative, TermList.Ok, TermList.List, StoredTf, Context.StatsOf, Context.Idf;
    var l := ctx.lists[(f, t)];
    StatsAre(ctx, f, t, l.docs[i]);
    ctx.StatsOk(f, t);
    assert l.Ok(ctx.f32);
    ListTf(l, ctx.f32, i);
    ScoreIs(ctx.StatsOf(f, t), StoredTf(l, i), l.docs[i]);
  }

  // What a search knows of a term; its list bound is the stored one times the
  // inverse document frequency.
  lemma StatsAre(ctx: Context, f: string, t: string, d: DocId)
    requires f != "" && (f, t) in ctx.lists
    ensures var s, key := ctx.StatsOf(f, t), f + ":" + t;
            && s.idf == (if key in ctx.idfs then ctx.idfs[key] else 0.0)
            && s.avgdl == ctx.avgDocLen(f) && s.docLen(d) == ctx.docLen(f, d)
            && s.listUb == ctx.lists[(f, t)].UpperBound(ctx.f32) * s.idf
  {
    hide TermList.UpperBound;
  }

  lemma ListTf(l: TermList, f32: nat -> real, i: nat)
    requires l.Ok(f32) && i < |l.docs|
    ensures l.List(f32).tf(l.docs[i]) == StoredTf(l, i)
  {
    hide Written, NormsOk;
    match l
    case InMemory(docs, tfs, ub) => TfBelongs(docs, tfs, i);
    case OnDisk(docs, _, meta, tfBytes, norms, _, _) => IndexBack(docs, i);
  }

  // ---------------------------------------------------------------- the answer

  ghost function AllDocs(ctx: Context): set<DocId> {
    set k, d | k in ctx.lists && d in ctx.lists[k].docs :: d
  }

  lemma {:induction false} MatchesAreDocs(ctx: Context, q: Query, d: DocId)
    requires Matches(ctx, q, d)
    ensures d in AllDocs(ctx)
    decreases q
  {
    match q
    case TermQuery(f, t) =>
      assert (f, t) in ctx.lists;
    case BooleanQuery(cls) =>
      if HasOccur(cls, |cls|, MUST) {
        var i :| 0 <= i < |cls| && cls[i].occur == MUST;
        MatchesAreDocs(ctx, cls[i].query, d);
      } else {
        var i :| 0 <= i < |cls| && cls[i].occur == SHOULD && Matches(ctx, cls[i].query, d);
        MatchesAreDocs(ctx, cls[i].query, d);
      }
  }

  // The live, filter-passing documents the query means.
  ghost function Answer(ctx: Context, q: Query): set<DocId> {
    set d | d in AllDocs(ctx) && ctx.Eligible(d) && Matches(ctx, q, d)
  }

  // The entry a column has for document d, counted from 1.
  function Entry(column: seq<int>, d: DocId): int {
    if 1 <= d <= |column| then column[d - 1] else 0
  }

  // What it takes a document to be found, in terms of its own bit and its own
  // entries: it lives, it was published between the bounds if either is set,
  // and it has the wanted owner if one is.
  ghost predicate Admitted(ctx: Context, d: DocId) {
    && (ctx.liv.Some? ==> d < |ctx.liv.value| && ctx.liv.value[d])
    && (ctx.filter.Some? ==>
          var f := ctx.filter.value;
          && ((f.pubtimeLo == -9223372036854775808 && f.pubtimeHi == 9223372036854775807)
              || f.pubtimeLo <= Entry(ctx.pubtimes, d) <= f.pubtimeHi)
          && (f.uid < 0 || Entry(ctx.uids, d) == f.uid))
  }

  lemma EligibleIff(ctx: Context, d: DocId)
    requires 1 <= d < INVALID_DOC
    ensures ctx.Eligible(d) <==> Admitted(ctx, d)
  {
  }

  lemma ListInRange(ctx: Context, f: string, t: string, d: DocId)
    requires ctx.Ok() && (f, t) in ctx.lists && d in ctx.lists[(f, t)].docs
    ensures d < INVALID_DOC
  {
    hide TermList.UpperBound, Written, NormsOk;
    assert ctx.lists[(f, t)].Ok(ctx.f32);
  }

  // The answer is the matching documents that are admitted.
  lemma AnswerIff(ctx: Context, q: Query, d: DocId)
    requires 1 <= d < INVALID_DOC
    ensures d in Answer(ctx, q) <==> Matches(ctx, q, d) && Admitted(ctx, d)
  {
    hide Context.Eligible, Matches;
    EligibleIff(ctx, d);
    if Matches(ctx, q, d) {
      MatchesAreDocs(ctx, q, d);
    }
  }

  // The documents a group of SHOULD clauses can contribute.
  ghost function Choice(ctx: Context, q: Query): set<DocId>
    requires q.BooleanQuery?
  {
    set d | d in AllDocs(ctx) && ctx.Eligible(d) && AnyOf(ctx, q, |q.clauses|, SHOULD, d)
  }

  // No union inside the tree has more eligible documents than the search
  // keeps; SHOULD clauses beside a MUST play no part.
  ghost predicate Fits(ctx: Context, q: Query)
    decreases q
  {
    match q
    case TermQuery(_, _) => true
    case BooleanQuery(cls) =>
      && (forall i :: 0 <= i < |cls| && (cls[i].occur == SHOULD ==> !HasOccur(cls, |cls|, MUST)) ==> Fits(ctx, cls[i].query))
      && (!HasOccur(cls, |cls|, MUST) ==> |Choice(ctx, q)| <= ctx.topK)
  }

  // A tree of MUST and MUST_NOT clauses only.
  ghost predicate NoShould(q: Query)
    decreases q
  {
    match q
    case TermQuery(_, _) => true
    case BooleanQuery(cls) => forall i :: 0 <= i < |cls| ==> cls[i].occur != SHOULD && NoShould(cls[i].query)
  }

  lemma {:induction false} NoShouldFits(ctx: Context, q: Query)
    requires NoShould(q) && ctx.topK >= 0
    ensures Fits(ctx, q)
    decreases q
  {
    match q
    case TermQuery(_, _) =>
    case BooleanQuery(cls) =>
      forall i | 0 <= i < |cls|
        ensures Fits(ctx, cls[i].query)
      {
        NoShouldFits(ctx, cls[i].query);
      }
      assert Choice(ctx, q) == {};
  }

  // A scorer stands for a query: same eligible documents, same scores.
  ghost predicate Represents(ctx: Context, q: Query, docs: set<DocId>, weight: DocId -> real)
    requires ctx.Ok()
  {
    forall d :: ctx.Eligible(d) ==>
      (d in docs <==> Matches(ctx, q, d)) && (d in docs ==> weight(d) == ScoreOf(ctx, q, d))
  }
}
