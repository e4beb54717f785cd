// Reading a term out of a memory segment and flushing it to disk: the same
// postings, under bounds that are true of their scores.
module Flush {
  import opened Prelude
  import opened Sorting
  import opened Bm25
  import opened Bits
  import opened MemoryPages
  import opened MemoryPostings
  import opened MemorySegments
  import opened DiskPostings
  import opened PosFiles
  import opened SkipLists
  import opened Postings
  import opened Scorers
  import opened Queries
  import opened Bounds
  import P = PForDelta
  import T = TermHashTables

  // ---------------------------------------------------------------- lengths

  // How many tokens document d has in the field.
  ghost function LenIn(docs: seq<MemorySegments.Document>, field: string): DocId -> nat {
    (d: DocId) => if 1 <= d <= |docs| then FieldLen(docs[d - 1].indexed, field) else 0
  }

  function Average(total: nat, count: nat): (avg: real)
    ensures avg >= 0.0 && (count == 0 ==> avg == 1.0) && avg * count as real == if count == 0 then 0.0 else total as real
  {
    if count == 0 then 1.0 else assert total as real / count as real >= 0.0; total as real / count as real
  }

  // The key of a posting occurs in the field its name stands for, and that
  // field has at least as many tokens as the posting has positions.
  lemma {:induction false} PostedHasLength(docs: seq<MemorySegments.Document>, fields: seq<FieldTokens>, field: string, term: string, p: Posting)
    requires Alone(docs, field) && p in Partial(docs, fields, Key(field, term))
    requires forall f :: f in fields ==> TokensFit(f.tokens) && (f.name == field || !Clash(f.name, field))
    ensures if p.doc <= |docs| then 1 <= p.doc && |p.positions| <= LenIn(docs, field)(p.doc)
            else p.doc == |docs| + 1 && |p.positions| <= FieldLen(fields, field)
    decreases |docs|, |fields|
  {
    hide Clash, PositionsIn;
    if fields != [] {
      var front, last := fields[..|fields| - 1], fields[|fields| - 1];
      PositionsFit(last.name, last.tokens, Key(field, term));
      PartialFacts(docs, front, Key(field, term));
      if last.name != field {
        NotClashing(last.name, field);
        ForeignField(field, last.name, last.tokens, term);
      }
      if p in Partial(docs, front, Key(field, term)) {
        PostedHasLength(docs, front, field, term, p);
      }
    } else if docs != [] {
      var front, last := docs[..|docs| - 1], docs[|docs| - 1];
      assert docs == front + [last];
      PostedHasLength(front, last.indexed, field, term, p);
    }
  }

  lemma {:induction false} PartOfSum(ps: seq<Posting>, p: Posting)
    requires p in ps
    ensures |p.positions| <= TfSum(ps)
  {
    if p != ps[0] {
      PartOfSum(ps[1..], p);
    }
  }

  // What the lists of a key say about its documents.
  lemma ListFacts(docs: seq<MemorySegments.Document>, key: string, docIds: seq<DocId>, tfs: seq<nat>)
    requires SortedInto(docIds, tfs, PostingsOf(docs, key))
    ensures forall d :: d in docIds ==> 1 <= d <= |docs|
    ensures forall i :: 0 <= i < |tfs| ==> 1 <= tfs[i] <= TfSum(PostingsOf(docs, key))
  {
    hide PostingsOf, TfSum;
    var ps := PostingsOf(docs, key);
    PartialFacts(docs, [], key);
    forall i | 0 <= i < |docIds|
      ensures 1 <= docIds[i] <= |docs| && 1 <= tfs[i] <= TfSum(ps)
    {
      assert HasPosting(ps, docIds[i], tfs[i]);
      var p :| p in ps && p.doc == docIds[i] && |p.positions| == tfs[i];
      assert p in Partial(docs, [], key) by { IsPartial(docs, key); }
      PartOfSum(ps, p);
    }
  }

  lemma IsPartial(docs: seq<MemorySegments.Document>, key: string)
    ensures PostingsOf(docs, key) == Partial(docs, [], key)
  {
  }

  // Every document of a term's list has a token in its field.
  lemma ListLengths(docs: seq<MemorySegments.Document>, field: string, term: string, docIds: seq<DocId>, tfs: seq<nat>)
    requires Alone(docs, field) && SortedInto(docIds, tfs, PostingsOf(docs, Key(field, term)))
    ensures forall d :: d in docIds ==> LenIn(docs, field)(d) >= 1
  {
    hide PostingsOf, Alone, LenIn;
    var ps := PostingsOf(docs, Key(field, term));
    IsPartial(docs, Key(field, term));
    PartialFacts(docs, [], Key(field, term));
    forall i | 0 <= i < |docIds|
      ensures LenIn(docs, field)(docIds[i]) >= 1
    {
      assert HasPosting(ps, docIds[i], tfs[i]);
      var p :| p in ps && p.doc == docIds[i] && |p.positions| == tfs[i];
      PostedHasLength(docs, [], field, term, p);
    }
  }

  // ---------------------------------------------------------------- the reader

  datatype MemoryMeta = MemoryMeta(docFreq: nat, totalTermFreq: nat, upperBound: real)

  // The term metadata a reader makes up from the hash table's counters.
  method GetTermMeta(seg: MemorySegment, field: string, term: string) returns (meta: Option<MemoryMeta>)
    requires seg.Valid()
    ensures var ps := PostingsOf(seg.docs, Key(field, term));
            meta == if ps == [] then None
                    else Some(MemoryMeta(|ps|, TfSum(ps), MemoryBound(TfSum(ps), Average(FieldTotal(seg.docs, field), |seg.docs|))))
  {
    hide AllStored, Chain, TfSum, Partial, MemoryBound;
    var key := Key(field, term);
    assert Wanted(seg.docs, [])(key) == PostingsOf(seg.docs, key);
    assert HoldsPostings(seg.arena.Mem(), seg.table.contents, key, PostingsOf(seg.docs, key));
    var r := seg.table.Lookup(key);
    if !r.Found? { return None; }
    assert Get(seg.fieldTotalTokens, field) == FieldTotal(seg.docs, field) + FieldLen([], field);
    var avgdl := Average(Get(seg.fieldTotalTokens, field), seg.docCount);
    meta := Some(MemoryMeta(r.entry.docFreq, r.entry.totalTf, MemoryBound(r.entry.totalTf, avgdl)));
  }

  // A context that searches a memory segment through its reader.
  ghost predicate ReadsMemory(ctx: Context, docs: seq<MemorySegments.Document>) {
    forall f, t :: (f, t) in ctx.lists ==> MemoryTerm(ctx, docs, f, t)
  }

  ghost predicate MemoryTerm(ctx: Context, docs: seq<MemorySegments.Document>, f: string, t: string)
    requires (f, t) in ctx.lists
  {
    var l, ps := ctx.lists[(f, t)], PostingsOf(docs, Key(f, t));
    && l.InMemory? && Alone(docs, f) && SortedInto(l.docs, l.tfs, ps)
    && ctx.avgDocLen(f) == Average(FieldTotal(docs, f), |docs|)
    && l.upperBound == MemoryBound(TfSum(ps), ctx.avgDocLen(f))
    && forall d :: ctx.docLen(f, d) == LenIn(docs, f)(d)
  }

  // In a memory segment every list bound is true, so that pruning by it
  // loses nothing.
  lemma MemoryContextSound(ctx: Context, docs: seq<MemorySegments.Document>)
    requires ctx.Ok() && ReadsMemory(ctx, docs)
    ensures ctx.Sound() && ctx.OneBlockLists()
  {
    hide Context.Ok, SoundOn, MemoryTerm, Context.ViewOf;
    forall f, t | f != "" && (f, t) in ctx.lists
      ensures SoundOn(Tail(ctx.lists[(f, t)].docs, 0), ctx.ViewOf(f, t))
    {
      MemoryTermSound(ctx, docs, f, t);
    }
    forall k | k in ctx.lists
      ensures ctx.lists[k].InMemory?
    {
      var (f, t) := k;
      assert (f, t) in ctx.lists && MemoryTerm(ctx, docs, f, t);
      IsInMemory(ctx, docs, f, t);
    }
  }

  lemma IsInMemory(ctx: Context, docs: seq<MemorySegments.Document>, f: string, t: string)
    requires (f, t) in ctx.lists && MemoryTerm(ctx, docs, f, t)
    ensures ctx.lists[(f, t)].InMemory?
  {
  }

  lemma ListOk(ctx: Context, f: string, t: string)
    requires ctx.Ok() && (f, t) in ctx.lists
    ensures PostingDocs(ctx.lists[(f, t)].docs)
  {
    hide TermList.UpperBound, Written, NormsOk;
    assert ctx.lists[(f, t)].Ok(ctx.f32);
  }

  lemma ListLength(docIds: seq<DocId>, tfs: seq<nat>, ps: seq<Posting>)
    requires SortedInto(docIds, tfs, ps)
    ensures |docIds| == |tfs|
  {
  }

  lemma MemoryTermSound(ctx: Context, docs: seq<MemorySegments.Document>, f: string, t: string)
    requires ctx.Ok() && f != "" && (f, t) in ctx.lists && MemoryTerm(ctx, docs, f, t)
    ensures SoundOn(Tail(ctx.lists[(f, t)].docs, 0), ctx.ViewOf(f, t))
  {
    hide Context.Ok, Alone, SoundOn, SortedInto, MemoryBound, PostingsOf, TfSum, MemoryList, TermView, LenIn, Average, TermStats.NonNegative;
    var l, s := ctx.lists[(f, t)], ctx.StatsOf(f, t);
    ctx.StatsOk(f, t);
    ListFacts(docs, Key(f, t), l.docs, l.tfs);
    ListLengths(docs, f, t, l.docs, l.tfs);
    ListLength(l.docs, l.tfs, PostingsOf(docs, Key(f, t)));
    ListOk(ctx, f, t);
    MemorySound(l.docs, l.tfs, TfSum(PostingsOf(docs, Key(f, t))), l.upperBound, s);
  }

  // ---------------------------------------------------------------- a field's dictionary

  // Where the first separator of a key is, or its length.
  function Separator(key: string): (i: nat)
    ensures i <= |key| && (i < |key| ==> key[i] == ':') && ':' !in key[..i]
  {
    if key == "" || key[0] == ':' then 0
    else
      assert key == [key[0]] + key[1..];
      1 + Separator(key[1..])
  }

  // A flush takes a key apart at its first separator. It finds the field
  // again exactly when there is none in the field's name.
  lemma SplitsBackIff(field: string, term: string)
    ensures Separator(Key(field, term)) == |field| <==> ':' !in field
  {
    var key := Key(field, term);
    assert key[..|field|] == field && key[|field|] == ':';
  }

  // A flush takes the key for one of this field.
  predicate SeemsOf(key: string, field: string) {
    Separator(key) < |key| && key[..Separator(key)] == field
  }

  lemma SeemsKey(key: string, field: string)
    ensures SeemsOf(key, field) <==> ':' !in field && exists term :: key == Key(field, term)
  {
    if SeemsOf(key, field) {
      assert key == Key(field, key[|field| + 1..]);
    }
    if ':' !in field {
      forall term | key == Key(field, term)
        ensures SeemsOf(key, field)
      {
        SplitsBackIff(field, term);
        assert key[..|field|] == field;
      }
    }
  }

  ghost predicate KeyInField(f: FieldTokens, key: string) {
    exists t :: t in f.tokens && Key(f.name, t.term) == key
  }

  ghost predicate KeyInFields(fields: seq<FieldTokens>, key: string) {
    exists f :: f in fields && KeyInField(f, key)
  }

  ghost predicate KeyInDocs(docs: seq<MemorySegments.Document>, key: string) {
    exists d :: d in docs && KeyInFields(d.indexed, key)
  }

  lemma {:induction false} InFieldIff(name: string, tokens: seq<Token>, key: string)
    ensures KeyInField(FieldTokens(name, tokens), key) <==> PositionsIn(name, tokens, key) != []
  {
    if tokens != [] {
      var front, last := tokens[..|tokens| - 1], tokens[|tokens| - 1];
      assert tokens == front + [last];
      InFieldIff(name, front, key);
      assert KeyInField(FieldTokens(name, tokens), key) <==> KeyInField(FieldTokens(name, front), key) || Key(name, last.term) == key;
    }
  }

  // A key has a posting exactly when it occurs in some document.
  lemma {:induction false} OccursIff(docs: seq<MemorySegments.Document>, fields: seq<FieldTokens>, key: string)
    ensures Partial(docs, fields, key) != [] <==> KeyInDocs(docs, key) || KeyInFields(fields, key)
    decreases |docs|, |fields|
  {
    hide KeyInField, PositionsIn;
    if fields != [] {
      var front, last := fields[..|fields| - 1], fields[|fields| - 1];
      assert fields == front + [last];
      OccursIff(docs, front, key);
      InFieldIff(last.name, last.tokens, key);
    } else if docs != [] {
      var front, last := docs[..|docs| - 1], docs[|docs| - 1];
      assert docs == front + [last];
      OccursIff(front, last.indexed, key);
    }
  }

  // The keys a flush puts in the field's dictionary.
  ghost function DictKeys(docs: seq<MemorySegments.Document>, field: string): set<string> {
    set d, f, t | d in docs && f in d.indexed && t in f.tokens && SeemsOf(Key(f.name, t.term), field) :: Key(f.name, t.term)
  }

  // They are the keys in the hash table that seem to be of the field.
  lemma DictKeysIff(docs: seq<MemorySegments.Document>, field: string, key: string)
    ensures key in DictKeys(docs, field) <==> SeemsOf(key, field) && PostingsOf(docs, key) != []
  {
    hide SeemsOf;
    OccursIff(docs, [], key);
    if SeemsOf(key, field) && KeyInDocs(docs, key) {
      var d :| d in docs && KeyInFields(d.indexed, key);
      var f :| f in d.indexed && KeyInField(f, key);
      var t :| t in f.tokens && Key(f.name, t.term) == key;
    }
    if key in DictKeys(docs, field) {
      var d, f, t :| d in docs && f in d.indexed && t in f.tokens && Key(f.name, t.term) == key;
      assert KeyInField(f, key) && KeyInFields(d.indexed, key);
    }
  }

  // All frequencies in the dictionary together.
  ghost function DictTotal(docs: seq<MemorySegments.Document>, field: string): nat {
    SumOver(DictKeys(docs, field), TtfIn(docs, []))
  }

  // They make up the field's tokens.
  lemma DictTotalIs(docs: seq<MemorySegments.Document>, field: string)
    requires Alone(docs, field) && ':' !in field
    ensures DictTotal(docs, field) == FieldTotal(docs, field)
  {
    hide SeemsOf;
    var keys := DictKeys(docs, field);
    forall k | k in keys
      ensures exists t :: k == Key(field, t)
    {
      SeemsKey(k, field);
    }
    forall d, f, t | d in docs && f in d.indexed && f.name == field && t in f.tokens
      ensures Key(field, t.term) in keys
    {
      SeemsKey(Key(field, t.term), field);
    }
    TotalsByKey(keys, field, docs, []);
  }

  // The average length an opened segment works out from the dictionary.
  ghost function DictAverage(docs: seq<MemorySegments.Document>, field: string): real {
    if |docs| > 0 then DictTotal(docs, field) as real / |docs| as real else 0.0
  }

  lemma DictAverageIs(docs: seq<MemorySegments.Document>, field: string)
    requires Alone(docs, field) && ':' !in field && docs != []
    ensures DictAverage(docs, field) == Average(FieldTotal(docs, field), |docs|)
  {
    hide Alone;
    DictTotalIs(docs, field);
  }

  // ---------------------------------------------------------------- flushToDisk

  // The stored bit patterns of the block maxima.
  ghost predicate Stores(norms: seq<nat>, blockMaxes: seq<real>, toBits: real -> nat) {
    |norms| == |blockMaxes| && forall k :: 0 <= k < |norms| ==> norms[k] == toBits(blockMaxes[k])
  }

  // A float takes 32 bits.
  ghost predicate Narrow(toBits: real -> nat) {
    forall x :: toBits(x) <= MAX_U32
  }

  lemma NarrowAt(toBits: real -> nat, x: real)
    requires Narrow(toBits)
    ensures toBits(x) <= MAX_U32
  {
  }

  method StoreFloats(xs: seq<real>, toBits: real -> nat) returns (bits: seq<nat>)
    requires Narrow(toBits)
    ensures Stores(bits, xs, toBits) && P.U32s(bits)
  {
    bits := [];
    for i := 0 to |xs|
      invariant |bits| == i && forall j :: 0 <= j < i ==> bits[j] == toBits(xs[j]) <= MAX_U32
    {
      NarrowAt(toBits, xs[i]);
      bits := bits + [toBits(xs[i])];
    }
  }

  // Only the factors of the list's own documents matter.
  lemma MaximaSame(docs: seq<DocId>, tfs: seq<nat>, factor: DocId -> real, factor': DocId -> real, blockMaxes: seq<real>, globalMax: real)
    requires Maxima(docs, tfs, factor, blockMaxes, globalMax) && forall d :: d in docs ==> factor'(d) == factor(d)
    ensures Maxima(docs, tfs, factor', blockMaxes, globalMax)
  {
    hide TfNorm;
    forall lo: nat, hi: nat, m | lo <= hi <= |docs| && IsMax(m, docs, tfs, factor, lo, hi)
      ensures IsMax(m, docs, tfs, factor', lo, hi)
    {
      assert forall i :: lo <= i < hi ==> docs[i] in docs && NormAt(docs, tfs, factor', i) == NormAt(docs, tfs, factor, i);
    }
  }

  // The length table of a segment, as a factor, is the lengths of its documents.
  lemma TableFactor(lens: map<(nat, string), nat>, totals: map<string, nat>, docs: seq<MemorySegments.Document>, field: string, avgdl: real)
    requires LensOk(lens, totals, docs, [])
    ensures forall d :: 1 <= d <= |docs| ==> FlushFactor(LenIn(docs, field), avgdl)(d) == LenFactor(Get(lens, (d, field)), avgdl)
    ensures Get(totals, field) == FieldTotal(docs, field)
  {
    hide LenFactor;
    assert FieldLen([], field) == 0;
    assert Get(totals, field) == FieldTotal(docs, field) + FieldLen([], field);
    forall d | 1 <= d <= |docs|
      ensures LenIn(docs, field)(d) == Get(lens, (d, field))
    {
      TableLength(lens, totals, docs, field, d);
    }
  }

  lemma TableLength(lens: map<(nat, string), nat>, totals: map<string, nat>, docs: seq<MemorySegments.Document>, field: string, d: nat)
    requires LensOk(lens, totals, docs, []) && 1 <= d <= |docs|
    ensures LenIn(docs, field)(d) == Get(lens, (d, field))
  {
  }

  lemma LenFactorPositive(lens: map<(nat, string), nat>, field: string, avgdl: real, docIds: seq<DocId>)
    requires avgdl >= 0.0
    ensures Positive(docIds, (d: DocId) => LenFactor(Get(lens, (d, field)), avgdl))
  {
  }

  // Append one key of the segment to a .doc file and a .pos file, under the
  // field it seems to be of, with the block and list maxima taken over true
  // frequencies and that field's lengths. A key without a separator is left
  // out.
  method FlushTerm(seg: MemorySegment, file: seq<byte>, posFile: seq<byte>, key: string, toBits: real -> nat)
    returns (found: bool, field: string, term: string, file': seq<byte>, meta: TermMeta, docIds: seq<DocId>, tfs: seq<nat>, norms: seq<nat>,
             posFile': seq<byte>, posOffset: nat, entries: seq<Posting>,
             ghost blockMaxes: seq<real>, ghost globalMax: real, ghost sl: SkipList, ghost compressed: seq<byte>)
    requires seg.Valid() && AllSeparable(seg.docs) && Narrow(toBits)
    ensures |file| <= |file'| && file'[..|file|] == file
    ensures |posFile| <= |posFile'| && posFile'[..|posFile|] == posFile
    ensures !found ==> (PostingsOf(seg.docs, key) == [] || ':' !in key) && file' == file && posFile' == posFile
    ensures found ==>
              && multiset(entries) == multiset(PostingsOf(seg.docs, key)) && Columns(entries, docIds, tfs)
              && WordsAt(posFile', posOffset, ListWords(entries))
    ensures found ==> key == Key(field, term) && ':' !in field && PostingsOf(seg.docs, key) != []
    ensures found ==>
              && Ascending(docIds) && SortedInto(docIds, tfs, PostingsOf(seg.docs, key))
              && Written(file', meta, docIds, TfBytes(tfs), norms, sl, compressed) && meta.tfDataOffset > 0
              && Maxima(docIds, tfs, FlushFactor(LenIn(seg.docs, field), Average(FieldTotal(seg.docs, field), |seg.docs|)),
                        blockMaxes, globalMax)
              && Stores(norms, blockMaxes, toBits) && meta.upperBound == toBits(globalMax)
  {
    hide T.TermHashTable.Valid, AllKept, AllStored, Written, TfBytes, PostingsOf, Maxima, FlushFactor, AllSeparable, LenFactor;
    hide LensOk, Positive, LenIn, Get, ListWords, WordsAt, Columns, EntryFits;
    posFile', posOffset, entries := posFile, 0, [];
    found, field, term, file', meta, norms := false, "", "", file, TermMeta(0, 0, 0, 0, 0), [];
    blockMaxes, globalMax, sl, compressed := [], 0.0, SkipList([], []), [];
    docIds, tfs := [], [];
    var colon := Separator(key);
    if colon == |key| {
      assert key[..colon] == key;
      return;
    }
    found, docIds, tfs, entries := seg.KeyList(key);
    if !found { return; }
    field, term := key[..colon], key[colon + 1..];
    assert key == key[..colon] + [key[colon]] + key[colon + 1..];
    ListFacts(seg.docs, key, docIds, tfs);
    var lens := seg.docFieldLen;
    var avgdl := Average(Get(seg.fieldTotalTokens, field), seg.docCount);
    TableFactor(lens, seg.fieldTotalTokens, seg.docs, field, avgdl);
    LenFactorPositive(lens, field, avgdl, docIds);
    var factor := (d: DocId) => LenFactor(Get(lens, (d, field)), avgdl);
    var listMax, maxes := CalcTfNorms(docIds, tfs, factor);
    MaximaSame(docIds, tfs, factor, FlushFactor(LenIn(seg.docs, field), avgdl), maxes, listMax);
    norms := StoreFloats(maxes, toBits);
    file', meta, sl, compressed := WriteTerm(file, docIds, tfs, norms, toBits(listMax));
    posFile', posOffset := WritePositionList(posFile, entries);
    blockMaxes, globalMax := maxes, listMax;
  }

  // A context that searches a segment flushed from these documents: its
  // lists are what FlushTerm wrote, read with floats that lost nothing.
  ghost predicate ReadsFlushed(ctx: Context, docs: seq<MemorySegments.Document>) {
    forall f, t :: (f, t) in ctx.lists ==> exists tfs, maxes, listMax :: FlushedTerm(ctx, docs, f, t, tfs, maxes, listMax)
  }

  ghost predicate FlushedTerm(ctx: Context, docs: seq<MemorySegments.Document>, f: string, t: string,
                              tfs: seq<nat>, maxes: seq<real>, listMax: real)
    requires (f, t) in ctx.lists
  {
    var l := ctx.lists[(f, t)];
    && l.OnDisk? && Alone(docs, f) && ':' !in f && l.meta.tfDataOffset > 0
    && PostingsOf(docs, Key(f, t)) != [] && SortedInto(l.docs, tfs, PostingsOf(docs, Key(f, t))) && l.tfBytes == TfBytes(tfs)
    && ctx.avgDocLen(f) == DictAverage(docs, f)
    && (forall d :: ctx.docLen(f, d) == StoredLen(LenIn(docs, f)(d)))
    && Maxima(l.docs, tfs, FlushFactor(LenIn(docs, f), Average(FieldTotal(docs, f), |docs|)), maxes, listMax)
    && Encodes(l.norms, maxes, ctx.f32) && ctx.f32(l.meta.upperBound) == listMax
  }

  // What FlushTerm writes of a term is what such a context reads, when the
  // floats of this list lose nothing.
  lemma FlushIsRead(ctx: Context, docs: seq<MemorySegments.Document>, f: string, t: string, toBits: real -> nat,
                    file: seq<byte>, meta: TermMeta, docIds: seq<DocId>, tfs: seq<nat>, norms: seq<nat>,
                    maxes: seq<real>, listMax: real, sl: SkipList, compressed: seq<byte>)
    requires (f, t) in ctx.lists && ctx.lists[(f, t)] == OnDisk(docIds, file, meta, TfBytes(tfs), norms, sl, compressed)
    requires Alone(docs, f) && ':' !in f && meta.tfDataOffset > 0
    requires PostingsOf(docs, Key(f, t)) != [] && SortedInto(docIds, tfs, PostingsOf(docs, Key(f, t)))
    requires Maxima(docIds, tfs, FlushFactor(LenIn(docs, f), Average(FieldTotal(docs, f), |docs|)), maxes, listMax)
    requires Stores(norms, maxes, toBits) && meta.upperBound == toBits(listMax)
    requires ctx.f32(toBits(listMax)) == listMax && forall k :: 0 <= k < |maxes| ==> ctx.f32(toBits(maxes[k])) == maxes[k]
    requires ctx.avgDocLen(f) == DictAverage(docs, f)
    requires forall d :: ctx.docLen(f, d) == StoredLen(LenIn(docs, f)(d))
    ensures FlushedTerm(ctx, docs, f, t, tfs, maxes, listMax)
  {
    hide Alone, SortedInto, Maxima, FlushFactor, TfBytes, LenIn, Average, PostingsOf, DictAverage;
  }

  lemma SomeDocs(docs: seq<MemorySegments.Document>, key: string)
    requires PostingsOf(docs, key) != []
    ensures docs != []
  {
  }

  // In a flushed segment whose fields have at most 65535 tokens every block
  // bound and every list bound is true.
  lemma FlushedContextSound(ctx: Context, docs: seq<MemorySegments.Document>)
    requires ctx.Ok() && ReadsFlushed(ctx, docs)
    requires forall f, d :: LenIn(docs, f)(d) <= 65535
    ensures ctx.Sound()
  {
    hide Context.Ok, SoundOn, FlushedTerm, Context.ViewOf, LenIn;
    forall f, t | f != "" && (f, t) in ctx.lists
      ensures SoundOn(Tail(ctx.lists[(f, t)].docs, 0), ctx.ViewOf(f, t))
    {
      var tfs, maxes, listMax :| FlushedTerm(ctx, docs, f, t, tfs, maxes, listMax);
      FlushedTermSound(ctx, docs, f, t, tfs, maxes, listMax);
    }
  }

  lemma FlushedTermSound(ctx: Context, docs: seq<MemorySegments.Document>, f: string, t: string,
                         tfs: seq<nat>, maxes: seq<real>, listMax: real)
    requires ctx.Ok() && f != "" && (f, t) in ctx.lists && FlushedTerm(ctx, docs, f, t, tfs, maxes, listMax)
    requires forall d :: LenIn(docs, f)(d) <= 65535
    ensures SoundOn(Tail(ctx.lists[(f, t)].docs, 0), ctx.ViewOf(f, t))
  {
    hide Context.Ok, Alone, SoundOn, SortedInto, PostingsOf, TfSum, DiskList, TermView, LenIn, Average, TermStats.NonNegative;
    hide Maxima, Encodes, FlushFactor, TfBytes, DictAverage;
    SomeDocs(docs, Key(f, t));
    DictAverageIs(docs, f);
    var l, s := ctx.lists[(f, t)], ctx.StatsOf(f, t);
    ctx.StatsOk(f, t);
    ListLength(l.docs, tfs, PostingsOf(docs, Key(f, t)));
    ListOk(ctx, f, t);
    FlushedSound(l.docs, tfs, LenIn(docs, f), maxes, listMax, s, l.meta, l.norms, ctx.f32);
  }
}
