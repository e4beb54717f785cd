// Flushing a whole field: its .doc, .pos and .tim files, and what opening the
// dictionary again finds in them.
module FieldFlush {
  import opened Prelude
  import opened Bits
  import opened Sorting
  import opened MemoryPages
  import opened MemorySegments
  import opened DiskPostings
  import opened PosFiles
  import opened SkipLists
  import opened Bounds
  import opened TimFiles
  import opened Flush
  import P = PForDelta

  // What the files hold of one term, and what its dictionary entry says.
  ghost predicate TermFiled(docs: seq<MemorySegments.Document>, docFile: seq<byte>, posFile: seq<byte>, field: string, term: string,
                            encode: string -> seq<byte>, toBits: real -> nat, e: Entry) {
    exists meta, docIds, tfs, norms, ps, maxes, listMax, sl, compressed ::
      Filed(docs, docFile, posFile, field, term, encode, toBits, e, meta, docIds, tfs, norms, ps, maxes, listMax, sl, compressed)
  }

  ghost predicate Filed(docs: seq<MemorySegments.Document>, docFile: seq<byte>, posFile: seq<byte>, field: string, term: string,
                        encode: string -> seq<byte>, toBits: real -> nat, e: Entry,
                        meta: TermMeta, docIds: seq<DocId>, tfs: seq<nat>, norms: seq<nat>, ps: seq<Posting>,
                        maxes: seq<real>, listMax: real, sl: SkipList, compressed: seq<byte>) {
    && PostingsOf(docs, Key(field, term)) != []
    && SortedInto(docIds, tfs, PostingsOf(docs, Key(field, term)))
    && multiset(ps) == multiset(PostingsOf(docs, Key(field, term))) && Columns(ps, docIds, tfs)
    && Written(docFile, meta, docIds, TfBytes(tfs), norms, sl, compressed) && meta.tfDataOffset > 0
    && WordsAt(posFile, e.offsets.pos, ListWords(ps))
    && Maxima(docIds, tfs, FlushFactor(LenIn(docs, field), Average(FieldTotal(docs, field), |docs|)), maxes, listMax)
    && Stores(norms, maxes, toBits) && meta.upperBound == toBits(listMax)
    && Describes(docs, field, term, encode, meta, e)
  }

  // The entry counts the term's postings and says where they are.
  ghost predicate Describes(docs: seq<MemorySegments.Document>, field: string, term: string, encode: string -> seq<byte>,
                            meta: TermMeta, e: Entry) {
    var ps := PostingsOf(docs, Key(field, term));
    && e.term == encode(term) && e.docFreq == |ps| && e.totalTf == TfSum(ps) && e.upperBound == meta.upperBound
    && e.offsets.posting == meta.postingOffset && e.offsets.skip == meta.skipOffset && e.offsets.tfData == meta.tfDataOffset
  }

  // Terms flushed later leave it where it is.
  lemma FiledKept(docs: seq<MemorySegments.Document>, docFile: seq<byte>, posFile: seq<byte>, docFile': seq<byte>, posFile': seq<byte>,
                  field: string, term: string, encode: string -> seq<byte>, toBits: real -> nat, e: Entry)
    requires TermFiled(docs, docFile, posFile, field, term, encode, toBits, e)
    requires |docFile| <= |docFile'| && docFile'[..|docFile|] == docFile
    requires |posFile| <= |posFile'| && posFile'[..|posFile|] == posFile
    ensures TermFiled(docs, docFile', posFile', field, term, encode, toBits, e)
  {
    hide SortedInto, Columns, Written, WordsAt, Maxima, Stores, Describes, TfBytes, ListWords, LenIn, PostingsOf, Average;
    var meta, docIds, tfs, norms, ps, maxes, listMax, sl, compressed :|
      Filed(docs, docFile, posFile, field, term, encode, toBits, e, meta, docIds, tfs, norms, ps, maxes, listMax, sl, compressed);
    WrittenKept(docFile, docFile', meta, docIds, TfBytes(tfs), norms, sl, compressed);
    WordsKept(posFile, posFile', e.offsets.pos, ListWords(ps));
    assert Filed(docs, docFile', posFile', field, term, encode, toBits, e, meta, docIds, tfs, norms, ps, maxes, listMax, sl, compressed);
  }

  // A key is taken apart in one way.
  lemma SameParts(f: string, t: string, g: string, u: string)
    requires Key(f, t) == Key(g, u) && ':' !in f && ':' !in g
    ensures f == g && t == u
  {
    SplitsBackIff(f, t);
    SplitsBackIff(g, u);
    var key := Key(f, t);
    assert key[..|f|] == f && key[|f| + 1..] == t && key[..|g|] == g && key[|g| + 1..] == u;
  }

  // One term of the field.
  method FlushOne(seg: MemorySegment, docFile: seq<byte>, posFile: seq<byte>, field: string, term: string,
                  encode: string -> seq<byte>, toBits: real -> nat)
    returns (docFile': seq<byte>, posFile': seq<byte>, e: Entry)
    requires seg.Valid() && AllSeparable(seg.docs) && Narrow(toBits) && ':' !in field
    requires PostingsOf(seg.docs, Key(field, term)) != []
    ensures |docFile| <= |docFile'| && docFile'[..|docFile|] == docFile
    ensures |posFile| <= |posFile'| && posFile'[..|posFile|] == posFile
    ensures TermFiled(seg.docs, docFile', posFile', field, term, encode, toBits, e)
  {
    hide PostingsOf, SortedInto, Columns, Written, WordsAt, Maxima, Stores, TfBytes, ListWords, LenIn, Average, AllSeparable, Narrow,
         MemorySegment.Valid, TfSum, MemoryBound;
    var counts := GetTermMeta(seg, field, term);
    var found, f, t, meta, docIds, tfs, norms, posOffset, ps;
    ghost var maxes, listMax, sl, compressed;
    found, f, t, docFile', meta, docIds, tfs, norms, posFile', posOffset, ps, maxes, listMax, sl, compressed :=
      FlushTerm(seg, docFile, posFile, Key(field, term), toBits);
    assert ':' in Key(field, term) by { assert Key(field, term)[|field|] == ':'; }
    SameParts(f, t, field, term);
    e := Entry(encode(term), counts.value.docFreq, counts.value.totalTermFreq, meta.upperBound,
               TimFiles.Offsets(meta.postingOffset, meta.skipOffset, posOffset, meta.tfDataOffset));
    assert Filed(seg.docs, docFile', posFile', field, term, encode, toBits, e, meta, docIds, tfs, norms, ps, maxes, listMax, sl,
                 compressed);
  }

  // All terms of the field, in the dictionary's order.
  method FlushField(seg: MemorySegment, field: string, terms: seq<string>, encode: string -> seq<byte>, toBits: real -> nat)
    returns (docFile: seq<byte>, posFile: seq<byte>, entries: seq<Entry>)
    requires seg.Valid() && AllSeparable(seg.docs) && Narrow(toBits) && ':' !in field && |terms| <= MAX_U32
    requires forall t :: t in terms ==> PostingsOf(seg.docs, Key(field, t)) != []
    ensures |entries| == |terms|
    ensures forall i :: 0 <= i < |terms| ==> TermFiled(seg.docs, docFile, posFile, field, terms[i], encode, toBits, entries[i])
  {
    hide PostingsOf, TermFiled, AllSeparable, Narrow, MemorySegment.Valid, Le32;
    docFile, posFile, entries := Le32(|terms|), [], [];
    for i := 0 to |terms|
      invariant |entries| == i
      invariant forall k :: 0 <= k < i ==> TermFiled(seg.docs, docFile, posFile, field, terms[k], encode, toBits, entries[k])
    {
      ghost var docBefore, posBefore := docFile, posFile;
      var e;
      docFile, posFile, e := FlushOne(seg, docFile, posFile, field, terms[i], encode, toBits);
      forall k | 0 <= k < i
        ensures TermFiled(seg.docs, docFile, posFile, field, terms[k], encode, toBits, entries[k])
      {
        FiledKept(seg.docs, docBefore, posBefore, docFile, posFile, field, terms[k], encode, toBits, entries[k]);
      }
      entries := entries + [e];
    }
  }

  // The dictionary goes out with blanks, which are filled in as the other
  // files get written.
  method FlushDictionary(entries: seq<Entry>) returns (tim: seq<byte>)
    requires EntriesFit(entries)
    ensures tim == TimBytes(entries)
  {
    hide TimBytes, Filled, PatchAt, Entry.Fits;
    var patch;
    tim, patch := WriteTim(entries);
    tim := PatchDoc(tim, patch, entries);
    tim := PatchPos(tim, patch, entries);
  }

  // Every key of the field's dictionary once.
  ghost predicate AllTerms(docs: seq<MemorySegments.Document>, field: string, terms: seq<string>) {
    Distinct(terms) && forall k :: k in DictKeys(docs, field) <==> exists t :: t in terms && k == Key(field, t)
  }

  ghost function KeySet(field: string, terms: seq<string>): set<string> {
    set t | t in terms :: Key(field, t)
  }

  // The entries' frequencies add up over the keys.
  lemma {:induction false} TotalOverKeys(docs: seq<MemorySegments.Document>, field: string, terms: seq<string>, entries: seq<Entry>)
    requires Distinct(terms) && |entries| == |terms|
    requires forall i :: 0 <= i < |terms| ==> entries[i].totalTf == TtfIn(docs, [])(Key(field, terms[i]))
    ensures TotalTf(entries) == SumOver(KeySet(field, terms), TtfIn(docs, []))
  {
    hide TtfIn, KeySet, Key;
    if terms != [] {
      var n := |terms| - 1;
      TotalOverKeys(docs, field, terms[..n], entries[..n]);
      LastKey(field, terms);
      SumOverPick(KeySet(field, terms), TtfIn(docs, []), Key(field, terms[n]));
    } else {
      NoKeySet(field);
    }
  }

  lemma NoKeySet(field: string)
    ensures KeySet(field, []) == {}
  {
  }

  lemma LastKey(field: string, terms: seq<string>)
    requires Distinct(terms) && terms != []
    ensures var n := |terms| - 1;
            Key(field, terms[n]) in KeySet(field, terms) && KeySet(field, terms) - {Key(field, terms[n])} == KeySet(field, terms[..n])
  {
    hide Key;
    var n := |terms| - 1;
    assert terms == terms[..n] + [terms[n]];
    KeyIsNew(field, terms, n);
    assert KeySet(field, terms) == KeySet(field, terms[..n]) + {Key(field, terms[n])};
  }

  lemma KeyIsNew(field: string, terms: seq<string>, n: nat)
    requires Distinct(terms) && n < |terms|
    ensures Key(field, terms[n]) !in KeySet(field, terms[..n])
  {
    forall i | 0 <= i < n
      ensures Key(field, terms[i]) != Key(field, terms[n])
    {
      var a, b := Key(field, terms[i]), Key(field, terms[n]);
      assert a[|field| + 1..] == terms[i] && b[|field| + 1..] == terms[n];
    }
  }

  // The average length that opening the field's dictionary works out from
  // its entries is the one the flush took its bounds with.
  lemma AverageComesBack(docs: seq<MemorySegments.Document>, docFile: seq<byte>, posFile: seq<byte>, field: string, terms: seq<string>,
                         encode: string -> seq<byte>, toBits: real -> nat, entries: seq<Entry>)
    requires AllTerms(docs, field, terms) && Alone(docs, field) && ':' !in field && docs != [] && |entries| == |terms|
    requires forall i :: 0 <= i < |terms| ==> TermFiled(docs, docFile, posFile, field, terms[i], encode, toBits, entries[i])
    ensures TotalTf(entries) as real / |docs| as real == Average(FieldTotal(docs, field), |docs|) == DictAverage(docs, field)
  {
    hide TermFiled, Alone, Average;
    forall i | 0 <= i < |terms|
      ensures entries[i].totalTf == TtfIn(docs, [])(Key(field, terms[i]))
    {
      Counted(docs, docFile, posFile, field, terms[i], encode, toBits, entries[i]);
    }
    TotalOverKeys(docs, field, terms, entries);
    assert KeySet(field, terms) == DictKeys(docs, field);
    DictAverageIs(docs, field);
  }

  lemma Counted(docs: seq<MemorySegments.Document>, docFile: seq<byte>, posFile: seq<byte>, field: string, term: string,
                encode: string -> seq<byte>, toBits: real -> nat, e: Entry)
    requires TermFiled(docs, docFile, posFile, field, term, encode, toBits, e)
    ensures e.totalTf == TtfIn(docs, [])(Key(field, term)) && PostingsOf(docs, Key(field, term)) != []
  {
    hide SortedInto, Columns, Written, WordsAt, Maxima, Stores, TfBytes, ListWords, LenIn, Average;
  }
}
