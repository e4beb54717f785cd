// Where the score bounds of a posting list come from and when they are true:
// the block and list maxima computed at flush and at merge time, and the
// bound a memory segment makes up from its counters.
module Bounds {
  import opened Prelude
  import opened Sorting
  import opened Bm25
  import opened Bits
  import opened MemoryPostings
  import opened DiskPostings
  import opened Postings
  import opened Scorers
  import P = PForDelta

  // ---------------------------------------------------------------- maxima

  function NormAt(docs: seq<DocId>, tfs: seq<nat>, factor: DocId -> real, i: nat): (r: real)
    requires i < |docs| == |tfs| && factor(docs[i]) > 0.0
    ensures r >= 0.0
  {
    TfNorm(tfs[i], factor(docs[i]))
  }

  ghost predicate Positive(docs: seq<DocId>, factor: DocId -> real) {
    forall i :: 0 <= i < |docs| ==> factor(docs[i]) > 0.0
  }

  // The norm of one of the documents lo to hi - 1, or zero.
  ghost predicate Reached(m: real, docs: seq<DocId>, tfs: seq<nat>, factor: DocId -> real, lo: nat, hi: nat)
    requires lo <= hi <= |docs| == |tfs| && Positive(docs, factor)
  {
    m == 0.0 || exists i: nat :: lo <= i < hi && m == NormAt(docs, tfs, factor, i)
  }

  // m is the largest norm of the documents lo to hi - 1, and zero for none.
  ghost predicate IsMax(m: real, docs: seq<DocId>, tfs: seq<nat>, factor: DocId -> real, lo: nat, hi: nat)
    requires lo <= hi <= |docs| == |tfs| && Positive(docs, factor)
  {
    && m >= 0.0 && Reached(m, docs, tfs, factor, lo, hi)
    && forall i: nat :: lo <= i < hi ==> NormAt(docs, tfs, factor, i) <= m
  }

  // One maximum for each block of 128 documents, and one for the whole list.
  ghost predicate Maxima(docs: seq<DocId>, tfs: seq<nat>, factor: DocId -> real, blockMaxes: seq<real>, globalMax: real) {
    && |docs| == |tfs| && Positive(docs, factor)
    && |blockMaxes| == P.BlockCount(|docs|)
    && (forall k :: 0 <= k < |blockMaxes| ==>
          IsMax(blockMaxes[k], docs, tfs, factor, Start(k, |docs|), Start(k + 1, |docs|)))
    && IsMax(globalMax, docs, tfs, factor, 0, |docs|)
  }

  lemma MaxGrows(m: real, docs: seq<DocId>, tfs: seq<nat>, factor: DocId -> real, lo: nat, mid: nat, hi: nat, m': real)
    requires lo <= mid <= hi <= |docs| == |tfs| && Positive(docs, factor)
    requires IsMax(m, docs, tfs, factor, lo, mid) && IsMax(m', docs, tfs, factor, mid, hi)
    ensures IsMax(if m < m' then m' else m, docs, tfs, factor, lo, hi)
  {
  }

  lemma MaxOfOne(docs: seq<DocId>, tfs: seq<nat>, factor: DocId -> real, j: nat)
    requires j < |docs| == |tfs| && Positive(docs, factor)
    ensures IsMax(NormAt(docs, tfs, factor, j), docs, tfs, factor, j, j + 1)
  {
  }

  // The largest norm of one block.
  method BlockMax(docs: seq<DocId>, tfs: seq<nat>, factor: DocId -> real, i: nat, end: nat) returns (m: real)
    requires i <= end <= |docs| == |tfs| && Positive(docs, factor)
    ensures IsMax(m, docs, tfs, factor, i, end)
  {
    hide NormAt;
    m := 0.0;
    for j := i to end
      invariant IsMax(m, docs, tfs, factor, i, j)
    {
      var norm := NormAt(docs, tfs, factor, j);
      MaxOfOne(docs, tfs, factor, j);
      MaxGrows(m, docs, tfs, factor, i, j, j + 1, norm);
      m := if m < norm then norm else m;
    }
  }

  // One pass over a posting list: the maximum of every block, and the
  // maximum of those.
  method CalcTfNorms(docs: seq<DocId>, tfs: seq<nat>, factor: DocId -> real) returns (globalMax: real, blockMaxes: seq<real>)
    requires |docs| == |tfs| && Positive(docs, factor)
    ensures Maxima(docs, tfs, factor, blockMaxes, globalMax)
  {
    hide IsMax;
    globalMax, blockMaxes := 0.0, [];
    NoMax(docs, tfs, factor);
    var i := 0;
    while i < |docs|
      invariant i == Start(|blockMaxes|, |docs|) && |blockMaxes| <= P.BlockCount(|docs|)
      invariant i == |docs| ==> |blockMaxes| == P.BlockCount(|docs|)
      invariant forall k :: 0 <= k < |blockMaxes| ==>
                  IsMax(blockMaxes[k], docs, tfs, factor, Start(k, |docs|), Start(k + 1, |docs|))
      invariant IsMax(globalMax, docs, tfs, factor, 0, i)
    {
      var end := Min(i + P.BLOCK_SIZE, |docs|);
      var blockMax := BlockMax(docs, tfs, factor, i, end);
      MaxGrows(globalMax, docs, tfs, factor, 0, i, end, blockMax);
      globalMax := if globalMax < blockMax then blockMax else globalMax;
      blockMaxes := blockMaxes + [blockMax];
      i := end;
    }
  }

  lemma NoMax(docs: seq<DocId>, tfs: seq<nat>, factor: DocId -> real)
    requires |docs| == |tfs| && Positive(docs, factor)
    ensures IsMax(0.0, docs, tfs, factor, 0, 0)
  {
  }

  // No block bound is above the list bound.
  lemma BlockBelowList(docs: seq<DocId>, tfs: seq<nat>, factor: DocId -> real, blockMaxes: seq<real>, globalMax: real, k: nat)
    requires Maxima(docs, tfs, factor, blockMaxes, globalMax) && k < |blockMaxes|
    ensures blockMaxes[k] <= globalMax
  {
    hide NormAt;
    assert IsMax(blockMaxes[k], docs, tfs, factor, Start(k, |docs|), Start(k + 1, |docs|));
  }

  // ---------------------------------------------------------------- lists on disk

  // The stored floats are the maxima.
  ghost predicate Encodes(norms: seq<nat>, blockMaxes: seq<real>, f32: nat -> real) {
    |norms| == |blockMaxes| && forall k :: 0 <= k < |norms| ==> f32(norms[k]) == blockMaxes[k]
  }

  // What a search works out for a document is at most the norm it was
  // bounded with.
  ghost predicate Covered(docs: seq<DocId>, tfs: seq<nat>, factor: DocId -> real, s: TermStats)
    requires |docs| == |tfs| && Positive(docs, factor) && s.NonNegative()
  {
    forall i :: 0 <= i < |docs| ==>
      TfNorm(SaturatedTf(tfs[i]), LenFactor(s.docLen(docs[i]), s.avgdl)) <= NormAt(docs, tfs, factor, i)
  }

  // No document of the list up to the block end scores above the block bound.
  ghost predicate BlocksSound(docs: set<DocId>, v: View) {
    forall d, e :: d in docs && e in docs && d <= e <= v.blockEnd(d) ==> v.weight(e) <= v.blockMax(d)
  }

  ghost function DiskView(s: TermStats, meta: TermMeta, docs: seq<DocId>, tfs: seq<nat>, norms: seq<nat>, f32: nat -> real): View
    requires s.NonNegative()
  {
    TermView(s, DiskList(meta, docs, TfBytes(tfs), norms, f32))
  }

  lemma ListAt(meta: TermMeta, docs: seq<DocId>, tfs: seq<nat>, norms: seq<nat>, f32: nat -> real, i: nat)
    requires Ascending(docs) && i < |docs| == |tfs| && meta.tfDataOffset > 0
    ensures var l := DiskList(meta, docs, TfBytes(tfs), norms, f32);
            && l.tf(docs[i]) == SaturatedTf(tfs[i])
            && l.blockMax(docs[i]) == f32(P.NormOf(norms, i / P.BLOCK_SIZE))
            && l.blockEnd(docs[i]) == LastInBlock(docs, i)
  {
    hide IndexOf, LastInBlock, Ascending;
    IndexBack(docs, i);
  }

  lemma TermAt(s: TermStats, l: PostingList, d: DocId)
    requires s.NonNegative()
    ensures var v := TermView(s, l);
            && v.weight(d) == s.Score(l.tf(d), d) && v.blockMax(d) == l.blockMax(d) * s.idf
            && v.blockEnd(d) == l.blockEnd(d) && v.max == s.listUb
  {
    hide TermStats.Score;
  }

  // What the view says of the i-th document.
  lemma ViewAt(s: TermStats, meta: TermMeta, docs: seq<DocId>, tfs: seq<nat>, norms: seq<nat>, f32: nat -> real, i: nat)
    requires s.NonNegative() && Ascending(docs) && i < |docs| == |tfs| && meta.tfDataOffset > 0
    ensures var v := DiskView(s, meta, docs, tfs, norms, f32);
            && v.weight(docs[i]) == s.Score(SaturatedTf(tfs[i]), docs[i])
            && v.blockMax(docs[i]) == f32(P.NormOf(norms, i / P.BLOCK_SIZE)) * s.idf
            && v.blockEnd(docs[i]) == LastInBlock(docs, i)
  {
    hide TermStats.Score, LastInBlock, DiskList, TfBytes, Ascending, SaturatedTf, TermView, P.NormOf, TermStats.NonNegative;
    ListAt(meta, docs, tfs, norms, f32, i);
    TermAt(s, DiskList(meta, docs, TfBytes(tfs), norms, f32), docs[i]);
  }

  // A document between d and d's block end is in d's block.
  lemma SameBlock(docs: seq<DocId>, i: nat, j: nat)
    requires PostingDocs(docs) && i <= j < |docs| && docs[j] <= LastInBlock(docs, i)
    ensures Start(i / P.BLOCK_SIZE, |docs|) <= j < Start(i / P.BLOCK_SIZE + 1, |docs|)
    ensures i / P.BLOCK_SIZE < P.BlockCount(|docs|)
  {
  }

  lemma CoveredScore(docs: seq<DocId>, tfs: seq<nat>, factor: DocId -> real, s: TermStats, i: nat, m: real)
    requires |docs| == |tfs| && Positive(docs, factor) && s.NonNegative() && Covered(docs, tfs, factor, s)
    requires i < |docs| && NormAt(docs, tfs, factor, i) <= m
    ensures s.Score(SaturatedTf(tfs[i]), docs[i]) <= m * s.idf
  {
    hide TfNorm, LenFactor, NormAt;
    TimesLe(TfNorm(SaturatedTf(tfs[i]), LenFactor(s.docLen(docs[i]), s.avgdl)), m, s.idf);
  }

  lemma BlockCovers(docs: seq<DocId>, tfs: seq<nat>, factor: DocId -> real, blockMaxes: seq<real>, globalMax: real,
                    s: TermStats, meta: TermMeta, norms: seq<nat>, f32: nat -> real, i: nat, j: nat)
    requires PostingDocs(docs) && Maxima(docs, tfs, factor, blockMaxes, globalMax) && Encodes(norms, blockMaxes, f32)
    requires s.NonNegative() && Covered(docs, tfs, factor, s) && meta.tfDataOffset > 0
    requires i <= j < |docs| && docs[j] <= LastInBlock(docs, i)
    ensures var v := DiskView(s, meta, docs, tfs, norms, f32); v.weight(docs[j]) <= v.blockMax(docs[i])
  {
    hide NormAt, TermStats.Score, LastInBlock, Covered, DiskView;
    var k := i / P.BLOCK_SIZE;
    SameBlock(docs, i, j);
    ViewAt(s, meta, docs, tfs, norms, f32, i);
    ViewAt(s, meta, docs, tfs, norms, f32, j);
    assert IsMax(blockMaxes[k], docs, tfs, factor, Start(k, |docs|), Start(k + 1, |docs|));
    CoveredScore(docs, tfs, factor, s, j, blockMaxes[k]);
  }

  lemma InOrder(docs: seq<DocId>, i: nat, j: nat)
    requires Ascending(docs) && i < |docs| && j < |docs| && docs[i] <= docs[j]
    ensures i <= j
  {
  }

  // Block bounds of covered lists are true.
  lemma BlocksAreSound(docs: seq<DocId>, tfs: seq<nat>, factor: DocId -> real, blockMaxes: seq<real>, globalMax: real,
                       s: TermStats, meta: TermMeta, norms: seq<nat>, f32: nat -> real)
    requires PostingDocs(docs) && Maxima(docs, tfs, factor, blockMaxes, globalMax) && Encodes(norms, blockMaxes, f32)
    requires s.NonNegative() && Covered(docs, tfs, factor, s) && meta.tfDataOffset > 0
    ensures BlocksSound(Tail(docs, 0), DiskView(s, meta, docs, tfs, norms, f32))
  {
    hide Maxima, Encodes, Covered, DiskView, LastInBlock;
    var v := DiskView(s, meta, docs, tfs, norms, f32);
    forall d, e | d in Tail(docs, 0) && e in Tail(docs, 0) && d <= e <= v.blockEnd(d)
      ensures v.weight(e) <= v.blockMax(d)
    {
      var i: nat :| i < |docs| && docs[i] == d;
      var j: nat :| j < |docs| && docs[j] == e;
      assert |docs| == |tfs| by { Lengths(docs, tfs, factor, blockMaxes, globalMax); }
      InOrder(docs, i, j);
      ViewAt(s, meta, docs, tfs, norms, f32, i);
      BlockCovers(docs, tfs, factor, blockMaxes, globalMax, s, meta, norms, f32, i, j);
    }
  }

  lemma Lengths(docs: seq<DocId>, tfs: seq<nat>, factor: DocId -> real, blockMaxes: seq<real>, globalMax: real)
    requires Maxima(docs, tfs, factor, blockMaxes, globalMax)
    ensures |docs| == |tfs|
  {
  }

  // With the list maximum for a list bound, nothing scores above it either,
  // and it is at least every block bound.
  lemma ListIsSound(docs: seq<DocId>, tfs: seq<nat>, factor: DocId -> real, blockMaxes: seq<real>, globalMax: real,
                    s: TermStats, meta: TermMeta, norms: seq<nat>, f32: nat -> real)
    requires PostingDocs(docs) && Maxima(docs, tfs, factor, blockMaxes, globalMax) && Encodes(norms, blockMaxes, f32)
    requires s.NonNegative() && Covered(docs, tfs, factor, s) && meta.tfDataOffset > 0
    requires globalMax * s.idf <= s.listUb
    ensures var v := DiskView(s, meta, docs, tfs, norms, f32);
            SoundOn(Tail(docs, 0), v) && forall d :: d in docs ==> v.blockMax(d) <= v.max
  {
    hide NormAt, TermStats.Score, LastInBlock, Covered;
    hide Maxima, Encodes, DiskView;
    var v := DiskView(s, meta, docs, tfs, norms, f32);
    BlocksAreSound(docs, tfs, factor, blockMaxes, globalMax, s, meta, norms, f32);
    Lengths(docs, tfs, factor, blockMaxes, globalMax);
    MaxIs(s, meta, docs, tfs, norms, f32);
    forall d | d in docs
      ensures v.weight(d) <= v.max && v.blockMax(d) <= v.max
    {
      var i: nat :| i < |docs| && docs[i] == d;
      ListCovers(docs, tfs, factor, blockMaxes, globalMax, s, meta, norms, f32, i);
    }
  }

  lemma ListCovers(docs: seq<DocId>, tfs: seq<nat>, factor: DocId -> real, blockMaxes: seq<real>, globalMax: real,
                   s: TermStats, meta: TermMeta, norms: seq<nat>, f32: nat -> real, i: nat)
    requires PostingDocs(docs) && Maxima(docs, tfs, factor, blockMaxes, globalMax) && Encodes(norms, blockMaxes, f32)
    requires s.NonNegative() && Covered(docs, tfs, factor, s) && meta.tfDataOffset > 0
    requires globalMax * s.idf <= s.listUb && i < |docs|
    ensures var v := DiskView(s, meta, docs, tfs, norms, f32); v.weight(docs[i]) <= s.listUb && v.blockMax(docs[i]) <= s.listUb
  {
    hide NormAt, TermStats.Score, LastInBlock, Covered, DiskView;
    var k := i / P.BLOCK_SIZE;
    ViewAt(s, meta, docs, tfs, norms, f32, i);
    CoveredScore(docs, tfs, factor, s, i, globalMax);
    assert k < P.BlockCount(|docs|);
    BlockBelowList(docs, tfs, factor, blockMaxes, globalMax, k);
    TimesLe(blockMaxes[k], globalMax, s.idf);
  }

  // ---------------------------------------------------------------- flushed segments

  // A field length in a .len file is 16 bits wide.
  function StoredLen(len: nat): nat {
    if len < 65535 then len else 65535
  }

  // Two bytes hold the length, or the most they can.
  lemma StoredAtMost(len: nat, x: nat)
    ensures StoredLen(len) <= len && StoredLen(len) < 65536 && (x < 65536 && x <= len ==> x <= StoredLen(len))
  {
  }

  // The .len file has one entry for each of the ids 1 to totalDocs.
  method WriteFieldLen(len: DocId -> nat, totalDocs: nat) returns (lens: seq<nat>)
    ensures |lens| == totalDocs && forall i :: 0 <= i < totalDocs ==> lens[i] == StoredLen(len(i + 1))
  {
    lens := [];
    for i := 0 to totalDocs
      invariant |lens| == i && forall j :: 0 <= j < i ==> lens[j] == StoredLen(len(j + 1))
    {
      lens := lens + [StoredLen(len(i + 1))];
    }
  }

  // An id the file has no entry for has length zero.
  function FieldDocLen(lens: seq<nat>, d: DocId): nat {
    if d == 0 || d > |lens| then 0 else lens[d - 1]
  }

  // A length comes back whole exactly when it fits 16 bits and its document's
  // id is at most the number of documents. Ids in a memory segment are; those
  // a worker of the parallel build draws from the shared counter need not be.
  lemma LengthComesBack(len: DocId -> nat, lens: seq<nat>, d: DocId)
    requires forall i :: 0 <= i < |lens| ==> lens[i] == StoredLen(len(i + 1))
    requires d >= 1 && len(d) >= 1
    ensures FieldDocLen(lens, d) == len(d) <==> d <= |lens| && len(d) <= 65535
  {
  }

  function FlushFactor(len: DocId -> nat, avgdl: real): DocId -> real {
    (d: DocId) => LenFactor(len(d), avgdl)
  }

  // Saturating the frequency only lowers a score; saturating the length
  // raises it.
  lemma FlushCovers(docs: seq<DocId>, tfs: seq<nat>, len: DocId -> nat, s: TermStats)
    requires |docs| == |tfs| && s.NonNegative()
    requires forall d :: d in docs ==> len(d) <= 65535 && s.docLen(d) == StoredLen(len(d))
    ensures Positive(docs, FlushFactor(len, s.avgdl)) && Covered(docs, tfs, FlushFactor(len, s.avgdl), s)
  {
    hide LenFactor, TfNorm;
    var factor := FlushFactor(len, s.avgdl);
    forall i | 0 <= i < |docs|
      ensures factor(docs[i]) > 0.0 && TfNorm(SaturatedTf(tfs[i]), LenFactor(s.docLen(docs[i]), s.avgdl)) <= TfNorm(tfs[i], factor(docs[i]))
    {
      assert docs[i] in docs;
      NormMonotone(SaturatedTf(tfs[i]), LenFactor(s.docLen(docs[i]), s.avgdl), tfs[i], factor(docs[i]));
    }
  }

  // In a flushed segment with field lengths up to 65535, searched with the
  // average it was flushed with: score <= block bound <= list bound.
  lemma FlushedSound(docs: seq<DocId>, tfs: seq<nat>, len: DocId -> nat, blockMaxes: seq<real>, globalMax: real,
                     s: TermStats, meta: TermMeta, norms: seq<nat>, f32: nat -> real)
    requires PostingDocs(docs) && |docs| == |tfs| && s.NonNegative() && meta.tfDataOffset > 0
    requires forall d :: d in docs ==> len(d) <= 65535 && s.docLen(d) == StoredLen(len(d))
    requires Maxima(docs, tfs, FlushFactor(len, s.avgdl), blockMaxes, globalMax) && Encodes(norms, blockMaxes, f32)
    requires f32(meta.upperBound) == globalMax && s.listUb == f32(meta.upperBound) * s.idf
    ensures var v := DiskView(s, meta, docs, tfs, norms, f32);
            SoundOn(Tail(docs, 0), v) && forall d :: d in docs ==> v.blockMax(d) <= v.max
  {
    hide Maxima, Encodes, Covered, DiskView;
    FlushCovers(docs, tfs, len, s);
    ListIsSound(docs, tfs, FlushFactor(len, s.avgdl), blockMaxes, globalMax, s, meta, norms, f32);
  }

  // The limit on the length is needed: as long as the frequency fits its
  // byte, the norm a document was bounded with covers its score exactly up
  // to 65535 tokens.
  lemma LengthLimit(tf: nat, len: nat, avgdl: real)
    requires 1 <= tf <= 255 && avgdl > 0.0
    ensures TfNorm(SaturatedTf(tf), LenFactor(StoredLen(len), avgdl)) <= TfNorm(tf, LenFactor(len, avgdl)) <==> len <= 65535
  {
    hide LenFactor, TfNorm;
    NormOrder(tf, LenFactor(StoredLen(len), avgdl), LenFactor(len, avgdl));
    FactorOrder(len, StoredLen(len), avgdl);
  }

  // A norm written with one average covers a score computed with another
  // exactly when the average has not grown. A worker counts documents on
  // over its flushes but tokens only since the last, so that what it writes
  // from its second flush on is too small.
  lemma AverageMustNotGrow(tf: nat, len: nat, written: real, searched: real)
    requires tf >= 1 && len >= 1 && written > 0.0 && searched > 0.0
    ensures TfNorm(tf, LenFactor(len, searched)) <= TfNorm(tf, LenFactor(len, written)) <==> searched <= written
  {
    hide LenFactor, TfNorm;
    NormOrder(tf, LenFactor(len, searched), LenFactor(len, written));
    AverageOrder(len, written, searched);
  }

  lemma WorkerAverage(tf: nat, len: nat, tokens: nat, counted: nat, flushed: nat)
    requires tf >= 1 && len >= 1 && tokens >= 1 && 1 <= flushed <= counted
    ensures TfNorm(tf, LenFactor(len, tokens as real / flushed as real)) <= TfNorm(tf, LenFactor(len, tokens as real / counted as real))
            <==> counted == flushed
  {
    hide LenFactor, TfNorm;
    var t, c, f := tokens as real, counted as real, flushed as real;
    QuotientLe(t, f, t, c);
    if f < c {
      TimesLt(f, c, t);
    }
    QuotientPositive(t, f);
    QuotientPositive(t, c);
    AverageMustNotGrow(tf, len, t / c, t / f);
  }

  lemma QuotientPositive(a: real, b: real)
    requires a > 0.0 && b > 0.0
    ensures a / b > 0.0
  {
  }

  // ---------------------------------------------------------------- merged segments

  // A merge takes an unknown length for an average one.
  function MergeFactor(len: DocId -> nat, avgdl: real): DocId -> real {
    (d: DocId) => if avgdl > 0.0 && len(d) == 0 then 1.0 else LenFactor(len(d), avgdl)
  }

  // Block bounds of a merged list are true when every length was known.
  lemma MergeCovers(docs: seq<DocId>, tfs: seq<nat>, len: DocId -> nat, s: TermStats)
    requires |docs| == |tfs| && s.NonNegative()
    requires forall d :: d in docs ==> 0 < len(d) && s.docLen(d) == len(d)
    ensures Positive(docs, MergeFactor(len, s.avgdl)) && Covered(docs, tfs, MergeFactor(len, s.avgdl), s)
  {
    hide LenFactor, TfNorm;
    var factor := MergeFactor(len, s.avgdl);
    forall i | 0 <= i < |docs|
      ensures factor(docs[i]) > 0.0 && TfNorm(SaturatedTf(tfs[i]), LenFactor(s.docLen(docs[i]), s.avgdl)) <= TfNorm(tfs[i], factor(docs[i]))
    {
      assert docs[i] in docs;
      NormMonotone(SaturatedTf(tfs[i]), LenFactor(s.docLen(docs[i]), s.avgdl), tfs[i], factor(docs[i]));
    }
  }

  // A document whose length got lost scores above the norm it was merged
  // with, since a search takes an unknown length for zero.
  lemma LengthMustBeKnown(tf: nat, raw: nat, avgdl: real)
    requires 1 <= tf <= 255 && avgdl > 0.0
    ensures TfNorm(SaturatedTf(tf), LenFactor(raw, avgdl)) <= TfNorm(tf, MergeFactor((d: DocId) => raw, avgdl)(0)) <==> raw > 0
  {
    NormOrder(tf, LenFactor(raw, avgdl), MergeFactor((d: DocId) => raw, avgdl)(0));
  }

  // A merge multiplies the list bound with the inverse document frequency,
  // and a search does so again. The list bound is then true when that first
  // factor is at least one, and only then as long as the frequencies fit
  // their byte.
  lemma MergedSoundIff(docs: seq<DocId>, tfs: seq<nat>, len: DocId -> nat, blockMaxes: seq<real>, globalMax: real, idf: real,
                       s: TermStats, meta: TermMeta, norms: seq<nat>, f32: nat -> real)
    requires PostingDocs(docs) && docs != [] && |docs| == |tfs| && s.NonNegative() && s.idf > 0.0 && meta.tfDataOffset > 0
    requires forall i :: 0 <= i < |docs| ==> 1 <= tfs[i] && 0 < len(docs[i]) && s.docLen(docs[i]) == len(docs[i])
    requires Maxima(docs, tfs, MergeFactor(len, s.avgdl), blockMaxes, globalMax) && Encodes(norms, blockMaxes, f32)
    requires f32(meta.upperBound) == globalMax * idf && s.listUb == f32(meta.upperBound) * s.idf
    ensures var v := DiskView(s, meta, docs, tfs, norms, f32);
            && BlocksSound(Tail(docs, 0), v)
            && (idf >= 1.0 ==> SoundOn(Tail(docs, 0), v))
            && ((forall i :: 0 <= i < |docs| ==> tfs[i] <= 255) ==> (SoundOn(Tail(docs, 0), v) <==> idf >= 1.0))
  {
    hide Maxima, Encodes, Covered, DiskView, LenFactor, TfNorm, MergeFactor, TermStats.Score, SoundOn, BlocksSound;
    MergeCovers(docs, tfs, len, s);
    BlocksAreSound(docs, tfs, MergeFactor(len, s.avgdl), blockMaxes, globalMax, s, meta, norms, f32);
    var i := BestDocument(docs, tfs, MergeFactor(len, s.avgdl), blockMaxes, globalMax);
    ViewAt(s, meta, docs, tfs, norms, f32, i);
    TimesLt(0.0, globalMax, s.idf);
    if idf >= 1.0 {
      ScaledUp(globalMax, idf, s.idf, f32(meta.upperBound));
      ListIsSound(docs, tfs, MergeFactor(len, s.avgdl), blockMaxes, globalMax, s, meta, norms, f32);
    } else if forall i :: 0 <= i < |docs| ==> tfs[i] <= 255 {
      BestScore(docs, tfs, len, globalMax, s, i);
      MaxIs(s, meta, docs, tfs, norms, f32);
      TooLow(docs, i, DiskView(s, meta, docs, tfs, norms, f32), globalMax, idf, s.idf, f32(meta.upperBound));
    }
  }

  // A list bound scaled down below the best score is not true.
  lemma TooLow(docs: seq<DocId>, i: nat, v: View, best: real, factor: real, idf: real, stored: real)
    requires i < |docs| && v.weight(docs[i]) == best * idf && v.max == stored * idf
    requires stored == best * factor && best > 0.0 && factor < 1.0 && idf > 0.0
    ensures !SoundOn(Tail(docs, 0), v)
  {
    hide SoundOn;
    ScaledDown(best, factor, idf, stored);
    NotSound(docs, i, v);
  }

  lemma NotSound(docs: seq<DocId>, i: nat, v: View)
    requires i < |docs| && v.weight(docs[i]) > v.max
    ensures !SoundOn(Tail(docs, 0), v)
  {
  }

  lemma MaxIs(s: TermStats, meta: TermMeta, docs: seq<DocId>, tfs: seq<nat>, norms: seq<nat>, f32: nat -> real)
    requires s.NonNegative()
    ensures DiskView(s, meta, docs, tfs, norms, f32).max == s.listUb
  {
  }

  lemma ScaledUp(x: real, y: real, z: real, xy: real)
    requires x >= 0.0 && y >= 1.0 && z > 0.0 && xy == x * y
    ensures x * z <= xy * z
  {
  }

  lemma ScaledDown(x: real, y: real, z: real, xy: real)
    requires x > 0.0 && y < 1.0 && z > 0.0 && xy == x * y
    ensures xy * z < x * z
  {
  }

  // Some document has the largest norm.
  lemma BestDocument(docs: seq<DocId>, tfs: seq<nat>, factor: DocId -> real, blockMaxes: seq<real>, globalMax: real) returns (i: nat)
    requires Maxima(docs, tfs, factor, blockMaxes, globalMax) && docs != [] && forall i :: 0 <= i < |tfs| ==> tfs[i] >= 1
    ensures i < |docs| == |tfs| && factor(docs[i]) > 0.0 && globalMax == TfNorm(tfs[i], factor(docs[i])) && globalMax > 0.0
  {
    NormPositive(tfs[0], factor(docs[0]));
    assert NormAt(docs, tfs, factor, 0) <= globalMax;
    i :| i < |docs| && globalMax == NormAt(docs, tfs, factor, i);
  }

  lemma NormPositive(tf: nat, lf: real)
    requires tf >= 1 && lf > 0.0
    ensures TfNorm(tf, lf) > 0.0
  {
  }

  lemma BestScore(docs: seq<DocId>, tfs: seq<nat>, len: DocId -> nat, globalMax: real, s: TermStats, i: nat)
    requires i < |docs| == |tfs| && s.NonNegative() && s.idf > 0.0 && tfs[i] <= 255
    requires 0 < len(docs[i]) && s.docLen(docs[i]) == len(docs[i])
    requires MergeFactor(len, s.avgdl)(docs[i]) > 0.0 && globalMax == TfNorm(tfs[i], MergeFactor(len, s.avgdl)(docs[i])) && globalMax > 0.0
    ensures s.Score(SaturatedTf(tfs[i]), docs[i]) == globalMax * s.idf && globalMax * s.idf > 0.0
  {
    hide LenFactor, TfNorm;
    TimesLt(0.0, globalMax, s.idf);
  }

  // ---------------------------------------------------------------- memory segments

  // The bound a memory segment gives a term: all its occurrences in one
  // document of a single token.
  function MemoryBound(ttf: nat, avgdl: real): real
    requires avgdl >= 0.0
  {
    TfNorm(ttf, LenFactor(1, if avgdl < 1.0 then 1.0 else avgdl))
  }

  // Multiplied out, with an average of at least one.
  lemma MemoryBoundIs(ttf: nat, avgdl: real)
    requires avgdl >= 0.0
    ensures var avg := if avgdl < 1.0 then 1.0 else avgdl;
            MemoryBound(ttf, avgdl) * (ttf as real + 0.3 + 0.9 * (1.0 / avg)) == 2.2 * ttf as real
  {
    NormIs(ttf, 1, if avgdl < 1.0 then 1.0 else avgdl);
  }

  lemma ShortestFactor(dl: nat, avgdl: real)
    requires dl >= 1 && avgdl >= 0.0
    ensures LenFactor(1, if avgdl < 1.0 then 1.0 else avgdl) <= LenFactor(dl, avgdl)
  {
  }

  // It covers the score of every document that has a token at all.
  lemma MemorySound(docs: seq<DocId>, tfs: seq<nat>, ttf: nat, ub: real, s: TermStats)
    requires PostingDocs(docs) && |docs| == |tfs| && s.NonNegative() && forall i :: 0 <= i < |tfs| ==> tfs[i] <= ttf
    requires ub == MemoryBound(ttf, s.avgdl) && s.listUb == ub * s.idf
    requires forall d :: d in docs ==> s.docLen(d) >= 1
    ensures SoundOn(Tail(docs, 0), TermView(s, MemoryList(docs, tfs, ub)))
  {
    hide TermStats.Score, TermStats.NonNegative, MemoryBound, TfOf, TermView;
    var l := MemoryList(docs, tfs, ub);
    TermAt(s, l, 0);
    forall d | d in Tail(docs, 0)
      ensures TermView(s, l).weight(d) <= ub * s.idf && TermView(s, l).blockMax(d) == ub * s.idf
    {
      var i: nat :| i < |docs| && docs[i] == d;
      TfBelongs(docs, tfs, i);
      TermAt(s, l, d);
      MemoryCovers(tfs[i], ttf, ub, s, d);
    }
  }

  lemma MemoryCovers(tf: nat, ttf: nat, ub: real, s: TermStats, d: DocId)
    requires tf <= ttf && s.NonNegative() && ub == MemoryBound(ttf, s.avgdl) && s.docLen(d) >= 1
    ensures s.Score(tf, d) <= ub * s.idf
  {
    hide LenFactor, TfNorm;
    ShortestFactor(s.docLen(d), s.avgdl);
    NormMonotone(tf, LenFactor(s.docLen(d), s.avgdl), ttf, LenFactor(1, if s.avgdl < 1.0 then 1.0 else s.avgdl));
    TimesLe(TfNorm(tf, LenFactor(s.docLen(d), s.avgdl)), ub, s.idf);
  }
}
