// Two searches that go wrong: a block skip that splits a document between
// cursors, and a ranked union that is cut short before its exclusions.
module Counterexamples {
  import opened Prelude
  import opened Sorting
  import opened Bits
  import opened Bm25
  import P = PForDelta
  import opened MemoryPostings
  import opened DiskPostings
  import opened Postings
  import opened Scorers
  import opened WandTheory
  import opened WandRuns
  import opened Wand
  import opened Queries
  import opened Rankings
  import opened Deliveries
  import opened Compilation
  import opened Search
  import opened MemoryPages
  import opened MemorySegments
  import opened Bounds
  import opened Flush

  // ---------------------------------------------------------------- a document split between two cursors

  // The long list: documents 1 to 257 in three blocks. The first document has
  // two occurrences and so has the last, in a shorter field.
  const LONG: nat := 257

  function LongDocs(): seq<DocId> {
    seq(LONG, (i: nat) => i + 1)
  }

  function LongTfs(): seq<nat> {
    seq(LONG, (i: nat) => if i == 0 || i == 256 then 2 else 1)
  }

  // The short list: one block, its documents spread over the long one's.
  function ShortDocs(): seq<DocId> {
    [1, 129, 257]
  }

  // The bit patterns of the single-precision numbers 1, 1.375 and 1.5.
  const ONE: nat := 0x3F80_0000
  const ONE_375: nat := 0x3FB0_0000
  const ONE_5: nat := 0x3FC0_0000

  function Single(n: nat): real {
    if n == ONE then 1.0 else if n == ONE_375 then 1.375 else if n == ONE_5 then 1.5 else 0.0
  }

  // Inverse document frequency 1 and an average length of 27 tokens, which
  // only document 257 falls short of.
  const LONG_STATS := TermStats(1.0, 1.5, 27.0, (d: DocId) => if d == 257 then 19 else 27)
  const SHORT_STATS := TermStats(1.0, 1.0, 27.0, (d: DocId) => 27)

  ghost predicate LongAt(v: View, d: DocId) {
    && v.weight(d) == (if d == 1 then 1.375 else if d == 257 then 1.5 else 1.0)
    && v.blockMax(d) == (if d <= 128 then 1.375 else if d <= 256 then 1.0 else 1.5)
    && v.blockEnd(d) == (if d <= 128 then 128 else if d <= 256 then 256 else 257)
  }

  ghost predicate IsLong(c: Scorer) {
    c.maxScore == 1.5 && c.docs == Span(1, 257) && forall d :: d in c.docs ==> LongAt(c.view, d)
  }

  predicate Between(lo: nat, d: DocId, hi: nat) {
    lo <= d <= hi
  }

  ghost function Span(lo: nat, hi: nat): set<DocId> {
    set d: DocId | d <= hi && Between(lo, d, hi)
  }

  ghost predicate IsShort(c: Scorer) {
    && c.maxScore == 1.0 && c.docs == {1, 129, 257}
    && (forall d :: d in c.docs ==> c.view.weight(d) == 1.0 && c.view.blockEnd(d) == 257 && c.view.blockMax(d) == 1.0)
  }

  lemma Norms()
    ensures TfNorm(1, LenFactor(27, 27.0)) == 1.0
    ensures TfNorm(2, LenFactor(27, 27.0)) == 1.375
    ensures TfNorm(2, LenFactor(19, 27.0)) == 1.5
  {
  }

  // What a cursor over a list on disk says about the i-th document.
  lemma DiskAt(s: TermStats, meta: TermMeta, docs: seq<DocId>, tfs: seq<nat>, norms: seq<nat>, i: nat)
    requires s.NonNegative() && s.idf == 1.0 && meta.tfDataOffset > 0 && Ascending(docs) && i < |docs| == |tfs|
    ensures var v := TermView(s, DiskList(meta, docs, TfBytes(tfs), norms, Single));
            && v.weight(docs[i]) == TfNorm(SaturatedTf(tfs[i]), LenFactor(s.docLen(docs[i]), s.avgdl))
            && v.blockMax(docs[i]) == Single(P.NormOf(norms, i / P.BLOCK_SIZE))
            && v.blockEnd(docs[i]) == LastInBlock(docs, i)
  {
    hide TfNorm, LenFactor, IndexOf, LastInBlock, Single, Ascending;
    IndexBack(docs, i);
  }

  lemma LongViewAt(meta: TermMeta, d: DocId)
    requires meta.tfDataOffset > 0 && 1 <= d <= 257 && LONG_STATS.NonNegative()
    ensures LongAt(TermView(LONG_STATS, DiskList(meta, LongDocs(), TfBytes(LongTfs()), [ONE_375, ONE, ONE_5], Single)), d)
  {
    hide TfNorm, LenFactor, TermView, DiskList;
    Norms();
    var docs := LongDocs();
    assert docs[d - 1] == d;
    DiskAt(LONG_STATS, meta, docs, LongTfs(), [ONE_375, ONE, ONE_5], d - 1);
    LongBlocks(d);
  }

  lemma LongBlocks(d: DocId)
    requires 1 <= d <= 257
    ensures LastInBlock(LongDocs(), d - 1) == if d <= 128 then 128 else if d <= 256 then 256 else 257
    ensures (d - 1) / P.BLOCK_SIZE == if d <= 128 then 0 else if d <= 256 then 1 else 2
  {
  }

  lemma LongView(meta: TermMeta, c: Scorer)
    requires meta.tfDataOffset > 0 && c.maxScore == 1.5 && c.docs == Tail(LongDocs(), 0) && LONG_STATS.NonNegative()
    requires c.view == TermView(LONG_STATS, DiskList(meta, LongDocs(), TfBytes(LongTfs()), [ONE_375, ONE, ONE_5], Single))
    ensures IsLong(c)
  {
    hide TermView, DiskList;
    forall d: nat | 1 <= d <= 257
      ensures d in c.docs && LongAt(c.view, d)
    {
      assert LongDocs()[d - 1] == d;
      LongViewAt(meta, d);
    }
    assert c.docs == Span(1, 257);
  }

  lemma ShortView(meta: TermMeta, c: Scorer)
    requires meta.tfDataOffset > 0 && c.maxScore == 1.0 && c.docs == Tail(ShortDocs(), 0) && SHORT_STATS.NonNegative()
    requires c.view == TermView(SHORT_STATS, DiskList(meta, ShortDocs(), TfBytes([1, 1, 1]), [ONE], Single))
    ensures IsShort(c)
  {
    hide TfNorm, LenFactor, TermView, DiskList;
    Norms();
    var docs := ShortDocs();
    forall i: nat | i < 3
      ensures docs[i] in c.docs
      ensures c.view.weight(docs[i]) == 1.0 && c.view.blockEnd(docs[i]) == 257 && c.view.blockMax(docs[i]) == 1.0
    {
      DiskAt(SHORT_STATS, meta, docs, [1, 1, 1], [ONE], i);
    }
    assert c.docs == {docs[0], docs[1], docs[2]};
  }

  // ---------------------------------------------------------------- the run over both

  ghost predicate AtStage(r: Run, s: State, long: set<DocId>, short: set<DocId>, heap: seq<Hit>) {
    && |r.cs| == 2 && s.m == map[r.cs[0] := long, r.cs[1] := short] && s.heap == heap
  }

  // The set-up: one hit is wanted of two cursors over the long and the short list.
  ghost predicate Setting(r: Run) {
    && |r.cs| == 2 && r.cs[0] != r.cs[1] && IsLong(r.cs[0]) && IsShort(r.cs[1])
    && r.start == map[r.cs[0] := r.cs[0].docs, r.cs[1] := r.cs[1].docs]
    && r.k == 1 && forall d :: r.eligible(d)
  }

  // Both cursors are live, in either order.
  lemma BothLive(r: Run, m: Snapshot, l: Lineup)
    requires Setting(r) && Lined(r, m, l) && m[r.cs[0]] != {} && m[r.cs[1]] != {}
    ensures l.live == [r.cs[0], r.cs[1]] || l.live == [r.cs[1], r.cs[0]]
  {
    hide IsLong, IsShort;
    LiveFacts(r, m, l.live, l.gone);
    OnlyTwo(l.live, r.cs[0], r.cs[1]);
  }

  lemma OnlyTwo<T>(xs: seq<T>, a: T, b: T)
    requires Distinct(xs) && a != b && a in xs && b in xs && forall x :: x in xs ==> x == a || x == b
    ensures xs == [a, b] || xs == [b, a]
  {
    forall x
      ensures multiset(xs)[x] == multiset{a, b}[x]
    {
      DistinctOnce(xs, x);
      assert x in xs <==> x in multiset(xs);
    }
    assert multiset(xs) == multiset{a, b};
    assert |xs| == |multiset(xs)|;
    assert xs[0] in xs && xs[1] in xs;
  }

  lemma OnlyOne<T>(xs: seq<T>, a: T)
    requires Distinct(xs) && a in xs && forall x :: x in xs ==> x == a
    ensures xs == [a]
  {
    forall x
      ensures multiset(xs)[x] == multiset{a}[x]
    {
      DistinctOnce(xs, x);
      assert x in xs <==> x in multiset(xs);
    }
    assert multiset(xs) == multiset{a};
    assert |xs| == |multiset(xs)|;
    assert xs[0] in xs;
  }

  lemma LongLive(r: Run, m: Snapshot, l: Lineup)
    requires Setting(r) && Lined(r, m, l) && m[r.cs[0]] != {} && m[r.cs[1]] == {}
    ensures l.live == [r.cs[0]]
  {
    hide IsLong, IsShort;
    LiveFacts(r, m, l.live, l.gone);
    OnlyOne(l.live, r.cs[0]);
  }

  lemma TwoSums(f: Scorer -> real, a: Scorer, b: Scorer)
    ensures SumBy(f, [a]) == f(a) && SumBy(f, [a, b]) == f(a) + f(b)
  {
    assert [a, b][..1] == [a] && [a][..0] == [];
    assert SumBy(f, [a]) == SumBy(f, []) + f(a);
    assert SumBy(f, [a, b]) == SumBy(f, [a]) + f(b);
  }

  ghost predicate EitherOrder(live: seq<Scorer>, a: Scorer, b: Scorer) {
    live == [a, b] || live == [b, a]
  }

  // The bounds of the two cursors, in either order, added up from the left.
  lemma Prefixes(live: seq<Scorer>, a: Scorer, b: Scorer)
    requires IsLong(a) && IsShort(b) && EitherOrder(live, a, b)
    ensures MaxSum(live[..0]) == 0.0 && MaxSum(live[..1]) < 2.0 && MaxSum(live[..2]) == MaxSum(live) == 2.5
  {
    hide LongAt;
    var max := (c: Scorer) => c.maxScore;
    TwoSums(max, a, b);
    TwoSums(max, b, a);
    assert live[..2] == live && live[..1] == [live[0]] && live[..0] == [];
  }

  lemma Blocks(live: seq<Scorer>, at: map<Scorer, DocId>, a: Scorer, b: Scorer)
    requires EitherOrder(live, a, b) && a in at && b in at
    ensures SumBy(BlockNow(at), live) == a.view.blockMax(at[a]) + b.view.blockMax(at[b])
  {
    TwoSums(BlockNow(at), a, b);
    TwoSums(BlockNow(at), b, a);
  }

  lemma PairScore(r: Run, m: Snapshot, d: DocId)
    requires |r.cs| == 2
    ensures ScoreIn(r.cs, m, d) == Share(m, d)(r.cs[0]) + Share(m, d)(r.cs[1])
  {
    assert r.cs == [r.cs[0], r.cs[1]];
    TwoSums(Share(m, d), r.cs[0], r.cs[1]);
  }

  lemma SolePush(hit: Hit, heap: seq<Hit>)
    requires Pushed([], hit, heap)
    ensures heap == [hit]
  {
    PermutationMembers([hit], heap);
    assert heap[0] in heap;
  }

  lemma SpanFacts()
    ensures AtMin(1, Span(1, 257)) && AtMin(2, Span(2, 257)) && AtMin(129, Span(129, 257))
    ensures AtMin(1, {1, 129, 257}) && AtMin(129, {129, 257})
    ensures 1 in Span(1, 257) && 2 in Span(2, 257) && 129 in Span(129, 257)
    ensures Span(1, 257) - {1} == Span(2, 257) && {1, 129, 257} - {1} == {129, 257}
    ensures From(Span(2, 257), 129) == Span(129, 257)
    ensures From(Span(129, 257), 257) == {257} && From({129, 257}, 258) == {}
  {
  }

  // Where the two cursors stand.
  lemma StandAt(r: Run, m: Snapshot, l: Lineup, x: DocId, y: DocId)
    requires Setting(r) && Lined(r, m, l) && EitherOrder(l.live, r.cs[0], r.cs[1])
    requires AtMin(x, m[r.cs[0]]) && x in m[r.cs[0]] && AtMin(y, m[r.cs[1]]) && y in m[r.cs[1]]
    ensures l.at[r.cs[0]] == x && l.at[r.cs[1]] == y
  {
    hide IsLong, IsShort, Live;
    assert r.cs[0] in l.live && r.cs[1] in l.live;
  }

  lemma TwoEntries(m: Snapshot, a: Scorer, b: Scorer)
    requires m.Keys == {a, b}
    ensures m == map[a := m[a], b := m[b]]
  {
  }

  // Document 1 comes first and is scored.
  lemma FirstRound(r: Run, s: State, s': State, l: Lineup, p: nat)
    requires Setting(r) && AtStage(r, s, Span(1, 257), {1, 129, 257}, []) && Moved(r, true, s, s', l, p)
    ensures AtStage(r, s', Span(2, 257), {129, 257}, [Hit(1, 2.375)]) && s'.skipped == s.skipped
  {
    hide Span, From, AtMin, MaxSum, BlockNow, SumBy, Live, Share, Pushed, Lined;
    var a, b := r.cs[0], r.cs[1];
    SpanFacts();
    BothLive(r, s.m, l);
    Prefixes(l.live, a, b);
    StandAt(r, s.m, l, 1, 1);
    InAt(r, s.m, l);
    Blocks(l.live, l.at, a, b);
    FirstScore(r, s.m);
    InSpan(a);
    SolePush(Hit(1, 2.375), s'.heap);
    TwoEntries(s'.m, a, b);
  }

  lemma InAt(r: Run, m: Snapshot, l: Lineup)
    requires Lined(r, m, l)
    ensures forall c :: c in l.live ==> c in l.at
  {
  }

  lemma FirstScore(r: Run, m: Snapshot)
    requires Setting(r) && m == map[r.cs[0] := Span(1, 257), r.cs[1] := {1, 129, 257}]
    ensures ScoreIn(r.cs, m, 1) == 2.375
  {
    PairScore(r, m, 1);
    assert 1 in r.cs[0].docs && 1 in r.cs[1].docs;
  }

  // The long cursor catches up with the short one, at 129.
  lemma SecondRound(r: Run, s: State, s': State, l: Lineup, p: nat)
    requires Setting(r) && AtStage(r, s, Span(2, 257), {129, 257}, [Hit(1, 2.375)]) && Moved(r, true, s, s', l, p)
    ensures AtStage(r, s', Span(129, 257), {129, 257}, [Hit(1, 2.375)]) && s'.skipped == s.skipped
  {
    hide Span, From, AtMin, MaxSum, BlockNow, SumBy, Live, Visit, Skip, IsLong, IsShort;
    var a, b := r.cs[0], r.cs[1];
    SpanFacts();
    BothLive(r, s.m, l);
    Prefixes(l.live, a, b);
    StandAt(r, s.m, l, 2, 129);
    assert p == 1 && l.live == [a, b];
    assert l.live[..1] == [a];
    TwoEntries(s'.m, a, b);
  }

  // Both blocks look too weak, and both cursors jump: the long one over its
  // second block, the short one over all it has.
  lemma ThirdRound(r: Run, s: State, s': State, l: Lineup, p: nat)
    requires Setting(r) && AtStage(r, s, Span(129, 257), {129, 257}, [Hit(1, 2.375)]) && Moved(r, true, s, s', l, p)
    ensures AtStage(r, s', {257}, {}, [Hit(1, 2.375)]) && s'.skipped == s.skipped + 1
  {
    hide Span, From, AtMin, MaxSum, BlockNow, SumBy, Live, Visit, Align, Lined, IsLong, IsShort;
    var a, b := r.cs[0], r.cs[1];
    SpanFacts();
    BothLive(r, s.m, l);
    Prefixes(l.live, a, b);
    StandAt(r, s.m, l, 129, 129);
    InAt(r, s.m, l);
    Blocks(l.live, l.at, a, b);
    At129(a, b);
    TwoEntries(s'.m, a, b);
  }

  lemma At129(a: Scorer, b: Scorer)
    requires IsLong(a) && IsShort(b)
    ensures a.view.blockMax(129) == 1.0 && a.view.blockEnd(129) == 256
    ensures b.view.blockMax(129) == 1.0 && b.view.blockEnd(129) == 257
  {
    InSpan(a);
  }

  lemma InSpan(a: Scorer)
    requires IsLong(a)
    ensures LongAt(a.view, 1) && LongAt(a.view, 129) && LongAt(a.view, 257)
  {
    assert 1 in a.docs && 129 in a.docs && 257 in a.docs;
  }

  // What is left of the long list cannot reach the threshold.
  lemma NoFourthRound(r: Run, s: State, s': State, l: Lineup, p: nat)
    requires Setting(r) && AtStage(r, s, {257}, {}, [Hit(1, 2.375)])
    ensures !Moved(r, true, s, s', l, p)
  {
    hide BlockNow, SumBy, Live, Visit, Align, Skip;
    if Lined(r, s.m, l) {
      LongLive(r, s.m, l);
      assert MaxSum([r.cs[0]]) == 1.5 by { TwoSums((c: Scorer) => c.maxScore, r.cs[0], r.cs[1]); }
      assert l.live[..1] == l.live;
    }
  }

  // Before that the loop does not end.
  lemma NotHalted(r: Run, s: State, l: Lineup)
    requires Setting(r) && s.m.Keys == r.start.Keys && s.m[r.cs[0]] != {} && s.m[r.cs[1]] != {}
    requires s.heap == [] || s.heap == [Hit(1, 2.375)]
    ensures !Halted(r, s, l)
  {
    hide BlockNow, SumBy, Live, MaxSum;
    if Lined(r, s.m, l) {
      BothLive(r, s.m, l);
      Prefixes(l.live, r.cs[0], r.cs[1]);
    }
  }

  // The states of every run over the two lists.
  ghost predicate InStage(r: Run, s: State, i: nat) {
    match i
    case 0 => AtStage(r, s, Span(1, 257), {1, 129, 257}, []) && s.skipped == 0
    case 1 => AtStage(r, s, Span(2, 257), {129, 257}, [Hit(1, 2.375)]) && s.skipped == 0
    case 2 => AtStage(r, s, Span(129, 257), {129, 257}, [Hit(1, 2.375)]) && s.skipped == 0
    case 3 => AtStage(r, s, {257}, {}, [Hit(1, 2.375)]) && s.skipped == 1
    case _ => false
  }

  lemma NextStage(r: Run, s: State, s': State, l: Lineup, p: nat, i: nat)
    requires Setting(r) && InStage(r, s, i) && Moved(r, true, s, s', l, p)
    ensures InStage(r, s', i + 1)
  {
    hide Setting, Moved, AtStage, Span;
    if i == 0 {
      FirstRound(r, s, s', l, p);
    } else if i == 1 {
      SecondRound(r, s, s', l, p);
    } else if i == 2 {
      ThirdRound(r, s, s', l, p);
    } else {
      NoFourthRound(r, s, s', l, p);
    }
  }

  lemma LastStage(r: Run, s: State, l: Lineup, i: nat)
    requires Setting(r) && InStage(r, s, i) && Halted(r, s, l)
    ensures i == 3
  {
    hide Span, Halted;
    SpanFacts();
    if i < 3 {
      NotHalted(r, s, l);
    }
  }

  lemma {:induction false} Stages(r: Run, t: Trace, n: nat, i: nat)
    requires Setting(r) && Rounds(r, true, t, n) && i <= n
    ensures InStage(r, t.states[i], i)
  {
    hide Setting, Moved, InStage;
    if i == 0 {
      assert InStage(r, State(r.start, [], 0), 0) by { FirstStage(r); }
    } else {
      Stages(r, t, n, i - 1);
      NextStage(r, t.states[i - 1], t.states[i], t.lineups[i - 1], t.pivots[i - 1], i - 1);
    }
  }

  lemma FirstStage(r: Run)
    requires Setting(r)
    ensures InStage(r, State(r.start, [], 0), 0)
  {
    hide Span;
  }

  // Bounds and scores of both lists are what they should be.
  lemma SettingSound(r: Run)
    requires r.Ok() && Setting(r)
    ensures r.Sound()
  {
    var a, b := r.cs[0], r.cs[1];
    forall d | d in a.docs
      ensures LongAt(a.view, d) && 1 <= d <= 257
    {
    }
    assert SoundOn(a.docs, a.view);
    assert SoundOn(b.docs, b.view);
  }

  // However ties are broken, a run over the two lists scores document 1,
  // takes document 257 away from the short list's cursor, and ends with
  // document 1 alone; 257 is worth more.
  lemma SplitRun(r: Run, t: Trace, end: Lineup)
    requires r.Ok() && Setting(r) && IsRun(r, true, t, end)
    ensures Reversed(Last(t).heap) == [Hit(1, 2.375)] && Last(t).skipped == 1
    ensures r.Sound() && 257 in r.Targets() && r.TrueScore()(257) == 2.5
    ensures !IsTopK([Hit(1, 2.375)], r.Targets(), r.TrueScore(), r.k) && !Clean(t)
  {
    hide Setting, Moved, Halted, NothingSplit, SoundOn, Span, IsTopK, Run.Ok, Run.Sound;
    var n := |t.pivots|;
    Stages(r, t, n, n);
    LastStage(r, Last(t), end, n);
    NotTheBest(r, [Hit(1, 2.375)]);
    SettingSound(r);
    RunOutcome(r, true, t, end);
  }

  // Document 257 is worth more.
  lemma NotTheBest(r: Run, hits: seq<Hit>)
    requires Setting(r) && hits == [Hit(1, 2.375)]
    ensures 257 in r.Targets() && r.TrueScore()(257) == 2.5 && r.k == 1
    ensures !IsTopK(hits, r.Targets(), r.TrueScore(), r.k)
  {
    var a, b := r.cs[0], r.cs[1];
    InSpan(a);
    assert 257 in a.docs && 257 in b.docs;
    PairScore(r, r.start, 257);
    assert 257 in r.start[a];
    assert 257 !in HitDocs(hits) && hits[0].score == 2.375;
  }

  // A cursor over a list that has just been written to disk.
  method OpenWritten(file: seq<byte>, docs: seq<DocId>, tfs: seq<nat>, norms: seq<nat>, upperBound: nat, s: TermStats)
    returns (file': seq<byte>, c: Scorer, ghost meta: TermMeta)
    requires PostingDocs(docs) && |tfs| == |docs| && P.U32s(norms) && NormsOk(norms, Single) && s.NonNegative()
    ensures c.Valid() && fresh(c.Repr) && c.rem == c.docs == Tail(docs, 0) && c.maxScore == s.listUb
    ensures meta.tfDataOffset > 0 && c.view == TermView(s, DiskList(meta, docs, TfBytes(tfs), norms, Single))
  {
    hide Scorer.Valid, PostingCursor.Valid, PostingIterator.Valid, Written, DiskList, TfBytes, NormsOk;
    var m;
    ghost var skips, compressed;
    file', m, skips, compressed := WriteTerm(file, docs, tfs, norms, upperBound);
    meta := m;
    var disk := new PostingIterator(file', m, docs, TfBytes(tfs), norms, skips, compressed);
    var iter := new PostingCursor.OnDisk(disk, Single);
    c := new Scorer.TermScorer(s, iter);
    MaxIsMax(c);
  }

  // Both lists in one file, and a cursor over each.
  method OpenBoth() returns (a: Scorer, b: Scorer)
    ensures Forest([a, b]) && a != b && fresh(a.Repr) && fresh(b.Repr)
    ensures IsLong(a) && IsShort(b) && a.rem == a.docs && b.rem == b.docs
  {
    hide Scorer.Valid, TermView, DiskList, TfBytes, IsLong, IsShort;
    ListsOk();
    var file;
    ghost var metaA, metaB;
    file, a, metaA := OpenWritten([], LongDocs(), LongTfs(), [ONE_375, ONE, ONE_5], ONE_5, LONG_STATS);
    file, b, metaB := OpenWritten(file, ShortDocs(), [1, 1, 1], [ONE], ONE, SHORT_STATS);
    LongView(metaA, a);
    ShortView(metaB, b);
    ForestOfTwo(a, b);
  }

  lemma ForestOfTwo(a: Scorer, b: Scorer)
    requires a.Valid() && b.Valid() && a.Repr !! b.Repr
    ensures Forest([a, b]) && a != b
  {
  }

  // The best document of a union of the two terms: found without block
  // tests, and missed with them.
  method SplitExample(useBlockMax: bool) returns (hits: seq<Hit>, ghost r: Run)
    ensures r.k == 1 && r.Sound() && 257 in r.Targets() && r.TrueScore()(257) == 2.5
    ensures IsTopK(hits, r.Targets(), r.TrueScore(), 1) <==> !useBlockMax
    ensures useBlockMax ==> hits == [Hit(1, 2.375)]
  {
    hide Scorer.Valid, Setting, IsLong, IsShort, IsTopK, Run.Sound, Run.Targets, Ran;
    var a, b := OpenBoth();
    var eligible := (d: DocId) => true;
    r := Run([a, b], Rems([a, b]), 1, eligible);
    IsSetting(r, a, b);
    var skipped;
    ghost var t, end;
    hits, skipped, t, end := RunWand([a, b], 1, eligible, useBlockMax);
    SplitEnds(r, useBlockMax, t, end, hits, skipped);
  }

  lemma SplitEnds(r: Run, useBlockMax: bool, t: Trace, end: Lineup, hits: seq<Hit>, skipped: nat)
    requires Setting(r) && Ran(r, useBlockMax, t, end, hits, skipped)
    ensures r.k == 1 && r.Sound() && 257 in r.Targets() && r.TrueScore()(257) == 2.5
    ensures IsTopK(hits, r.Targets(), r.TrueScore(), 1) <==> !useBlockMax
    ensures useBlockMax ==> hits == [Hit(1, 2.375)]
  {
    hide Setting, IsTopK, Run.Sound, Run.Ok, Run.Targets, IsRun, Clean;
    SettingSound(r);
    NotTheBest(r, [Hit(1, 2.375)]);
    if useBlockMax {
      SplitRun(r, t, end);
    }
  }

  lemma IsSetting(r: Run, a: Scorer, b: Scorer)
    requires r.cs == [a, b] && a != b && IsLong(a) && IsShort(b) && r.k == 1 && forall d :: r.eligible(d)
    requires r.start.Keys == {a, b} && r.start[a] == a.docs && r.start[b] == b.docs
    ensures Setting(r)
  {
    hide IsLong, IsShort;
  }

  lemma ListsOk()
    ensures PostingDocs(LongDocs()) && PostingDocs(ShortDocs()) && LONG_STATS.NonNegative() && SHORT_STATS.NonNegative()
    ensures P.U32s([ONE_375, ONE, ONE_5]) && NormsOk([ONE_375, ONE, ONE_5], Single)
    ensures P.U32s([ONE]) && NormsOk([ONE], Single)
  {
  }

  // ---------------------------------------------------------------- a union cut short before its exclusions

  // Two documents in memory: in field f the first has term a twice, the
  // second term b once.
  const TEXT_A := FieldTokens("f", [Token("a", 0), Token("a", 1)])
  const TEXT_B := FieldTokens("f", [Token("b", 0)])

  ghost function CutDocs(): seq<MemorySegments.Document> {
    [MemorySegments.Document([TEXT_A], []), MemorySegments.Document([TEXT_B], [])]
  }

  // What the segment's reader shows of them to a search for one hit. Both
  // terms are in one document, and so equally rare.
  function CutContext(idf: real): Context {
    Context(map[("f", "a") := InMemory([1], [2], MemoryBound(2, 1.5)), ("f", "b") := InMemory([2], [1], MemoryBound(1, 1.5))],
            Single,
            (f: string, d: DocId) => if f == "f" && d == 1 then 2 else if f == "f" && d == 2 then 1 else 0,
            (f: string) => if f == "f" then 1.5 else 0.0,
            Option.None,
            [],
            [],
            map["f:a" := idf, "f:b" := idf],
            Option.None,
            1)
  }

  const TERM_A := TermQuery("f", "a")
  const TERM_B := TermQuery("f", "b")

  // a or b, but not a.
  function CutQuery(): Query {
    BooleanQuery([Clause(TERM_A, SHOULD), Clause(TERM_B, SHOULD), Clause(TERM_A, MUST_NOT)])
  }

  lemma CutOk(ctx: Context, idf: real)
    requires idf > 0.0 && ctx == CutContext(idf)
    ensures ctx.Ok() && ctx.OneBlockLists()
  {
    hide Single, TermList.Ok, MemoryBound;
    SoleOk(1, 2, MemoryBound(2, 1.5));
    SoleOk(2, 1, MemoryBound(1, 1.5));
    BoundNonNegative(2);
    BoundNonNegative(1);
  }

  lemma SoleOk(d: DocId, tf: nat, ub: real)
    requires d < 3
    ensures InMemory([d], [tf], ub).Ok(Single) <==> ub >= 0.0
  {
  }

  lemma BoundNonNegative(ttf: nat)
    ensures MemoryBound(ttf, 1.5) >= 0.0
  {
    hide TfNorm;
  }

  // The term occurs where its field's tokens say.
  lemma OneMoreText(docs: seq<MemorySegments.Document>, text: FieldTokens, key: string)
    ensures var older, ps := PostingsOf(docs, key), PositionsIn(text.name, text.tokens, key);
            PostingsOf(docs + [MemorySegments.Document([text], [])], key) == if ps == [] then older else [Posting(|docs| + 1, ps)] + older
  {
    var all := docs + [MemorySegments.Document([text], [])];
    assert all[..|all| - 1] == docs && all[|all| - 1].indexed == [text] && [text][..0] == [];
    assert PostingsOf(all, key) == Partial(docs, [text], key);
  }

  lemma CutPostings()
    ensures Key("f", "a") != Key("f", "b")
    ensures PostingsOf(CutDocs(), Key("f", "a")) == [Posting(1, [0, 1])]
    ensures PostingsOf(CutDocs(), Key("f", "b")) == [Posting(2, [0])]
  {
    assert Key("f", "a")[2] == 'a' && Key("f", "b")[2] == 'b';
    KeyPostings(Key("f", "a"));
    KeyPostings(Key("f", "b"));
  }

  lemma KeyPostings(key: string)
    requires Key("f", "a") != Key("f", "b")
    ensures PostingsOf(CutDocs(), key) ==
            if key == Key("f", "a") then [Posting(1, [0, 1])] else if key == Key("f", "b") then [Posting(2, [0])] else []
  {
    hide PostingsOf, Key, PositionsIn;
    TextPositions(key);
    NothingPosted(key);
    OneMoreText([], TEXT_A, key);
    OneMoreText([] + [MemorySegments.Document([TEXT_A], [])], TEXT_B, key);
    assert CutDocs() == ([] + [MemorySegments.Document([TEXT_A], [])]) + [MemorySegments.Document([TEXT_B], [])];
  }

  lemma TextPositions(key: string)
    ensures PositionsIn("f", TEXT_A.tokens, key) == if key == Key("f", "a") then [0, 1] else []
    ensures PositionsIn("f", TEXT_B.tokens, key) == if key == Key("f", "b") then [0] else []
  {
    hide Key;
    assert TEXT_A.tokens[..1] == [Token("a", 0)] && TEXT_A.tokens[..1][..0] == [] && TEXT_B.tokens[..0] == [];
    assert PositionsIn("f", TEXT_A.tokens[..1], key) == if key == Key("f", "a") then [0] else [];
  }

  lemma NothingPosted(key: string)
    ensures PostingsOf([], key) == []
  {
  }

  lemma CutLengths(d: DocId)
    ensures FieldTotal(CutDocs(), "f") == 3 && Average(3, 2) == 1.5
    ensures LenIn(CutDocs(), "f")(d) == if d == 1 then 2 else if d == 2 then 1 else 0
  {
    var docs := CutDocs();
    assert [TEXT_A][..0] == [] && [TEXT_B][..0] == [] && docs[..1][..0] == [];
    assert FieldLen([TEXT_A], "f") == 2 && FieldLen([TEXT_B], "f") == 1;
    assert FieldTotal(docs[..1], "f") == 2;
  }

  // The context is what the reader of the segment shows.
  lemma CutRead(ctx: Context, idf: real)
    requires ctx == CutContext(idf)
    ensures ReadsMemory(ctx, CutDocs())
  {
    hide MemoryBound, PostingsOf, LenIn, FieldTotal, Average;
    CutPostings();
    forall f, t | (f, t) in ctx.lists
      ensures MemoryTerm(ctx, CutDocs(), f, t)
    {
      assert f == "f" && (t == "a" || t == "b");
      forall d
        ensures ctx.docLen("f", d) == LenIn(CutDocs(), "f")(d)
      {
        CutLengths(d);
      }
      CutLengths(0);
      SoleTerm(if t == "a" then Posting(1, [0, 1]) else Posting(2, [0]));
    }
  }

  lemma SoleTerm(p: Posting)
    requires p.doc < INVALID_DOC
    ensures SortedInto([p.doc], [|p.positions|], [p]) && TfSum([p]) == |p.positions| && Alone(CutDocs(), "f")
  {
    assert [p][1..] == [] && p in [p];
    assert HasPosting([p], p.doc, |p.positions|);
    assert [p.doc][0] == p.doc;
  }

  lemma CutIdfs(ctx: Context, idf: real)
    requires ctx == CutContext(idf)
    ensures ctx.Idf("f", "a") == ctx.Idf("f", "b") == idf
  {
    assert "f" + ":" + "a" == "f:a" && "f" + ":" + "b" == "f:b";
  }

  lemma CutNorms()
    ensures TfNorm(2, LenFactor(2, 1.5)) == 44.0 / 35.0
    ensures TfNorm(1, LenFactor(1, 1.5)) == 22.0 / 19.0
  {
    assert LenFactor(2, 1.5) == 1.25 && LenFactor(1, 1.5) == 0.75;
  }

  // The score of a list's one document.
  lemma SolePosting(s: TermStats, d: DocId, tf: nat, ub: real)
    requires s.NonNegative()
    ensures TermView(s, MemoryList([d], [tf], ub)).weight(d) == s.Score(tf, d)
  {
    hide TermStats.Score;
    TfBelongs([d], [tf], 0);
  }

  lemma SoleTail(d: DocId)
    ensures Tail([d], 0) == {d} && forall e :: e in [d] <==> e == d
  {
    assert [d][0] == d;
    assert d in Tail([d], 0);
  }

  lemma CutTerms(ctx: Context, idf: real)
    requires idf > 0.0 && ctx == CutContext(idf) && ctx.Ok()
    ensures ctx.ViewOf("f", "a").weight(1) == 44.0 / 35.0 * idf
    ensures ctx.ViewOf("f", "b").weight(2) == 22.0 / 19.0 * idf
  {
    hide TermView, MemoryList, Context.Idf, Context.Ok, MemoryBound, TfNorm, LenFactor;
    CutIdfs(ctx, idf);
    CutNorms();
    ctx.StatsOk("f", "a");
    ctx.StatsOk("f", "b");
    SolePosting(ctx.StatsOf("f", "a"), 1, 2, MemoryBound(2, 1.5));
    SolePosting(ctx.StatsOf("f", "b"), 2, 1, MemoryBound(1, 1.5));
  }

  lemma CutMatches(ctx: Context, idf: real, q: Query, d: DocId)
    requires ctx == CutContext(idf) && q == CutQuery()
    ensures Matches(ctx, TERM_A, d) <==> d == 1
    ensures Matches(ctx, TERM_B, d) <==> d == 2
    ensures !HasOccur(q.clauses, 3, MUST)
  {
    SoleTail(1);
    SoleTail(2);
  }

  lemma CutClauses(ctx: Context, idf: real, q: Query, d: DocId)
    requires ctx == CutContext(idf) && q == CutQuery()
    ensures AnyOf(ctx, q, 3, SHOULD, d) <==> d in {1, 2}
    ensures AnyOf(ctx, q, 3, MUST_NOT, d) <==> d == 1
  {
    hide Matches;
    CutMatches(ctx, idf, q, d);
    assert q.clauses[0] == Clause(TERM_A, SHOULD) && q.clauses[1] == Clause(TERM_B, SHOULD) && q.clauses[2] == Clause(TERM_A, MUST_NOT);
  }

  lemma CutScores(ctx: Context, idf: real, q: Query)
    requires idf > 0.0 && ctx == CutContext(idf) && q == CutQuery() && ctx.Ok()
    ensures ScoreFn(ctx, q)(1) == 44.0 / 35.0 * idf && ScoreFn(ctx, q)(2) == 22.0 / 19.0 * idf
  {
    hide Matches, Context.Ok, Context.ViewOf;
    CutTerms(ctx, idf);
    forall d: DocId | d in {1, 2}
      ensures ScoreFn(ctx, q)(d) == if d == 1 then 44.0 / 35.0 * idf else 22.0 / 19.0 * idf
    {
      CutMatches(ctx, idf, q, d);
      assert SumShould(ctx, q, 1, d) == if d == 1 then 44.0 / 35.0 * idf else 0.0;
      assert SumShould(ctx, q, 2, d) == if d == 1 then 44.0 / 35.0 * idf else 22.0 / 19.0 * idf;
      assert SumShould(ctx, q, 3, d) == SumShould(ctx, q, 2, d);
    }
  }

  // Document 2 is the one answer; document 1 is a candidate too, and excluded.
  lemma CutMeaning(ctx: Context, idf: real, q: Query)
    requires ctx == CutContext(idf) && q == CutQuery()
    ensures Choice(ctx, q) == {1, 2} && ExcludedBy(ctx, q) == {1} && Answer(ctx, q) == {2}
  {
    hide AnyOf, Matches;
    CutMatches(ctx, idf, q, 1);
    forall d
      ensures d in Choice(ctx, q) <==> d in {1, 2}
      ensures d in ExcludedBy(ctx, q) <==> d == 1
    {
      CutClauses(ctx, idf, q, d);
      if d in {1, 2} {
        IsChoice(ctx, q, d);
      }
    }
    AnswerIsChoice(ctx, q);
  }

  // Searching for "a or b, but not a" comes back with nothing although
  // document 2 matches: the union has kept document 1 alone.
  method CutExample(idf: real) returns (hits: seq<Hit>, ghost ctx: Context, ghost q: Query)
    requires idf > 0.0
    ensures ctx.Ok() && ReadsMemory(ctx, CutDocs()) && ctx.Sound() && ctx.topK == 1 && Answer(ctx, q) == {2}
    ensures hits == [] && !IsTopK(hits, Answer(ctx, q), ScoreFn(ctx, q), ctx.topK)
  {
    var c, k := CutContext(idf), CutQuery();
    ctx, q := c, k;
    var thrown;
    ghost var x;
    CutOk(ctx, idf);
    hits, thrown, x := SearchImpl(c, k);
    CutFound(ctx, idf, q, x, hits);
  }

  lemma CutFound(ctx: Context, idf: real, q: Query, x: Delivery, hits: seq<Hit>)
    requires idf > 0.0 && ctx == CutContext(idf) && q == CutQuery() && ctx.Ok() && ctx.OneBlockLists()
    requires Delivers(ctx, q, x) && Found(ctx, x, hits) && (SafeLists(ctx, q) && ctx.Sound() ==> x.sharp)
    ensures ReadsMemory(ctx, CutDocs()) && ctx.Sound() && ctx.topK == 1 && Answer(ctx, q) == {2}
    ensures hits == [] && !IsTopK(hits, Answer(ctx, q), ScoreFn(ctx, q), ctx.topK)
  {
    hide Context.Ok, Context.Sound, Context.OneBlockLists, Delivers, Answer, Choice, ExcludedBy, ScoreFn, Chooses, Seen,
         ClausesMean, CutContext;
    CutRead(ctx, idf);
    MemoryContextSound(ctx, CutDocs());
    CutMeaning(ctx, idf, q);
    CutScores(ctx, idf, q);
    CutMatches(ctx, idf, q, 1);
    var ys := DeliversParts(ctx, q, x);
    var kept :| Chooses(ctx, q.clauses, ys, kept, x);
    FitClausesMean(ctx, q, ys);
    SeenIsKept(ctx, q, ys, kept, x);
    OneTopK(ctx, idf);
    TimesLt(22.0 / 19.0, 44.0 / 35.0, idf);
    BetterKept(kept, ScoreFn(ctx, q));
    assert Seen(ctx, x) == {};
  }

  lemma OneTopK(ctx: Context, idf: real)
    requires ctx == CutContext(idf)
    ensures ctx.topK == HitsWanted(ctx) == 1
  {
  }

  lemma BetterKept(kept: seq<Hit>, score: DocId -> real)
    requires IsTopK(kept, {1, 2}, score, 1) && score(1) > score(2)
    ensures HitDocs(kept) == {1}
  {
    hide NonIncreasing, DistinctDocs;
    KeptByRank(kept, {1, 2}, score, 1, 1);
    KeptByRank(kept, {1, 2}, score, 1, 2);
    assert Rivals({1, 2}, score, 1) == {} && Better({1, 2}, score, 2) == {1};
  }
}
