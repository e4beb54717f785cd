// Why pruned top-k search is exact: the invariant of the WAND loop, stated on
// snapshots (which documents each cursor still has to deliver), and one lemma
// per kind of round.
module WandTheory {
  import opened Prelude
  import opened Sorting
  import opened Scorers

  type Snapshot = map<Scorer, set<DocId>>

  ghost function Rems(cs: seq<Scorer>): (m: Snapshot)
    reads cs
    ensures m.Keys == set c | c in cs
  {
    map c | c in cs :: c.rem
  }

  ghost function Share(m: Snapshot, d: DocId): Scorer -> real {
    (c: Scorer) => if c in m && d in m[c] then c.view.weight(d) else 0.0
  }

  // What d scores on the cursors that still have it.
  ghost function ScoreIn(cs: seq<Scorer>, m: Snapshot, d: DocId): real {
    SumBy(Share(m, d), cs)
  }

  ghost function Union(m: Snapshot): set<DocId> {
    set c, d | c in m && d in m[c] :: d
  }

  // What the run is about: the cursors, what they had to deliver at the
  // start, how many hits are wanted, and which documents may be hits.
  datatype Run = Run(cs: seq<Scorer>, start: Snapshot, k: nat, eligible: DocId -> bool)
  {
    ghost function Targets(): set<DocId> {
      set d | d in Union(start) && eligible(d)
    }

    ghost function TrueScore(): DocId -> real {
      (d: DocId) => ScoreIn(cs, start, d)
    }

    ghost predicate Ok() {
      && k > 0
      && start.Keys == (set c | c in cs)
      && (forall c :: c in cs ==> start[c] <= c.docs && TameOn(c.docs, c.view) && c.view.max == c.maxScore)
    }

    ghost predicate Sound() {
      forall c :: c in cs ==> SoundOn(c.docs, c.view)
    }

    // The cursors have only moved forward.
    ghost predicate Within(m: Snapshot) {
      m.Keys == start.Keys && forall c :: c in m ==> m[c] <= start[c]
    }

    // d is still ahead, at all it is worth.
    ghost predicate Whole(m: Snapshot, d: DocId) {
      d in Union(m) && ScoreIn(cs, m, d) == ScoreIn(cs, start, d)
    }

    ghost function Theta(heap: seq<Hit>): real {
      if |heap| == k && k > 0 then heap[0].score else 0.0
    }

    // The heap holds distinct targets that every cursor has left behind.
    ghost predicate HeapOk(m: Snapshot, heap: seq<Hit>) {
      && |heap| <= k
      && SortedBy(heap, ByScore)
      && DistinctDocs(heap)
      && HitDocs(heap) <= Targets()
      && (forall d, c :: d in HitDocs(heap) && c in m ==> d !in m[c])
      && (forall h :: h in heap ==> h.score >= 0.0)
    }

    // Every target is in the heap, still ahead at all it is worth, or passed
    // while the heap was full; a sure one that was passed scores no more than
    // the threshold.
    ghost predicate Accounted(m: Snapshot, heap: seq<Hit>, sure: set<DocId>) {
      forall d :: d in Targets() ==>
        d in HitDocs(heap) || Whole(m, d)
        || (|heap| == k && (d in sure ==> ScoreIn(cs, start, d) <= Theta(heap)))
    }

    // No hit is worth more than its document scores; a sure one, and any when
    // there is room for all targets, is worth just that.
    ghost predicate Scored(heap: seq<Hit>, sure: set<DocId>) {
      forall h :: h in heap ==>
        && h.score <= ScoreIn(cs, start, h.doc)
        && (h.doc in sure || |Targets()| <= k ==> h.score == ScoreIn(cs, start, h.doc))
    }

    ghost predicate Inv(m: Snapshot, heap: seq<Hit>, sure: set<DocId>) {
      Within(m) && HeapOk(m, heap) && Accounted(m, heap, sure) && Scored(heap, sure)
    }

    // To be sure of a document takes true bounds.
    ghost predicate MaySure(sure: set<DocId>) {
      sure == {} || Sound()
    }
  }

  // ---------------------------------------------------------------- scores

  lemma ScoreInLe(r: Run, m: Snapshot, d: DocId)
    requires r.Ok() && r.Within(m)
    ensures 0.0 <= ScoreIn(r.cs, m, d) <= ScoreIn(r.cs, r.start, d)
  {
    var zero := (c: Scorer) => 0.0;
    SumByZero(zero, r.cs);
    forall c | c in r.cs
      ensures 0.0 <= Share(m, d)(c) <= Share(r.start, d)(c)
    {
      assert m[c] <= r.start[c];
    }
    SumByLe(zero, Share(m, d), r.cs);
    SumByLe(Share(m, d), Share(r.start, d), r.cs);
  }

  // Nothing happened to d between the two snapshots.
  lemma WholeStays(r: Run, m: Snapshot, m': Snapshot, d: DocId)
    requires r.Whole(m, d) && m'.Keys == m.Keys && forall c :: c in m ==> (d in m'[c] <==> d in m[c])
    ensures r.Whole(m', d)
  {
    var c :| c in m && d in m[c];
    assert d in m'[c];
    SumBySame(Share(m, d), Share(m', d), r.cs);
  }

  // `live` are the cursors that are not exhausted.
  ghost predicate Live(r: Run, m: Snapshot, live: seq<Scorer>, gone: seq<Scorer>) {
    && multiset(live + gone) == multiset(r.cs)
    && (forall c :: c in live ==> c in r.cs)
    && (forall c :: c in gone ==> c in m && m[c] == {})
  }

  lemma ScoreInLive(r: Run, m: Snapshot, live: seq<Scorer>, gone: seq<Scorer>, d: DocId)
    requires Live(r, m, live, gone)
    ensures SumBy(Share(m, d), live) == ScoreIn(r.cs, m, d)
  {
    SumByPermutation(Share(m, d), live + gone, r.cs);
    SumByConcat(Share(m, d), live, gone);
    SumByZero(Share(m, d), gone);
  }

  // A bound on every cursor's share bounds the score.
  lemma ScoreInBound(r: Run, m: Snapshot, live: seq<Scorer>, gone: seq<Scorer>, d: DocId, bound: Scorer -> real)
    requires Live(r, m, live, gone)
    requires forall c :: c in live ==> Share(m, d)(c) <= bound(c)
    ensures ScoreIn(r.cs, m, d) <= SumBy(bound, live)
  {
    ScoreInLive(r, m, live, gone, d);
    SumByLe(Share(m, d), bound, live);
  }

  lemma ShareLe(r: Run, m: Snapshot, c: Scorer, d: DocId)
    requires r.Ok() && r.Sound() && r.Within(m) && c in r.cs
    ensures Share(m, d)(c) <= c.maxScore
  {
    assert m[c] <= r.start[c] <= c.docs;
    assert TameOn(c.docs, c.view) && SoundOn(c.docs, c.view);
  }

  lemma {:induction false} MaxSumNonNegative(r: Run, live: seq<Scorer>)
    requires r.Ok() && forall c :: c in live ==> c in r.cs
    ensures MaxSum(live) >= 0.0
  {
    if live != [] {
      MaxSumNonNegative(r, live[..|live| - 1]);
      assert live[|live| - 1] in live;
    }
  }

  // Cursors that have passed d, or never had it, add nothing.
  lemma FirstShares(m: Snapshot, live: seq<Scorer>, p: nat, d: DocId)
    requires p <= |live| && forall i :: p <= i < |live| ==> live[i] in m && d !in m[live[i]]
    ensures SumBy(Share(m, d), live) == SumBy(Share(m, d), live[..p])
  {
    SumByConcat(Share(m, d), live[..p], live[p..]);
    assert live[..p] + live[p..] == live;
    forall c | c in live[p..]
      ensures Share(m, d)(c) == 0.0
    {
      var i :| p <= i < |live| && live[i] == c;
    }
    SumByZero(Share(m, d), live[p..]);
  }

  // Before the pivot: only the first p cursors can have the document, and
  // together they cannot reach the threshold.
  lemma BelowPivot(r: Run, m: Snapshot, live: seq<Scorer>, gone: seq<Scorer>, p: nat, d: DocId)
    requires r.Ok() && r.Sound() && r.Within(m) && Live(r, m, live, gone) && p <= |live|
    requires forall i :: p <= i < |live| ==> live[i] in m && d !in m[live[i]]
    ensures ScoreIn(r.cs, m, d) <= MaxSum(live[..p])
  {
    hide TameOn, SoundOn, Run.Within, Run.Ok, Run.Sound, Share;
    ScoreInLive(r, m, live, gone, d);
    FirstShares(m, live, p, d);
    forall c | c in live[..p]
      ensures Share(m, d)(c) <= c.maxScore
    {
      assert c in live;
      PermutationMembers(live + gone, r.cs);
      assert c in live + gone;
      ShareLe(r, m, c, d);
    }
    SumByLe(Share(m, d), (c: Scorer) => c.maxScore, live[..p]);
  }

  // ---------------------------------------------------------------- rounds

  lemma HeapOkShrinks(r: Run, m: Snapshot, m': Snapshot, heap: seq<Hit>)
    requires r.HeapOk(m, heap)
    requires m'.Keys == m.Keys && forall c :: c in m ==> m'[c] <= m[c]
    ensures r.HeapOk(m', heap)
  {
  }

  // Lagging cursors jump to the pivot: only documents that cannot beat the
  // threshold are passed.
  lemma LaggardsAligned(r: Run, m: Snapshot, m': Snapshot, live: seq<Scorer>, gone: seq<Scorer>,
                        p: nat, pivotDoc: DocId, heap: seq<Hit>, sure: set<DocId>)
    requires r.Ok() && r.Inv(m, heap, sure) && r.MaySure(sure)
    requires Live(r, m, live, gone) && p <= |live|
    requires MaxSum(live[..p]) < r.Theta(heap)
    requires forall i, d :: p <= i < |live| && d in m[live[i]] ==> pivotDoc <= d
    requires m'.Keys == m.Keys && forall c :: c in m ==> From(m[c], pivotDoc) <= m'[c] <= m[c]
    ensures r.Inv(m', heap, sure)
  {
    hide TameOn, SoundOn, Run.HeapOk, MaxSum, Run.Whole, Run.Sound;
    HeapOkShrinks(r, m, m', heap);
    MaxSumNonNegative(r, live[..p]);
    forall d | d in r.Targets() && d !in HitDocs(heap) && !r.Whole(m', d)
      ensures d in sure ==> ScoreIn(r.cs, r.start, d) <= r.Theta(heap)
    {
      if d in sure && r.Whole(m, d) {
        var c := LostSome(r, m, m', d);
        assert d !in From(m[c], pivotDoc);
        WholeScore(r, m, d);
        BelowPivot(r, m, live, gone, p, d);
      }
    }
  }

  lemma WholeScore(r: Run, m: Snapshot, d: DocId)
    requires r.Whole(m, d)
    ensures ScoreIn(r.cs, m, d) == ScoreIn(r.cs, r.start, d) && d in Union(m)
  {
  }

  lemma Started(r: Run, sure: set<DocId>)
    requires r.Ok()
    ensures r.Inv(r.start, [], sure)
  {
  }

  // What is whole no more has been lost by some cursor.
  lemma LostSome(r: Run, m: Snapshot, m': Snapshot, d: DocId) returns (c: Scorer)
    requires r.Whole(m, d) && !r.Whole(m', d)
    requires m'.Keys == m.Keys && forall c :: c in m ==> m'[c] <= m[c]
    ensures c in m && d in m[c] && d !in m'[c]
  {
    hide Run.Whole;
    if forall c :: c in m ==> (d in m'[c] <==> d in m[c]) {
      WholeStays(r, m, m', d);
      assert false;
    }
    c :| c in m && d in m[c] && d !in m'[c];
  }

  // The cursors at d step past it; d was not a candidate, or lost to the heap.
  lemma PivotPassed(r: Run, m: Snapshot, m': Snapshot, d: DocId, heap: seq<Hit>, sure: set<DocId>)
    requires r.Ok() && r.Inv(m, heap, sure)
    requires m'.Keys == m.Keys && forall c :: c in m ==> m'[c] == m[c] - {d}
    requires r.eligible(d) ==> |heap| == r.k && ScoreIn(r.cs, m, d) <= r.Theta(heap)
    ensures r.Inv(m', heap, sure)
  {
    hide TameOn, Run.HeapOk, Run.Whole;
    HeapOkShrinks(r, m, m', heap);
    forall e | e in r.Targets() && e !in HitDocs(heap) && !r.Whole(m', e)
      ensures |heap| == r.k && (e in sure ==> ScoreIn(r.cs, r.start, e) <= r.Theta(heap))
    {
      if r.Whole(m, e) {
        var c := LostSome(r, m, m', e);
        WholeScore(r, m, d);
      }
    }
  }

  // The heap after a push: the same hits and one more.
  ghost predicate Pushed(base: seq<Hit>, hit: Hit, heap: seq<Hit>) {
    SortedBy(heap, ByScore) && multiset(heap) == multiset(base) + multiset{hit}
  }

  lemma PushedHits(base: seq<Hit>, hit: Hit, heap: seq<Hit>)
    requires Pushed(base, hit, heap) && DistinctDocs(base) && hit.doc !in HitDocs(base)
    ensures |heap| == |base| + 1 && DistinctDocs(heap)
    ensures HitDocs(heap) == HitDocs(base) + {hit.doc}
    ensures forall h :: h in heap <==> h in base || h == hit
  {
    var all := base + [hit];
    assert multiset(all) == multiset(heap);
    PermutationMembers(all, heap);
    assert forall h :: h in all <==> h in base || h == hit;
    DocsOfMembers(base, all, heap, hit);
    assert DistinctDocs(all);
    DistinctDocsPermuted(all, heap);
  }

  lemma DocsOfMembers(base: seq<Hit>, all: seq<Hit>, heap: seq<Hit>, hit: Hit)
    requires all == base + [hit] && forall h :: h in all <==> h in heap
    ensures HitDocs(heap) == HitDocs(base) + {hit.doc}
  {
    forall d
      ensures d in HitDocs(heap) <==> d in HitDocs(base) + {hit.doc}
    {
      assert d in HitDocs(heap) <==> exists h :: h in heap && h.doc == d;
      assert d in HitDocs(base) <==> exists h :: h in base && h.doc == d;
      if d == hit.doc {
        assert all[|base|] == hit;
      }
      if h :| h in base && h.doc == d {
        assert h in all;
      }
    }
  }

  lemma DistinctDocsPermuted(xs: seq<Hit>, ys: seq<Hit>)
    requires DistinctDocs(xs) && multiset(xs) == multiset(ys)
    ensures DistinctDocs(ys)
  {
    PermutationMembers(xs, ys);
    PermutationDistinct(xs, ys);
    forall i, j | 0 <= i < j < |ys|
      ensures ys[i].doc != ys[j].doc
    {
      assert ys[i] in xs && ys[j] in xs;
      var k, l :| 0 <= k < |xs| && 0 <= l < |xs| && xs[k] == ys[i] && xs[l] == ys[j];
      assert k < l || l < k;
    }
  }

  // A candidate meets a heap with room.
  lemma PivotKept(r: Run, m: Snapshot, m': Snapshot, d: DocId, heap: seq<Hit>, heap': seq<Hit>, sure: set<DocId>)
    requires r.Ok() && r.Inv(m, heap, sure) && |heap| < r.k
    requires d in Union(m) && r.eligible(d)
    requires Pushed(heap, Hit(d, ScoreIn(r.cs, m, d)), heap')
    requires m'.Keys == m.Keys && forall c :: c in m ==> m'[c] == m[c] - {d}
    ensures r.Inv(m', heap', sure)
  {
    hide TameOn, Run.Whole;
    var c0 :| c0 in m && d in m[c0];
    assert d in r.Targets() && d !in HitDocs(heap);
    PushedHits(heap, Hit(d, ScoreIn(r.cs, m, d)), heap');
    WholeScore(r, m, d);
    ScoreInLe(r, m, d);
    forall e | e in r.Targets() && e !in HitDocs(heap')
      ensures r.Whole(m', e)
    {
      if !r.Whole(m', e) {
        var c := LostSome(r, m, m', e);
      }
    }
  }

  // A candidate beats the weakest of a full heap and takes its place.
  lemma PivotReplaces(r: Run, m: Snapshot, m': Snapshot, d: DocId, heap: seq<Hit>, heap': seq<Hit>, sure: set<DocId>)
    requires r.Ok() && r.Inv(m, heap, sure) && |heap| == r.k
    requires d in Union(m) && r.eligible(d)
    requires ScoreIn(r.cs, m, d) > heap[0].score
    requires Pushed(heap[1..], Hit(d, ScoreIn(r.cs, m, d)), heap')
    requires m'.Keys == m.Keys && forall c :: c in m ==> m'[c] == m[c] - {d}
    ensures r.Inv(m', heap', sure)
  {
    hide TameOn, SoundOn, Run.Whole;
    var s := ScoreIn(r.cs, m, d);
    var c0 :| c0 in m && d in m[c0];
    assert d in r.Targets() && d !in HitDocs(heap);
    WeakestOut(heap);
    PushedHits(heap[1..], Hit(d, s), heap');
    ScoreInLe(r, m, d);
    RoomForOne(r, m, heap, d);
    if d in sure {
      if r.Whole(m, d) {
        WholeScore(r, m, d);
      }
      assert s == ScoreIn(r.cs, r.start, d);
    }
    ReplacedHeapOk(r, m, m', d, heap, heap');
    ReplacedScored(r, heap, heap', Hit(d, s), sure);
    ReplacedAccounted(r, m, m', d, heap, heap', sure);
  }

  lemma ReplacedAccounted(r: Run, m: Snapshot, m': Snapshot, d: DocId, heap: seq<Hit>, heap': seq<Hit>, sure: set<DocId>)
    requires r.Accounted(m, heap, sure) && r.Scored(heap, sure) && |heap| == |heap'| == r.k > 0
    requires HitDocs(heap') == HitDocs(heap) - {heap[0].doc} + {d}
    requires forall h :: h in heap' ==> heap[0].score <= h.score
    requires m'.Keys == m.Keys && forall c :: c in m ==> m'[c] == m[c] - {d}
    ensures r.Accounted(m', heap', sure)
  {
    hide Run.Whole, Run.Targets, ScoreIn;
    assert heap'[0] in heap' && heap[0] in heap;
    assert r.Theta(heap) <= r.Theta(heap');
    forall e | e in r.Targets() && e !in HitDocs(heap') && !r.Whole(m', e)
      ensures e in sure ==> ScoreIn(r.cs, r.start, e) <= r.Theta(heap')
    {
      if e in HitDocs(heap) {
        assert e == heap[0].doc;
      } else if r.Whole(m, e) {
        var c := LostSome(r, m, m', e);
      }
    }
  }

  lemma ReplacedHeapOk(r: Run, m: Snapshot, m': Snapshot, d: DocId, heap: seq<Hit>, heap': seq<Hit>)
    requires r.HeapOk(m, heap) && |heap| == |heap'| && d in r.Targets()
    requires SortedBy(heap', ByScore) && DistinctDocs(heap')
    requires HitDocs(heap') <= HitDocs(heap) + {d}
    requires forall h :: h in heap' ==> h.score >= 0.0
    requires m'.Keys == m.Keys && forall c :: c in m ==> m'[c] == m[c] - {d}
    ensures r.HeapOk(m', heap')
  {
    hide Run.Targets, SortedBy, DistinctDocs, HitDocs;
  }

  lemma ReplacedScored(r: Run, heap: seq<Hit>, heap': seq<Hit>, hit: Hit, sure: set<DocId>)
    requires r.Scored(heap, sure) && forall h :: h in heap' ==> h in heap || h == hit
    requires hit.score <= ScoreIn(r.cs, r.start, hit.doc)
    requires hit.doc in sure || |r.Targets()| <= r.k ==> hit.score == ScoreIn(r.cs, r.start, hit.doc)
    ensures r.Scored(heap', sure)
  {
    hide Run.Targets, ScoreIn;
  }

  // Popping a min-heap takes out its weakest hit.
  lemma WeakestOut(heap: seq<Hit>)
    requires heap != [] && SortedBy(heap, ByScore) && DistinctDocs(heap)
    ensures DistinctDocs(heap[1..]) && HitDocs(heap[1..]) == HitDocs(heap) - {heap[0].doc}
    ensures forall h :: h in heap[1..] ==> h in heap && heap[0].score <= h.score
    ensures heap[0].doc !in HitDocs(heap[1..])
  {
  }

  // A full heap that meets one more target: there are more than k targets.
  lemma RoomForOne(r: Run, m: Snapshot, heap: seq<Hit>, d: DocId)
    requires r.HeapOk(m, heap) && d in r.Targets() && d !in HitDocs(heap)
    ensures |r.Targets()| > |heap|
  {
    HitDocsCount(heap);
    SubsetCount(HitDocs(heap) + {d}, r.Targets());
  }

  ghost function EndOf(c: Scorer, at: map<Scorer, DocId>): DocId {
    if c in at then c.view.blockEnd(at[c]) else INVALID_DOC
  }

  ghost function BlockNow(at: map<Scorer, DocId>): Scorer -> real {
    (c: Scorer) => if c in at then c.view.blockMax(at[c]) else 0.0
  }

  // No document that two cursors share lies inside the block one of them is
  // in and beyond the block the other is in, where they know their blocks.
  ghost predicate NothingSplit(m: Snapshot, live: seq<Scorer>, at: map<Scorer, DocId>) {
    forall a, b, d :: a in live && b in live && Shared(m, a, b, d) ==> !Splits(at, a, b, d)
  }

  ghost predicate Shared(m: Snapshot, a: Scorer, b: Scorer, d: DocId) {
    a in m && b in m && d in m[a] && d in m[b]
  }

  // d lies inside the block of b and beyond the block of a.
  ghost predicate Splits(at: map<Scorer, DocId>, a: Scorer, b: Scorer, d: DocId) {
    EndOf(a, at) < d <= EndOf(b, at) && EndOf(b, at) != INVALID_DOC
  }

  // Between the snapshots d is torn: one cursor loses it, and what it is
  // worth there, while another that knows its block keeps it.
  ghost predicate Torn(m: Snapshot, m': Snapshot, live: seq<Scorer>, at: map<Scorer, DocId>, d: DocId) {
    (exists a :: a in live && Loses(m, m', a, d) && a.view.weight(d) > 0.0)
    && exists b :: b in live && b in m' && d in m'[b] && EndOf(b, at) != INVALID_DOC
  }

  ghost predicate Loses(m: Snapshot, m': Snapshot, a: Scorer, d: DocId) {
    a in m && d in m[a] && !(a in m' && d in m'[a])
  }

  // A whole-block skip. The block bounds of the live cursors cannot reach the
  // threshold; nothing that the skip passes without tearing it can.
  lemma BlocksSkipped(r: Run, m: Snapshot, m': Snapshot, live: seq<Scorer>, gone: seq<Scorer>,
                      at: map<Scorer, DocId>, heap: seq<Hit>, sure: set<DocId>)
    requires r.Ok() && r.Inv(m, heap, sure) && r.MaySure(sure)
    requires forall d :: d in sure ==> !Torn(m, m', live, at, d)
    requires Live(r, m, live, gone)
    requires forall c :: c in live ==> c in at && AtMin(at[c], m[c]) && at[c] != INVALID_DOC
    requires SumBy(BlockNow(at), live) < r.Theta(heap)
    requires m'.Keys == m.Keys && forall c :: c in m ==> m'[c] <= m[c]
    requires forall c, d :: c in m && d in m[c] && d !in m'[c] ==>
               c in live && d <= EndOf(c, at) && EndOf(c, at) != INVALID_DOC
    ensures r.Inv(m', heap, sure)
  {
    hide Run.HeapOk, EndOf, Torn, Run.Whole, Run.Sound, Run.Ok;
    HeapOkShrinks(r, m, m', heap);
    BlockNowNonNegative(r, m, live, at);
    forall d | d in r.Targets() && d !in HitDocs(heap) && !r.Whole(m', d)
      ensures d in sure ==> ScoreIn(r.cs, r.start, d) <= r.Theta(heap)
    {
      if d in sure && r.Whole(m, d) {
        WholeScore(r, m, d);
        PassedWhole(r, m, m', live, gone, at, d);
        InBlock(r, m, live, gone, at, d);
      }
    }
  }

  // A document that a skip makes less than whole, and does not tear, lies in
  // the blocks of all cursors that had it.
  lemma PassedWhole(r: Run, m: Snapshot, m': Snapshot, live: seq<Scorer>, gone: seq<Scorer>, at: map<Scorer, DocId>, d: DocId)
    requires r.Ok() && r.Within(m) && Live(r, m, live, gone) && r.Whole(m, d) && !r.Whole(m', d) && !Torn(m, m', live, at, d)
    requires m'.Keys == m.Keys && forall c :: c in m ==> m'[c] <= m[c]
    requires forall c, d :: c in m && d in m[c] && d !in m'[c] ==>
               c in live && d <= EndOf(c, at) && EndOf(c, at) != INVALID_DOC
    ensures forall c :: c in live && c in m && d in m[c] ==> d <= EndOf(c, at)
  {
    hide EndOf;
    forall c | c in live && c in m && d in m[c]
      ensures d <= EndOf(c, at)
    {
      assert d in r.start[c] && d in c.docs;
      if d in m'[c] && EndOf(c, at) != INVALID_DOC {
        WorthlessLost(r, m, m', d);
        assert false;
      }
    }
  }

  // Cursors at which d is worth nothing can lose it.
  lemma WorthlessLost(r: Run, m: Snapshot, m': Snapshot, d: DocId)
    requires r.Ok() && r.Within(m) && r.Whole(m, d) && d in Union(m')
    requires m'.Keys == m.Keys && forall c :: c in m ==> m'[c] <= m[c]
    requires forall c :: c in m && Loses(m, m', c, d) ==> c.view.weight(d) <= 0.0
    ensures r.Whole(m', d)
  {
    forall c | c in r.cs
      ensures Share(m', d)(c) == Share(m, d)(c)
    {
      assert m[c] <= r.start[c] <= c.docs;
      if d in m[c] && d !in m'[c] {
        assert Loses(m, m', c, d) && TameOn(c.docs, c.view);
      }
    }
    SumBySame(Share(m', d), Share(m, d), r.cs);
  }

  // Without a split nothing is torn.
  lemma UnsplitUntorn(m: Snapshot, m': Snapshot, live: seq<Scorer>, at: map<Scorer, DocId>, d: DocId)
    requires NothingSplit(m, live, at)
    requires m'.Keys == m.Keys && forall c :: c in m ==> m'[c] <= m[c]
    requires forall c :: c in live && c in m && EndOf(c, at) != INVALID_DOC ==> m'[c] == From(m[c], EndOf(c, at) + 1)
    requires forall c :: c in live && c in m && EndOf(c, at) == INVALID_DOC ==> m'[c] == m[c]
    ensures !Torn(m, m', live, at, d)
  {
    forall a, b | a in live && b in live && Loses(m, m', a, d) && b in m' && d in m'[b] && EndOf(b, at) != INVALID_DOC
      ensures false
    {
      assert Shared(m, b, a, d) && Splits(at, b, a, d);
    }
  }

  lemma BlockNowNonNegative(r: Run, m: Snapshot, live: seq<Scorer>, at: map<Scorer, DocId>)
    requires r.Ok() && r.Within(m)
    requires forall c :: c in live ==> c in r.cs && c in at && at[c] in m[c]
    ensures SumBy(BlockNow(at), live) >= 0.0
  {
    var zero := (c: Scorer) => 0.0;
    SumByZero(zero, live);
    forall c | c in live
      ensures 0.0 <= BlockNow(at)(c)
    {
      assert m[c] <= r.start[c] <= c.docs;
    }
    SumByLe(zero, BlockNow(at), live);
  }

  // A document inside the blocks of all cursors that have it is bounded by
  // the block bounds.
  lemma InBlock(r: Run, m: Snapshot, live: seq<Scorer>, gone: seq<Scorer>, at: map<Scorer, DocId>, d: DocId)
    requires r.Ok() && r.Sound() && r.Within(m) && Live(r, m, live, gone)
    requires forall c :: c in live ==> c in at && AtMin(at[c], m[c]) && at[c] != INVALID_DOC
    requires forall c :: c in live && c in m && d in m[c] ==> d <= EndOf(c, at)
    ensures ScoreIn(r.cs, m, d) <= SumBy(BlockNow(at), live)
  {
    forall c | c in live
      ensures Share(m, d)(c) <= BlockNow(at)(c)
    {
      assert m[c] <= r.start[c] <= c.docs;
      assert at[c] in c.docs;
      assert TameOn(c.docs, c.view) && SoundOn(c.docs, c.view);
      if d in m[c] {
        assert at[c] <= d <= c.view.blockEnd(at[c]);
      }
    }
    ScoreInBound(r, m, live, gone, d, BlockNow(at));
  }

  // ---------------------------------------------------------------- result

  function Reversed<T>(xs: seq<T>): (ys: seq<T>)
    ensures |ys| == |xs| && forall i :: 0 <= i < |xs| ==> ys[i] == xs[|xs| - 1 - i]
  {
    if xs == [] then [] else [xs[|xs| - 1]] + Reversed(xs[..|xs| - 1])
  }

  lemma ReversedHits(heap: seq<Hit>)
    requires SortedBy(heap, ByScore) && DistinctDocs(heap)
    ensures NonIncreasing(Reversed(heap)) && DistinctDocs(Reversed(heap))
    ensures HitDocs(Reversed(heap)) == HitDocs(heap)
  {
    var hits := Reversed(heap);
    forall d | d in HitDocs(heap)
      ensures d in HitDocs(hits)
    {
      var i :| 0 <= i < |heap| && heap[i].doc == d;
      assert hits[|heap| - 1 - i].doc == d;
    }
    forall i, j | 0 <= i < j < |hits|
      ensures hits[i].score >= hits[j].score
    {
      assert ByScore(heap[|heap| - 1 - j]) <= ByScore(heap[|heap| - 1 - i]);
    }
  }

  lemma WeakestFirst(heap: seq<Hit>)
    requires heap != [] && SortedBy(heap, ByScore)
    ensures forall h :: h in heap ==> heap[0].score <= h.score
  {
  }

  lemma RankedTopK(heap: seq<Hit>, docs: set<DocId>, score: DocId -> real, k: nat)
    requires SortedBy(heap, ByScore) && DistinctDocs(heap) && HitDocs(heap) <= docs
    requires |heap| == if |docs| < k then |docs| else k
    requires forall h :: h in heap ==> h.score == score(h.doc)
    requires heap != [] ==> forall d :: d in docs && d !in HitDocs(heap) ==> score(d) <= heap[0].score
    ensures IsTopK(Reversed(heap), docs, score, k)
  {
    ReversedHits(heap);
    forall i | 0 <= i < |heap|
      ensures Reversed(heap)[i] in heap
    {
    }
    if heap != [] {
      WeakestFirst(heap);
    }
  }

  // With every cursor exhausted a target is in the heap or lost to it.
  lemma NothingAhead(r: Run, m: Snapshot, heap: seq<Hit>, sure: set<DocId>)
    requires r.Within(m) && r.Accounted(m, heap, sure) && |heap| <= r.k && forall c :: c in m ==> m[c] == {}
    ensures forall d :: d in r.Targets() && d !in HitDocs(heap) ==>
              |heap| == r.k && (d in sure ==> ScoreIn(r.cs, r.start, d) <= r.Theta(heap))
  {
    hide ScoreIn, HitDocs;
    forall d | d in r.Targets() && d !in HitDocs(heap)
      ensures !r.Whole(m, d)
    {
    }
  }

  // The documents in `sure` are ranked as they should be: a hit is worth what
  // its document scores, and one left out scores no more than any hit.
  ghost predicate RightAbout(r: Run, hits: seq<Hit>, sure: set<DocId>) {
    && (forall h :: h in hits && h.doc in sure ==> h.score == ScoreIn(r.cs, r.start, h.doc))
    && (forall d, h :: d in sure && d in r.Targets() && d !in HitDocs(hits) && h in hits ==> ScoreIn(r.cs, r.start, d) <= h.score)
  }

  // Once every cursor is exhausted the heap, best first, is the answer.
  lemma Finished(r: Run, m: Snapshot, heap: seq<Hit>, sure: set<DocId>)
    requires r.Ok() && r.Inv(m, heap, sure) && forall c :: c in m ==> m[c] == {}
    ensures NonIncreasing(Reversed(heap)) && DistinctDocs(Reversed(heap))
    ensures HitDocs(Reversed(heap)) <= r.Targets()
    ensures forall h :: h in Reversed(heap) ==> h in heap && 0.0 <= h.score <= ScoreIn(r.cs, r.start, h.doc)
    ensures |heap| == if |r.Targets()| < r.k then |r.Targets()| else r.k
    ensures RightAbout(r, Reversed(heap), sure)
    ensures r.Targets() <= sure || |r.Targets()| <= r.k ==> IsTopK(Reversed(heap), r.Targets(), r.TrueScore(), r.k)
  {
    hide TameOn, IsTopK, NonIncreasing, DistinctDocs, ScoreIn, Run.Targets, Run.Accounted;
    ReversedHits(heap);
    HitDocsCount(heap);
    SubsetCount(HitDocs(heap), r.Targets());
    forall h | h in Reversed(heap)
      ensures h in heap
    {
    }
    NothingAhead(r, m, heap, sure);
    if heap != [] {
      WeakestFirst(heap);
    }
    if |heap| < r.k {
      assert HitDocs(heap) == r.Targets();
    }
    if r.Targets() <= sure || |r.Targets()| <= r.k {
      HitsAreTargets(r, heap);
      RankedTopK(heap, r.Targets(), r.TrueScore(), r.k);
    }
  }

  lemma HitsAreTargets(r: Run, heap: seq<Hit>)
    requires HitDocs(heap) <= r.Targets()
    ensures forall h :: h in heap ==> h.doc in r.Targets()
  {
    forall h | h in heap
      ensures h.doc in HitDocs(heap)
    {
    }
  }
}
