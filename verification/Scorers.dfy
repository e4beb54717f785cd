// The scorer tree: term cursors, zigzag conjunctions, exclusions and ranked
// unions behind one cursor contract. A scorer is the set `rem` of documents
// it still has to deliver plus an immutable view that says what each document
// scores and how scores are bounded, overall and per block.
module Scorers {
  import opened Prelude
  import opened Sorting
  import opened Bm25
  import opened Postings

  // How a cursor scores, and what bounds it advertises while it stands at a
  // document: blockMax is claimed for everything up to blockEnd.
  datatype View = View(weight: DocId -> real, max: real, blockMax: DocId -> real, blockEnd: DocId -> DocId)

  // Nothing scores below zero, a block reaches at least to the document the
  // cursor is at, and a cursor that does not know its block end advertises
  // its list bound.
  ghost predicate TameOn(docs: set<DocId>, v: View) {
    && 0.0 <= v.max
    && (forall d :: d in docs ==> d < INVALID_DOC && 0.0 <= v.weight(d) && 0.0 <= v.blockMax(d))
    && (forall d :: d in docs ==> d <= v.blockEnd(d) <= INVALID_DOC)
    && (forall d :: d in docs && v.blockEnd(d) == INVALID_DOC ==> v.blockMax(d) == v.max)
  }

  // The advertised bounds are true of the documents `docs`: no document beats
  // the list bound, and none up to the block end beats the block bound.
  ghost predicate SoundOn(docs: set<DocId>, v: View) {
    && (forall d :: d in docs ==> v.weight(d) <= v.max)
    && (forall d, e :: d in docs && e in docs && d <= e <= v.blockEnd(d) ==> v.weight(e) <= v.blockMax(d))
  }

  // What a term needs to know to score: its inverse document frequency and
  // the field lengths of the segment.
  datatype TermStats = TermStats(idf: real, listUb: real, avgdl: real, docLen: DocId -> nat)
  {
    predicate NonNegative() {
      idf >= 0.0 && listUb >= 0.0 && avgdl >= 0.0
    }

    function Score(tf: nat, d: DocId): (s: real)
      requires NonNegative()
      ensures s >= 0.0
    {
      if idf == 0.0 then 0.0 else TfNorm(tf, LenFactor(docLen(d), avgdl)) * idf
    }
  }

  datatype Kind = Term | Conjunction | Exclusion | Wand

  class Scorer {
    const kind: Kind
    const maxScore: real
    const stats: TermStats
    const iter: PostingCursor?
    const children: seq<Scorer>
    const docOrder: seq<Hit>
    const scoreOrder: seq<Hit>
    var curDoc: DocId
    var curIdx: nat

    ghost const view: View
    ghost const docs: set<DocId>
    ghost const Repr: set<object>
    ghost var rem: set<DocId>

    // A term cursor keeps a copy of its posting cursor's document.
    function Doc(): DocId
      reads this
    {
      curDoc
    }

    // The parts are ours alone: the children are valid and share no state.
    ghost predicate Owns()
      reads Repr - {this}
      decreases Repr, 0
    {
      && this in Repr
      && IterRepr(iter) <= Repr
      && (forall i :: 0 <= i < |children| ==>
            children[i] in Repr && children[i].Repr <= Repr - {this} && children[i].Valid())
      && (forall i, j :: 0 <= i < j < |children| ==> children[i].Repr !! children[j].Repr)
    }

    // What never changes: how this scorer's view is put together.
    ghost predicate Fixed() {
      && TameOn(docs, view)
      && (forall d :: d in docs ==> d < INVALID_DOC)
      && view.max == maxScore
      && (kind == Term || kind == Wand ==> children == [])
      && (iter != null <==> kind == Term)
      && match kind
         case Term =>
           stats.NonNegative() && view == TermView(stats, iter.list)
         case Conjunction => |children| > 0 && view == MeetView(children)
         case Exclusion => |children| == 2 && view == OpaqueBlocks(children[0].view)
         case Wand =>
           && SortedBy(docOrder, ByDoc)
           && DistinctDocs(docOrder)
           && multiset(docOrder) == multiset(scoreOrder)
           && (forall h :: h in docOrder ==> view.weight(h.doc) == h.score)
           && (forall d :: view.blockMax(d) == maxScore && view.blockEnd(d) == INVALID_DOC)
    }

    // What is left to deliver, in terms of what the parts have left.
    ghost predicate Linked()
      requires Fixed()
      reads this, IterRepr(iter), children
    {
      && rem <= docs
      && match kind
         case Term => iter.Valid() && rem == iter.Rem() && curDoc == iter.Doc()
         case Conjunction => rem == Meet()
         case Exclusion => rem == children[0].rem - children[1].rem
         case Wand => curIdx <= |docOrder| && rem == HitDocs(docOrder[curIdx..])
    }

    ghost function Meet(): set<DocId>
      requires |children| > 0
      reads children
    {
      MeetOf(children)
    }

    // The scorer stands on its first remaining document.
    ghost predicate Aligned()
      reads this, children
    {
      && AtMin(curDoc, rem)
      && (kind == Conjunction && curDoc != INVALID_DOC ==>
            forall i :: 0 <= i < |children| ==> AtMin(curDoc, children[i].rem))
      && (kind == Exclusion ==> |children| == 2 && AtMin(curDoc, children[0].rem))
    }

    ghost predicate Valid()
      reads this, Repr
      decreases Repr, 1
      ensures Valid() ==> this in Repr && AtMin(Doc(), rem)
    {
      Owns() && Fixed() && Linked() && Aligned()
    }

    // ------------------------------------------------------------ construction

    // A term cursor owns its posting cursor.
    constructor TermScorer(stats: TermStats, iter: PostingCursor)
      requires stats.NonNegative() && iter.Valid()
      ensures Valid() && fresh(Repr - iter.Repr()) && kind == Term
      ensures docs == rem == iter.Rem() && view == TermView(stats, iter.list)
    {
      hide TameOn, PostingCursor.Valid, PostingCursor.Rem, MaxSum, MinEnd, SumBy, WeightAt, BlockMaxAt, HitDocs, SortedBy,
           DistinctDocs, TermView, MeetView, MeetOf, OpaqueBlocks;
      this.kind, this.stats, this.iter := Term, stats, iter;
      this.maxScore := stats.listUb;
      this.children, this.docOrder, this.scoreOrder := [], [], [];
      this.curDoc, this.curIdx := iter.Doc(), 0;
      this.view := TermView(stats, iter.list);
      this.docs := iter.Rem();
      this.rem := iter.Rem();
      iter.RemInList();
      TermTame(stats, iter.list, iter.Rem());
      this.Repr := {this} + iter.Repr();
      new;
      assert Owns() && Fixed();
      assert iter.Valid() && rem == iter.Rem();
      assert Linked();
      assert Aligned();
    }

    // A conjunction over the given children, not yet aligned to a document.
    constructor Conjoin(cs: seq<Scorer>)
      requires |cs| > 0 && Forest(cs)
      ensures Owns() && Fixed() && Linked() && kind == Conjunction && children == cs
      ensures docs == rem == MeetOf(cs) && curDoc == INVALID_DOC && view == MeetView(cs)
      ensures Repr == {this} + ReprOf(cs)
    {
      hide TameOn, AtMin, PostingCursor.Valid, PostingCursor.Rem, MaxSum, MinEnd, SumBy, WeightAt, BlockMaxAt, HitDocs, SortedBy, DistinctDocs;
      this.kind, this.stats, this.iter := Conjunction, TermStats(0.0, 0.0, 0.0, (d: DocId) => 0), null;
      this.maxScore := MaxSum(cs);
      this.children, this.docOrder, this.scoreOrder := cs, [], [];
      this.curDoc, this.curIdx := INVALID_DOC, 0;
      this.view := MeetView(cs);
      this.docs := MeetOf(cs);
      this.rem := MeetOf(cs);
      MeetTame(cs, MeetOf(cs));
      this.Repr := {this} + ReprOf(cs);
      new;
      assert Owns();
      assert Fixed();
    }

    // Main minus excluded, not yet aligned to a document.
    constructor Exclude(main: Scorer, excluded: Scorer)
      requires Forest([main, excluded])
      ensures Owns() && Fixed() && Linked() && kind == Exclusion && children == [main, excluded]
      ensures docs == rem == main.rem - excluded.rem && curDoc == INVALID_DOC
      ensures Repr == {this} + main.Repr + excluded.Repr
    {
      hide TameOn, AtMin, PostingCursor.Valid, PostingCursor.Rem, MaxSum, MinEnd, SumBy, WeightAt, BlockMaxAt, HitDocs, SortedBy, DistinctDocs;
      this.kind, this.stats, this.iter := Exclusion, TermStats(0.0, 0.0, 0.0, (d: DocId) => 0), null;
      this.maxScore := main.maxScore;
      this.children, this.docOrder, this.scoreOrder := [main, excluded], [], [];
      this.curDoc, this.curIdx := INVALID_DOC, 0;
      this.view := OpaqueBlocks(main.view);
      this.docs := main.rem - excluded.rem;
      this.rem := main.rem - excluded.rem;
      ForestPair(main, excluded);
      OpaqueTame(main.docs, main.rem - excluded.rem, main.view);
      this.Repr := {this} + main.Repr + excluded.Repr;
      new;
      assert Owns();
      assert Fixed();
    }

    method AlignExclusion()
      requires Owns() && Fixed() && Linked() && kind == Exclusion && curDoc == INVALID_DOC
      modifies Repr
      ensures Valid() && rem == old(rem)
      decreases Repr, 3
    {
      hide TameOn, PostingCursor.Valid, PostingCursor.Rem, MaxSum, MinEnd, SumBy, WeightAt, BlockMaxAt;
      var cur := INVALID_DOC;
      if children[0].Doc() != INVALID_DOC {
        cur := SkipExcluded();
      }
      Settle(cur, children[0].rem - children[1].rem);
    }

    // A ranked union that has already been run: its hits, by score and by
    // document, and what they are worth.
    constructor FromHits(scoreOrder: seq<Hit>, docOrder: seq<Hit>, maxScore: real, ghost weight: DocId -> real)
      requires SortedBy(docOrder, ByDoc) && DistinctDocs(docOrder)
      requires multiset(docOrder) == multiset(scoreOrder)
      requires forall h :: h in docOrder ==> h.doc < INVALID_DOC && weight(h.doc) == h.score >= 0.0
      requires maxScore >= 0.0
      ensures Valid() && fresh(Repr) && kind == Wand
      ensures docs == rem == HitDocs(docOrder)
      ensures this.scoreOrder == scoreOrder && this.docOrder == docOrder && this.maxScore == maxScore
      ensures view == View(weight, maxScore, (d: DocId) => maxScore, (d: DocId) => INVALID_DOC)
    {
      hide TameOn, PostingCursor.Valid, PostingCursor.Rem, MaxSum, MinEnd, SumBy, WeightAt, BlockMaxAt, HitDocs, SortedBy,
           DistinctDocs, TermView, MeetView, MeetOf, OpaqueBlocks;
      this.kind, this.stats, this.iter := Wand, TermStats(0.0, 0.0, 0.0, (d: DocId) => 0), null;
      this.maxScore := maxScore;
      this.children, this.docOrder, this.scoreOrder := [], docOrder, scoreOrder;
      this.curDoc := if docOrder == [] then INVALID_DOC else docOrder[0].doc;
      this.curIdx := 0;
      this.view := View(weight, maxScore, (d: DocId) => maxScore, (d: DocId) => INVALID_DOC);
      this.docs := HitDocs(docOrder);
      this.rem := HitDocs(docOrder);
      this.Repr := {this};
      HitsFirst(docOrder, 0);
      HitsTame(docOrder, maxScore, weight);
      assert docOrder[0..] == docOrder;
      new;
      assert Owns();
      assert Fixed();
      assert Linked();
    }

    method Align()
      requires Owns() && Fixed() && Linked() && kind == Conjunction && curDoc == INVALID_DOC
      modifies Repr
      ensures Valid() && rem == old(rem)
      decreases Repr, 5
    {
      hide TameOn, PostingCursor.Valid, PostingCursor.Rem, MaxSum, MinEnd, SumBy, WeightAt, BlockMaxAt, HitDocs, SortedBy, DistinctDocs;
      var cur := FirstMeeting();
      Settle(cur, Meet());
    }

    // An exhausted child leaves the conjunction empty; otherwise find the
    // first document all children share.
    method FirstMeeting() returns (cur: DocId)
      requires Owns() && |children| > 0
      modifies Repr - {this}
      ensures Owns() && Meet() == old(Meet()) && AtMin(cur, Meet())
      ensures cur != INVALID_DOC ==> forall i :: 0 <= i < |children| ==> AtMin(cur, children[i].rem)
      decreases Repr, 4
    {
      hide Valid, Fixed, Linked;
      for i := 0 to |children| {
        if children[i].Doc() == INVALID_DOC {
          assert children[i].rem == {};
          return INVALID_DOC;
        }
      }
      cur := DoNext();
    }

    // ------------------------------------------------------------ movement

    // Move one child; the other children do not notice.
    method AdvanceChild(i: nat, target: DocId) returns (ok: bool)
      requires Owns() && i < |children|
      modifies children[i].Repr
      ensures Owns()
      ensures children[i].rem == From(old(children[i].rem), target)
      ensures ok == (children[i].Doc() != INVALID_DOC)
      ensures forall j :: 0 <= j < |children| && j != i ==> children[j].rem == old(children[j].rem)
      decreases Repr, 0
    {
      hide Valid, Fixed, Linked;
      ok := children[i].Advance(target);
    }

    // The same, seen from the intersection.
    method AdvanceMeet(i: nat, target: DocId) returns (ok: bool)
      requires Owns() && i < |children|
      modifies children[i].Repr
      ensures Owns()
      ensures children[i].rem == From(old(children[i].rem), target)
      ensures ok == (children[i].Doc() != INVALID_DOC)
      ensures forall j :: 0 <= j < |children| && j != i ==> children[j].rem == old(children[j].rem)
      ensures Meet() == From(old(Meet()), target)
      decreases Repr, 1
    {
      hide Valid, Fixed, Linked;
      ok := AdvanceChild(i, target);
    }

    method NextChild(i: nat) returns (ok: bool)
      requires Owns() && i < |children| && children[i].Doc() != INVALID_DOC
      modifies children[i].Repr
      ensures Owns()
      ensures children[i].rem == old(children[i].rem) - {old(children[i].Doc())}
      ensures ok == (children[i].Doc() != INVALID_DOC)
      ensures forall j :: 0 <= j < |children| && j != i ==> children[j].rem == old(children[j].rem)
      decreases Repr, 0
    {
      hide Valid, Fixed, Linked;
      ok := children[i].Next();
    }

    // ------------------------------------------------------------ scoring

    // The exact score of the current document.
    method Score() returns (s: real)
      requires Valid() && Doc() != INVALID_DOC
      ensures s == view.weight(Doc())
      decreases Repr, 1
    {
      hide TameOn, HitDocs, SortedBy, DistinctDocs, PostingCursor.Valid, PostingCursor.Rem, MaxSum, MinEnd, SumBy, WeightAt, BlockMaxAt;
      match kind
      case Term =>
        var tf := iter.Tf();
        s := stats.Score(tf, curDoc);
      case Conjunction =>
        s := SumScores();
      case Exclusion =>
        s := children[0].Score();
      case Wand =>
        s := ScoreHit();
    }

    method ScoreHit() returns (s: real)
      requires kind == Wand && Valid() && Doc() != INVALID_DOC
      ensures s == view.weight(Doc())
    {
      hide TameOn, PostingCursor.Valid, PostingCursor.Rem, MaxSum, MinEnd, SumBy, WeightAt, BlockMaxAt;
      HitsFirst(docOrder, curIdx);
      assert docOrder[curIdx] in docOrder;
      s := docOrder[curIdx].score;
    }

    method SumScores() returns (s: real)
      requires Owns() && curDoc != INVALID_DOC
      requires forall i :: 0 <= i < |children| ==> AtMin(curDoc, children[i].rem)
      ensures s == SumBy(WeightAt(curDoc), children)
      decreases Repr, 0
    {
      hide Valid, Fixed, Linked;
      s := 0.0;
      for i := 0 to |children|
        invariant s == SumBy(WeightAt(curDoc), children[..i])
      {
        var t := children[i].Score();
        s := s + t;
        SumByStep(WeightAt(curDoc), children, i);
      }
      assert children[..|children|] == children;
    }

    method BlockMaxScore() returns (b: real)
      requires Valid() && Doc() != INVALID_DOC
      ensures b == view.blockMax(Doc())
      decreases Repr, 1
    {
      hide TameOn, PostingCursor.Valid, PostingCursor.Rem, MaxSum, MinEnd, SumBy, WeightAt, BlockMaxAt, HitDocs, SortedBy, DistinctDocs;
      match kind
      case Term =>
        b := iter.BlockMaxScore();
        b := b * stats.idf;
      case Conjunction => b := SumBlocks();
      case Exclusion => b := maxScore;
      case Wand => b := maxScore;
    }

    method SumBlocks() returns (b: real)
      requires Owns() && curDoc != INVALID_DOC
      requires forall i :: 0 <= i < |children| ==> AtMin(curDoc, children[i].rem)
      ensures b == SumBy(BlockMaxAt(curDoc), children)
      decreases Repr, 0
    {
      hide Valid, Fixed, Linked;
      b := 0.0;
      for i := 0 to |children|
        invariant b == SumBy(BlockMaxAt(curDoc), children[..i])
      {
        var t := children[i].BlockMaxScore();
        b := b + t;
        SumByStep(BlockMaxAt(curDoc), children, i);
      }
      assert children[..|children|] == children;
    }

    method BlockMaxDocId() returns (e: DocId)
      requires Valid() && Doc() != INVALID_DOC
      ensures e == view.blockEnd(Doc())
      decreases Repr, 1
    {
      hide TameOn, PostingCursor.Valid, PostingCursor.Rem, MaxSum, MinEnd, SumBy, WeightAt, BlockMaxAt, HitDocs, SortedBy, DistinctDocs;
      match kind
      case Term => e := iter.BlockMaxDocId();
      case Conjunction => e := FirstEnd();
      case Exclusion => e := INVALID_DOC;
      case Wand => e := INVALID_DOC;
    }

    method FirstEnd() returns (e: DocId)
      requires Owns() && curDoc != INVALID_DOC
      requires forall i :: 0 <= i < |children| ==> AtMin(curDoc, children[i].rem)
      ensures e == MinEnd(children, curDoc)
      decreases Repr, 0
    {
      hide Valid, Fixed, Linked;
      e := INVALID_DOC;
      for i := 0 to |children|
        invariant e == MinEnd(children[..i], curDoc)
      {
        var t := children[i].BlockMaxDocId();
        if t < e {
          e := t;
        }
        MinEndStep(children, i, curDoc);
      }
      assert children[..|children|] == children;
    }

    // Record where the children left the scorer.
    method Settle(cur: DocId, ghost left: set<DocId>)
      requires Owns()
      modifies this`rem, this`curDoc
      ensures Owns() && rem == left && curDoc == cur
    {
      hide Valid, Fixed, Linked;
      rem, curDoc := left, cur;
    }

    // Move to the first remaining document at or after target.
    method Advance(target: DocId) returns (ok: bool)
      requires Valid()
      modifies Repr
      ensures Valid()
      ensures rem == From(old(rem), target)
      ensures ok == (Doc() != INVALID_DOC)
      decreases Repr, 6
    {
      hide TameOn, PostingCursor.Valid, PostingCursor.Rem, MaxSum, MinEnd, SumBy, WeightAt, BlockMaxAt, HitDocs, SortedBy, DistinctDocs;
      match kind {
        case Term => AdvanceTerm(target);
        case Conjunction => AdvanceConjunction(target);
        case Exclusion => AdvanceExclusion(target);
        case Wand => AdvanceHits(target);
      }
      ok := Doc() != INVALID_DOC;
    }

    method AdvanceTerm(target: DocId)
      requires kind == Term && Valid()
      modifies Repr
      ensures Valid()
      ensures rem == From(old(rem), target)
    {
      hide TameOn, PostingCursor.Valid, PostingCursor.Rem, MaxSum, MinEnd, SumBy, WeightAt, BlockMaxAt, HitDocs, SortedBy,
           DistinctDocs, TermView, MeetView, MeetOf, OpaqueBlocks, PostingCursor.Repr;
      var ok := iter.Advance(target);
      curDoc, rem := iter.Doc(), iter.Rem();
    }

    method AdvanceConjunction(target: DocId)
      requires Owns() && |children| > 0
      modifies Repr
      ensures Owns()
      ensures rem == Meet() == From(old(Meet()), target)
      ensures AtMin(curDoc, rem)
      ensures curDoc != INVALID_DOC ==> forall i :: 0 <= i < |children| ==> AtMin(curDoc, children[i].rem)
      decreases Repr, 4
    {
      hide Valid, Fixed, Linked;
      var ok := AdvanceMeet(0, target);
      var cur := INVALID_DOC;
      if ok {
        cur := DoNext();
      }
      Settle(cur, Meet());
    }

    method AdvanceExclusion(target: DocId)
      requires Owns() && |children| == 2
      requires AtMin(curDoc, children[0].rem)
      modifies Repr
      ensures Owns()
      ensures rem == children[0].rem - children[1].rem == From(old(children[0].rem - children[1].rem), target)
      ensures AtMin(curDoc, children[0].rem) && AtMin(curDoc, rem)
      decreases Repr, 3
    {
      hide Valid, Fixed, Linked;
      var cur := INVALID_DOC;
      if curDoc != INVALID_DOC {
        var ok := AdvanceChild(0, target);
        if ok {
          cur := SkipExcluded();
        }
      }
      Settle(cur, children[0].rem - children[1].rem);
    }

    // Give up the current document and move to the next one. Only a term
    // cursor needs to be live: the other kinds answer false at the end.
    method Next() returns (ok: bool)
      requires Valid()
      requires kind == Term ==> Doc() != INVALID_DOC
      modifies Repr
      ensures Valid()
      ensures rem == old(rem) - {old(Doc())}
      ensures ok == (Doc() != INVALID_DOC)
      decreases Repr, 6
    {
      hide TameOn, PostingCursor.Valid, PostingCursor.Rem, MaxSum, MinEnd, SumBy, WeightAt, BlockMaxAt, HitDocs, SortedBy, DistinctDocs;
      match kind {
        case Term => NextTerm();
        case Conjunction => NextConjunction();
        case Exclusion => NextExclusion();
        case Wand => NextHit();
      }
      ok := Doc() != INVALID_DOC;
    }

    method NextConjunction()
      requires Owns() && |children| > 0 && rem == Meet() && AtMin(curDoc, rem)
      modifies Repr
      ensures Owns()
      ensures rem == Meet() == old(rem) - {old(curDoc)}
      ensures AtMin(curDoc, rem)
      ensures curDoc != INVALID_DOC ==> forall i :: 0 <= i < |children| ==> AtMin(curDoc, children[i].rem)
      decreases Repr, 5
    {
      hide Valid, Fixed, Linked;
      if curDoc != INVALID_DOC {
        FromNext(curDoc, rem);
        AdvanceConjunction(curDoc + 1);
      }
    }

    method NextTerm()
      requires kind == Term && Valid() && Doc() != INVALID_DOC
      modifies Repr
      ensures Valid()
      ensures rem == old(rem) - {old(Doc())}
    {
      hide TameOn, PostingCursor.Valid, PostingCursor.Rem, MaxSum, MinEnd, SumBy, WeightAt, BlockMaxAt, HitDocs, SortedBy,
           DistinctDocs, TermView, MeetView, MeetOf, OpaqueBlocks, PostingCursor.Repr;
      var ok := iter.Next();
      curDoc, rem := iter.Doc(), iter.Rem();
    }

    method NextExclusion()
      requires Owns() && |children| == 2 && rem == children[0].rem - children[1].rem
      requires AtMin(curDoc, children[0].rem) && AtMin(curDoc, rem)
      modifies Repr
      ensures Owns()
      ensures rem == children[0].rem - children[1].rem == old(rem) - {old(curDoc)}
      ensures AtMin(curDoc, children[0].rem) && AtMin(curDoc, rem)
      decreases Repr, 3
    {
      hide Valid, Fixed, Linked;
      if curDoc == INVALID_DOC { return; }
      var cur := INVALID_DOC;
      ghost var left := rem - {curDoc};
      DropOne(children[0].rem, children[1].rem, curDoc);
      var ok := NextChild(0);
      assert children[0].rem - children[1].rem == left;
      if ok {
        cur := SkipExcluded();
      }
      Settle(cur, left);
    }

    // Zigzag: let the first child lead, drive the others to its document, and
    // whenever one overshoots let the lead catch up.
    method DoNext() returns (cur: DocId)
      requires Owns() && |children| > 0
      modifies Repr - {this}
      ensures Owns() && Meet() == old(Meet())
      ensures cur == INVALID_DOC ==> Meet() == {}
      ensures cur != INVALID_DOC ==> forall i :: 0 <= i < |children| ==> AtMin(cur, children[i].rem)
      decreases Repr, 3
    {
      hide Valid, Fixed, Linked;
      while children[0].Doc() != INVALID_DOC
        invariant Owns() && Meet() == old(Meet())
        decreases children[0].rem
      {
        ghost var before := children[0].rem;
        var target := children[0].Doc();
        var i, ok := DriveOthers(target);
        if !ok { return INVALID_DOC; }
        if i == |children| { return target; }
        ok := AdvanceMeet(0, children[i].Doc());
        if !ok { return INVALID_DOC; }
        assert target in before && target !in children[0].rem;
      }
      return INVALID_DOC;
    }

    // Drive children 1, 2, ... to the lead's document until one of them is
    // exhausted (!ok) or overshoots (at i), or all of them stand there.
    method DriveOthers(target: DocId) returns (i: nat, ok: bool)
      requires Owns() && |children| > 0 && target != INVALID_DOC && children[0].Doc() == target
      modifies Repr - {this}
      ensures Owns() && Meet() == old(Meet())
      ensures children[0].rem == old(children[0].rem)
      ensures !ok ==> Meet() == {}
      ensures ok ==> i <= |children| && forall j :: 0 <= j < i ==> AtMin(target, children[j].rem)
      ensures ok && i < |children| ==>
                target < children[i].Doc() < INVALID_DOC && forall d :: d in Meet() ==> children[i].Doc() <= d
      decreases Repr, 2
    {
      hide Valid, Fixed, Linked;
      i := 1;
      while i < |children|
        invariant 1 <= i <= |children|
        invariant Owns() && Meet() == old(Meet())
        invariant children[0].rem == old(children[0].rem)
        invariant forall j :: 0 <= j < i ==> AtMin(target, children[j].rem)
      {
        ok := AdvanceMeet(i, target);
        if !ok || children[i].Doc() != target {
          return i, ok;
        }
        i := i + 1;
      }
      return i, true;
    }

    // Drive the excluded child up to the main one and step over every
    // document they share.
    method SkipExcluded() returns (cur: DocId)
      requires Owns() && |children| == 2 && children[0].Doc() != INVALID_DOC
      modifies Repr - {this}
      ensures Owns()
      ensures children[0].rem - children[1].rem == old(children[0].rem - children[1].rem)
      ensures AtMin(cur, children[0].rem) && AtMin(cur, children[0].rem - children[1].rem)
      decreases Repr, 2
    {
      hide Valid, Fixed, Linked;
      cur := children[0].Doc();
      while true
        invariant Owns()
        invariant children[0].rem - children[1].rem == old(children[0].rem - children[1].rem)
        invariant cur == children[0].Doc() && cur != INVALID_DOC
        decreases children[0].rem
      {
        if children[1].Doc() == INVALID_DOC { return; }
        if children[1].Doc() < cur {
          var ok := AdvanceChild(1, cur);
          if !ok { return; }
        }
        if children[1].Doc() != cur { return; }
        var ok := NextChild(0);
        if !ok { return INVALID_DOC; }
        cur := children[0].Doc();
      }
    }

    // Linear scan of the ranked union's hits, which are kept by document.
    method AdvanceHits(target: DocId)
      requires kind == Wand && Valid()
      modifies this
      ensures Valid()
      ensures rem == From(old(rem), target)
    {
      hide TameOn, PostingCursor.Valid, PostingCursor.Rem, MaxSum, MinEnd, SumBy, WeightAt, BlockMaxAt;
      while curIdx < |docOrder| && docOrder[curIdx].doc < target
        invariant Owns() && Fixed() && Linked()
        invariant From(rem, target) == From(old(rem), target)
        decreases |docOrder| - curIdx
      {
        HitsStep(docOrder, curIdx);
        curIdx := curIdx + 1;
        rem := HitDocs(docOrder[curIdx..]);
      }
      HitsFirst(docOrder, curIdx);
      curDoc := if curIdx < |docOrder| then docOrder[curIdx].doc else INVALID_DOC;
    }

    method NextHit()
      requires kind == Wand && Valid()
      modifies this
      ensures Valid()
      ensures rem == old(rem) - {old(curDoc)}
    {
      hide TameOn, PostingCursor.Valid, PostingCursor.Rem, MaxSum, MinEnd, SumBy, WeightAt, BlockMaxAt;
      var next := if curIdx + 1 < |docOrder| then curIdx + 1 else |docOrder|;
      HitsFirst(docOrder, curIdx);
      HitsFirst(docOrder, next);
      if curIdx < |docOrder| {
        HitsStep(docOrder, curIdx);
      }
      curIdx := next;
      curDoc := if next < |docOrder| then docOrder[next].doc else INVALID_DOC;
      rem := HitDocs(docOrder[next..]);
    }
  }

  // A ranked union advertises its list bound for every block.
  lemma HitsTame(hits: seq<Hit>, ub: real, weight: DocId -> real)
    requires ub >= 0.0 && forall h :: h in hits ==> h.doc < INVALID_DOC && weight(h.doc) == h.score >= 0.0
    ensures TameOn(HitDocs(hits), View(weight, ub, (d: DocId) => ub, (d: DocId) => INVALID_DOC))
    ensures forall d :: d in HitDocs(hits) ==> d < INVALID_DOC
  {
    forall i | 0 <= i < |hits|
      ensures hits[i] in hits
    {
    }
  }

  lemma HitsStep(hits: seq<Hit>, i: nat)
    requires i < |hits| && DistinctDocs(hits)
    ensures HitDocs(hits[i + 1..]) == HitDocs(hits[i..]) - {hits[i].doc}
  {
    forall d | d in HitDocs(hits[i..]) - {hits[i].doc}
      ensures d in HitDocs(hits[i + 1..])
    {
      var j :| 0 <= j < |hits[i..]| && hits[i..][j].doc == d;
      assert hits[i + 1..][j - 1].doc == d;
    }
    forall d | d in HitDocs(hits[i + 1..])
      ensures d in HitDocs(hits[i..]) - {hits[i].doc}
    {
      var j :| 0 <= j < |hits[i + 1..]| && hits[i + 1..][j].doc == d;
      assert hits[i..][j + 1].doc == d;
    }
  }

  lemma HitsFirst(hits: seq<Hit>, i: nat)
    requires i <= |hits| && SortedBy(hits, ByDoc)
    ensures i < |hits| ==> hits[i].doc in HitDocs(hits[i..])
    ensures i < |hits| ==> forall d :: d in HitDocs(hits[i..]) ==> hits[i].doc <= d
    ensures i == |hits| ==> HitDocs(hits[i..]) == {}
  {
    if i < |hits| {
      assert hits[i..][0].doc == hits[i].doc;
    }
  }

  // The score multiplied out: the inverse document frequency times the norm.
  lemma ScoreIs(s: TermStats, tf: nat, d: DocId)
    requires s.NonNegative()
    ensures var share := if s.avgdl > 0.0 then 0.9 * (s.docLen(d) as real / s.avgdl) else 0.9;
            s.Score(tf, d) * (tf as real + 0.3 + share) == s.idf * (2.2 * tf as real)
  {
    hide TfNorm, LenFactor;
    var share := if s.avgdl > 0.0 then 0.9 * (s.docLen(d) as real / s.avgdl) else 0.9;
    NormIs(tf, s.docLen(d), s.avgdl);
    ProductMoved(TfNorm(tf, LenFactor(s.docLen(d), s.avgdl)), s.idf, tf as real + 0.3 + share);
  }

  lemma ProductMoved(norm: real, idf: real, down: real)
    ensures norm * idf * down == idf * (norm * down)
  {
  }

  ghost function TermView(s: TermStats, l: PostingList): View
    requires s.NonNegative()
  {
    View((d: DocId) => s.Score(l.tf(d), d), s.listUb, (d: DocId) => l.blockMax(d) * s.idf, l.blockEnd)
  }

  ghost function IterRepr(iter: PostingCursor?): set<object> {
    if iter == null then {} else iter.Repr()
  }

  // Scorers that are valid and share no state.
  ghost predicate Forest(cs: seq<Scorer>)
    reads cs, ReprOf(cs)
  {
    && (forall i :: 0 <= i < |cs| ==> cs[i].Valid())
    && (forall i, j :: 0 <= i < j < |cs| ==> cs[i].Repr !! cs[j].Repr)
  }

  ghost function ReprOf(cs: seq<Scorer>): set<object> {
    set i, o | 0 <= i < |cs| && o in cs[i].Repr :: o
  }

  // The documents every one of the scorers still has to deliver.
  ghost function MeetOf(cs: seq<Scorer>): set<DocId>
    requires |cs| > 0
    reads cs
  {
    set d | d in cs[0].rem && forall i :: 0 <= i < |cs| ==> d in cs[i].rem
  }

  lemma ForestPair(a: Scorer, b: Scorer)
    requires Forest([a, b])
    ensures a.Valid() && b.Valid() && a.Repr !! b.Repr && a != b
  {
    var cs := [a, b];
    assert cs[0].Valid() && cs[1].Valid() && cs[0].Repr !! cs[1].Repr;
  }

  lemma ForestDistinct(cs: seq<Scorer>)
    requires Forest(cs)
    ensures Distinct(cs)
  {
    forall i, j | 0 <= i < j < |cs|
      ensures cs[i] != cs[j]
    {
      assert cs[i] in cs[i].Repr;
    }
  }

  lemma PermutationMeet(cs: seq<Scorer>, sorted: seq<Scorer>)
    requires multiset(cs) == multiset(sorted) && |cs| > 0
    ensures |sorted| > 0 && MeetOf(sorted) == MeetOf(cs)
  {
    PermutationMembers(cs, sorted);
    forall d
      ensures d in MeetOf(sorted) <==> d in MeetOf(cs)
    {
      assert d in MeetOf(cs) <==> forall c :: c in cs ==> d in c.rem;
      assert d in MeetOf(sorted) <==> forall c :: c in sorted ==> d in c.rem;
    }
  }

  lemma PermutationForest(cs: seq<Scorer>, sorted: seq<Scorer>)
    requires Forest(cs) && multiset(cs) == multiset(sorted)
    ensures Forest(sorted)
    ensures ReprOf(sorted) == ReprOf(cs)
  {
    PermutationMembers(cs, sorted);
    ForestDistinct(cs);
    PermutationDistinct(cs, sorted);
    forall i | 0 <= i < |sorted|
      ensures sorted[i].Valid()
    {
      assert sorted[i] in cs;
    }
    forall i, j | 0 <= i < j < |sorted|
      ensures sorted[i].Repr !! sorted[j].Repr
    {
      assert sorted[i] in cs && sorted[j] in cs;
      var k, l :| 0 <= k < |cs| && 0 <= l < |cs| && cs[k] == sorted[i] && cs[l] == sorted[j];
      assert k != l;
      assert k < l || l < k;
    }
    PermutationRepr(cs, sorted);
    PermutationRepr(sorted, cs);
  }

  lemma PermutationRepr(cs: seq<Scorer>, sorted: seq<Scorer>)
    requires forall c :: c in cs ==> c in sorted
    ensures ReprOf(cs) <= ReprOf(sorted)
  {
    forall o | o in ReprOf(cs)
      ensures o in ReprOf(sorted)
    {
      var i :| 0 <= i < |cs| && o in cs[i].Repr;
      assert cs[i] in sorted;
    }
  }

  // Order by falling maxScore; what the scorers deliver together is unchanged.
  method LeadFirst(cs: seq<Scorer>) returns (sorted: seq<Scorer>)
    requires Forest(cs) && |cs| > 0
    ensures multiset(sorted) == multiset(cs) && |sorted| == |cs|
    ensures SortedBy(sorted, (c: Scorer) => -c.maxScore)
    ensures MeetOf(sorted) == MeetOf(cs)
    ensures Forest(sorted) && ReprOf(sorted) == ReprOf(cs)
  {
    hide Scorer.Valid, MeetOf;
    sorted := Sort(cs, (c: Scorer) => -c.maxScore);
    PermutationForest(cs, sorted);
    PermutationMeet(cs, sorted);
  }

  // The children are ordered by falling maxScore, so that the rarest leads.
  method NewConjunction(cs: seq<Scorer>) returns (s: Scorer)
    requires |cs| > 0 && Forest(cs)
    modifies ReprOf(cs)
    ensures s.Valid() && fresh(s.Repr - ReprOf(cs)) && s.kind == Conjunction
    ensures s.docs == s.rem == old(MeetOf(cs))
    ensures multiset(s.children) == multiset(cs) && s.view == MeetView(s.children)
  {
    hide *;
    var sorted := LeadFirst(cs);
    s := new Scorer.Conjoin(sorted);
    s.Align();
  }

  method NewExclusion(main: Scorer, excluded: Scorer) returns (s: Scorer)
    requires Forest([main, excluded])
    modifies main.Repr, excluded.Repr
    ensures s.Valid() && fresh(s.Repr - main.Repr - excluded.Repr) && s.kind == Exclusion
    ensures s.docs == s.rem == old(main.rem) - old(excluded.rem)
    ensures s.view == OpaqueBlocks(main.view)
  {
    s := new Scorer.Exclude(main, excluded);
    s.AlignExclusion();
  }

  function MaxSum(cs: seq<Scorer>): (m: real)
    ensures m == SumBy((c: Scorer) => c.maxScore, cs)
  {
    if cs == [] then 0.0 else MaxSum(cs[..|cs| - 1]) + cs[|cs| - 1].maxScore
  }

  lemma TermTame(s: TermStats, l: PostingList, docs: set<DocId>)
    requires s.NonNegative() && l.Ok() && forall d :: d in docs ==> d in l.docs
    ensures TameOn(docs, TermView(s, l)) && TermView(s, l).max == s.listUb
  {
    hide TermStats.Score;
    forall d | d in docs
      ensures l.blockMax(d) * s.idf >= 0.0
    {
      ProductOk(l.blockMax(d), s.idf);
    }
  }

  // A conjunction scores the sum of its parts and ends its block with the
  // first part that ends its own.
  ghost function MeetView(cs: seq<Scorer>): View {
    View((d: DocId) => SumBy(WeightAt(d), cs),
         MaxSum(cs),
         (d: DocId) => SumBy(BlockMaxAt(d), cs),
         (d: DocId) => MinEnd(cs, d))
  }

  ghost function WeightAt(d: DocId): Scorer -> real {
    (c: Scorer) => c.view.weight(d)
  }

  ghost function BlockMaxAt(d: DocId): Scorer -> real {
    (c: Scorer) => c.view.blockMax(d)
  }

  ghost function MinEnd(cs: seq<Scorer>, d: DocId): DocId {
    if cs == [] then INVALID_DOC
    else
      var rest := MinEnd(cs[..|cs| - 1], d);
      var e := cs[|cs| - 1].view.blockEnd(d);
      if e < rest then e else rest
  }

  lemma MinEndStep(cs: seq<Scorer>, i: nat, d: DocId)
    requires i < |cs|
    ensures MinEnd(cs[..i + 1], d) ==
            if cs[i].view.blockEnd(d) < MinEnd(cs[..i], d) then cs[i].view.blockEnd(d) else MinEnd(cs[..i], d)
  {
    assert cs[..i + 1][..i] == cs[..i];
  }

  // Exclusions and ranked unions advertise no blocks: the whole list bound,
  // and an unknown end.
  ghost function OpaqueBlocks(v: View): View {
    View(v.weight, v.max, (d: DocId) => v.max, (d: DocId) => INVALID_DOC)
  }

  // Two parts that meet: sums of scores and bounds, and the nearer end. An
  // exclusion shows its list bound and no end.
  lemma ViewsAre(a: Scorer, b: Scorer, d: DocId)
    requires a.view.blockEnd(d) <= 0xFFFF_FFFF && b.view.blockEnd(d) <= 0xFFFF_FFFF
    ensures var v := MeetView([a, b]);
            && v.weight(d) == a.view.weight(d) + b.view.weight(d) && v.max == a.maxScore + b.maxScore
            && v.blockMax(d) == a.view.blockMax(d) + b.view.blockMax(d)
            && v.blockEnd(d) == if a.view.blockEnd(d) < b.view.blockEnd(d) then a.view.blockEnd(d) else b.view.blockEnd(d)
    ensures var v := OpaqueBlocks(a.view);
            v.weight(d) == a.view.weight(d) && v.blockMax(d) == v.max == a.view.max && v.blockEnd(d) == 0xFFFF_FFFF
  {
    assert [a, b][..1] == [a] && [a][..0] == [];
    assert SumBy(WeightAt(d), [a]) == a.view.weight(d) && SumBy(BlockMaxAt(d), [a]) == a.view.blockMax(d);
    assert MinEnd([a], d) == a.view.blockEnd(d) && MaxSum([a]) == a.maxScore;
  }

  // ------------------------------------------------------------ bounds

  lemma {:induction false} MinEndLeast(cs: seq<Scorer>, d: DocId)
    ensures forall c :: c in cs ==> MinEnd(cs, d) <= c.view.blockEnd(d)
    ensures MinEnd(cs, d) == INVALID_DOC || exists c :: c in cs && MinEnd(cs, d) == c.view.blockEnd(d)
    ensures MinEnd(cs, d) <= INVALID_DOC
  {
    if cs != [] {
      var last := cs[|cs| - 1];
      var front := cs[..|cs| - 1];
      MinEndLeast(front, d);
      assert cs == front + [last];
      assert last in cs;
    }
  }

  lemma MeetTame(cs: seq<Scorer>, docs: set<DocId>)
    requires forall c :: c in cs ==> docs <= c.docs && TameOn(c.docs, c.view) && c.view.max == c.maxScore
    requires |cs| > 0
    ensures TameOn(docs, MeetView(cs))
  {
    assert cs[0] in cs;
    var zero := (c: Scorer) => 0.0;
    SumByZero(zero, cs);
    SumByLe(zero, (c: Scorer) => c.maxScore, cs);
    forall d | d in docs
      ensures 0.0 <= SumBy(WeightAt(d), cs) && 0.0 <= SumBy(BlockMaxAt(d), cs)
    {
      SumByLe(zero, WeightAt(d), cs);
      SumByLe(zero, BlockMaxAt(d), cs);
    }
    forall d | d in docs
      ensures d <= MinEnd(cs, d) <= INVALID_DOC
    {
      MinEndLeast(cs, d);
    }
    forall d | d in docs && MinEnd(cs, d) == INVALID_DOC
      ensures SumBy(BlockMaxAt(d), cs) == MaxSum(cs)
    {
      MinEndLeast(cs, d);
      SumBySame(BlockMaxAt(d), (c: Scorer) => c.maxScore, cs);
    }
  }

  // Bounds that hold of the parts hold of their conjunction.
  lemma MeetSound(cs: seq<Scorer>, docs: set<DocId>)
    requires forall c :: c in cs ==> docs <= c.docs && SoundOn(c.docs, c.view) && c.view.max == c.maxScore
    ensures SoundOn(docs, MeetView(cs))
  {
    forall d | d in docs
      ensures SumBy(WeightAt(d), cs) <= MaxSum(cs)
    {
      SumByLe(WeightAt(d), (c: Scorer) => c.maxScore, cs);
    }
    forall d, e | d in docs && e in docs && d <= e <= MinEnd(cs, d)
      ensures SumBy(WeightAt(e), cs) <= SumBy(BlockMaxAt(d), cs)
    {
      MinEndLeast(cs, d);
      SumByLe(WeightAt(e), BlockMaxAt(d), cs);
    }
  }

  // An exclusion keeps the main scorer's list bound and gives up its blocks.
  lemma OpaqueTame(docs: set<DocId>, sub: set<DocId>, v: View)
    requires sub <= docs && TameOn(docs, v)
    ensures TameOn(sub, OpaqueBlocks(v))
  {
  }

  lemma OpaqueSound(docs: set<DocId>, sub: set<DocId>, v: View)
    requires sub <= docs && SoundOn(docs, v)
    ensures SoundOn(sub, OpaqueBlocks(v))
  {
  }
}
