// The ranked union: WAND with optional block-max skipping, run to completion
// when the scorer is built.
module Wand {
  import opened Prelude
  import opened Sorting
  import opened Scorers
  import opened WandTheory
  import opened WandRuns

  // ---------------------------------------------------------------- moving cursors

  lemma MemberFacts(cs: seq<Scorer>, c: Scorer)
    requires Forest(cs) && c in cs
    ensures c.Valid() && c.Repr <= ReprOf(cs) && c in c.Repr
    ensures forall e :: e in cs && e != c ==> e.Repr !! c.Repr
  {
    var i :| 0 <= i < |cs| && cs[i] == c;
    forall e | e in cs && e != c
      ensures e.Repr !! c.Repr
    {
      var j :| 0 <= j < |cs| && cs[j] == e;
      assert i < j || j < i;
    }
  }

  method AdvanceOne(ghost cs: seq<Scorer>, c: Scorer, target: DocId)
    requires Forest(cs) && c in cs
    modifies c.Repr
    ensures Forest(cs)
    ensures Rems(cs) == old(Rems(cs))[c := From(old(c.rem), target)]
    ensures forall e :: e in cs && e != c ==> e.Doc() == old(e.Doc())
  {
    hide Scorer.Valid;
    MemberFacts(cs, c);
    var ok := c.Advance(target);
    forall i | 0 <= i < |cs|
      ensures cs[i].Valid()
    {
      assert cs[i] in cs;
    }
  }

  ghost function At(live: seq<Scorer>): map<Scorer, DocId>
    reads live
  {
    map c | c in live :: c.Doc()
  }

  // Lagging cursors before the pivot jump to it.
  method AlignLaggingCursors(ghost cs: seq<Scorer>, live: seq<Scorer>, pivotIdx: nat, pivotDoc: DocId)
    requires Forest(cs) && pivotIdx <= |live| && forall c :: c in live ==> c in cs
    modifies ReprOf(cs)
    ensures Forest(cs)
    ensures var m, m' := old(Rems(cs)), Rems(cs);
            forall c :: c in m ==> m'[c] == if c in live[..pivotIdx] then From(m[c], pivotDoc) else m[c]
  {
    hide Scorer.Valid, From, AtMin, Forest;
    ghost var m := Rems(cs);
    for i := 0 to pivotIdx
      invariant Forest(cs) && Rems(cs).Keys == m.Keys
      invariant CaughtUp(m, Rems(cs), live[..i], pivotDoc)
    {
      MemberFacts(cs, live[i]);
      ghost var m1 := Rems(cs);
      if live[i].Doc() < pivotDoc {
        AdvanceOne(cs, live[i], pivotDoc);
      } else {
        NotLagging(live[i].Doc(), live[i].rem, pivotDoc);
        assert Rems(cs) == m1[live[i] := From(m1[live[i]], pivotDoc)];
      }
      CaughtUpOneMore(m, m1, Rems(cs), live, i, pivotDoc);
    }
  }

  ghost predicate CaughtUp(m: Snapshot, m': Snapshot, some: seq<Scorer>, target: DocId)
    requires m'.Keys == m.Keys
  {
    forall c :: c in m ==> m'[c] == if c in some then From(m[c], target) else m[c]
  }

  lemma NotLagging(cur: DocId, rem: set<DocId>, target: DocId)
    requires AtMin(cur, rem) && target <= cur
    ensures From(rem, target) == rem
  {
  }

  lemma CaughtUpOneMore(m: Snapshot, m1: Snapshot, m2: Snapshot, live: seq<Scorer>, i: nat, target: DocId)
    requires i < |live| && m1.Keys == m.Keys && live[i] in m && CaughtUp(m, m1, live[..i], target)
    requires m2 == m1[live[i] := From(m1[live[i]], target)]
    ensures m2.Keys == m.Keys && CaughtUp(m, m2, live[..i + 1], target)
  {
    assert live[..i + 1] == live[..i] + [live[i]];
    FromTwice(m[live[i]], target, target);
  }

  // A cursor that knows where its current block ends jumps past it.
  method SkipOne(ghost cs: seq<Scorer>, c: Scorer)
    requires Forest(cs) && c in cs && c.Doc() != INVALID_DOC
    modifies c.Repr
    ensures Forest(cs)
    ensures var e := c.view.blockEnd(old(c.Doc()));
            Rems(cs) == if e == INVALID_DOC then old(Rems(cs)) else old(Rems(cs))[c := From(old(c.rem), e + 1)]
    ensures forall e :: e in cs && e != c ==> e.Doc() == old(e.Doc())
  {
    hide Scorer.Valid, From, Forest;
    MemberFacts(cs, c);
    var blkEnd := c.BlockMaxDocId();
    if blkEnd != INVALID_DOC {
      AdvanceOne(cs, c, blkEnd + 1);
    }
  }

  lemma JumpedOneMore(m: Snapshot, m1: Snapshot, m2: Snapshot, live: seq<Scorer>, i: nat, at: map<Scorer, DocId>)
    requires i < |live| && Distinct(live) && live[i] in m && Jumped(m, m1, live[..i], at)
    requires var c := live[i];
             m2 == if EndOf(c, at) == INVALID_DOC then m1 else m1[c := From(m1[c], EndOf(c, at) + 1)]
    ensures Jumped(m, m2, live[..i + 1], at)
  {
    hide EndOf, From;
    assert live[..i + 1] == live[..i] + [live[i]];
    assert live[i] !in live[..i];
  }

  method SkipBlock(ghost cs: seq<Scorer>, live: seq<Scorer>)
    requires Forest(cs) && Distinct(live)
    requires forall c :: c in live ==> c in cs && c.Doc() != INVALID_DOC
    modifies ReprOf(cs)
    ensures Forest(cs)
    ensures Jumped(old(Rems(cs)), Rems(cs), live, old(At(live)))
  {
    hide Scorer.Valid, Forest, Jumped, From;
    ghost var m, at := Rems(cs), At(live);
    JumpedNone(m, at);
    assert live[..0] == [];
    for i := 0 to |live|
      invariant Forest(cs)
      invariant forall j :: i <= j < |live| ==> live[j].Doc() == at[live[j]]
      invariant Jumped(m, Rems(cs), live[..i], at)
    {
      MemberFacts(cs, live[i]);
      ghost var m1 := Rems(cs);
      SkipOne(cs, live[i]);
      JumpedOneMore(m, m1, Rems(cs), live, i, at);
    }
    assert live[..|live|] == live;
  }

  lemma JumpedNone(m: Snapshot, at: map<Scorer, DocId>)
    ensures Jumped(m, m, [], at)
  {
  }

  // A cursor that stands on d steps past it; one beyond d stays.
  method PassOne(ghost cs: seq<Scorer>, c: Scorer, d: DocId)
    requires Forest(cs) && c in cs && d != INVALID_DOC && d <= c.Doc()
    modifies c.Repr
    ensures Forest(cs)
    ensures Rems(cs) == old(Rems(cs))[c := old(c.rem) - {d}]
    ensures forall e :: e in cs && e != c ==> e.Doc() == old(e.Doc())
  {
    hide Scorer.Valid;
    MemberFacts(cs, c);
    if c.Doc() == d {
      FromNext(d, c.rem);
      AdvanceOne(cs, c, d + 1);
    } else {
      assert c.rem - {d} == c.rem;
    }
  }

  // The cursors that stand on d step past it; no cursor stands before d.
  method PassPivot(ghost cs: seq<Scorer>, live: seq<Scorer>, d: DocId)
    requires Forest(cs) && Distinct(live) && d != INVALID_DOC
    requires forall c :: c in live ==> c in cs && d <= c.Doc()
    requires forall c :: c in cs && c !in live ==> c.rem == {}
    modifies ReprOf(cs)
    ensures Forest(cs)
    ensures var m, m' := old(Rems(cs)), Rems(cs); forall c :: c in m ==> m'[c] == m[c] - {d}
  {
    hide Scorer.Valid, Forest;
    ghost var m := Rems(cs);
    for i := 0 to |live|
      invariant Forest(cs)
      invariant forall j :: i <= j < |live| ==> d <= live[j].Doc()
      invariant forall c :: c in m ==> Rems(cs)[c] == if c in live[..i] then m[c] - {d} else m[c]
    {
      MemberFacts(cs, live[i]);
      PassOne(cs, live[i], d);
      assert live[..i + 1] == live[..i] + [live[i]];
    }
    assert live[..|live|] == live;
  }

  // ---------------------------------------------------------------- reading cursors

  method BlockSum(ghost cs: seq<Scorer>, live: seq<Scorer>) returns (b: real)
    requires Forest(cs) && forall c :: c in live ==> c in cs && c.Doc() != INVALID_DOC
    ensures b == SumBy(BlockNow(At(live)), live)
  {
    hide Scorer.Valid;
    b := 0.0;
    for i := 0 to |live|
      invariant b == SumBy(BlockNow(At(live)), live[..i])
    {
      MemberFacts(cs, live[i]);
      var t := live[i].BlockMaxScore();
      b := b + t;
      SumByStep(BlockNow(At(live)), live, i);
    }
    assert live[..|live|] == live;
  }

  // The score of d: the sum over the cursors that stand on it.
  method ScoreAt(ghost cs: seq<Scorer>, live: seq<Scorer>, d: DocId) returns (s: real)
    requires Forest(cs) && d != INVALID_DOC && forall c :: c in live ==> c in cs && d <= c.Doc()
    ensures s == SumBy(Share(Rems(cs), d), live)
  {
    hide Scorer.Valid;
    s := 0.0;
    for i := 0 to |live|
      invariant s == SumBy(Share(Rems(cs), d), live[..i])
    {
      MemberFacts(cs, live[i]);
      if live[i].Doc() == d {
        var t := live[i].Score();
        s := s + t;
      }
      SumByStep(Share(Rems(cs), d), live, i);
    }
    assert live[..|live|] == live;
  }

  // The first cursor at which the bounds, added up from the left, reach the
  // threshold; -1 when they never do.
  method FindPivot(live: seq<Scorer>, theta: real) returns (p: int)
    ensures -1 <= p < |live|
    ensures p == -1 ==> live == [] || MaxSum(live) < theta
    ensures p >= 0 ==> theta <= MaxSum(live[..p + 1])
    ensures p > 0 ==> MaxSum(live[..p]) < theta
  {
    var ubSum := 0.0;
    for i := 0 to |live|
      invariant ubSum == MaxSum(live[..i])
      invariant i > 0 ==> ubSum < theta
    {
      assert live[..i + 1][..i] == live[..i];
      ubSum := ubSum + live[i].maxScore;
      if ubSum >= theta {
        return i;
      }
    }
    assert live[..|live|] == live;
    return -1;
  }

  method SortByDoc(children: seq<Scorer>) returns (sorted: seq<Scorer>)
    ensures multiset(sorted) == multiset(children)
    ensures forall i, j :: 0 <= i < j < |sorted| ==> sorted[i].Doc() <= sorted[j].Doc()
  {
    var docs := map c | c in children :: c.Doc();
    var key := (c: Scorer) => if c in docs then docs[c] as real else 0.0;
    sorted := Sort(children, key);
    PermutationMembers(children, sorted);
    forall i, j | 0 <= i < j < |sorted|
      ensures sorted[i].Doc() <= sorted[j].Doc()
    {
      assert sorted[i] in sorted && sorted[j] in sorted;
      assert key(sorted[i]) <= key(sorted[j]);
    }
  }

  // Order the cursors by document and drop the exhausted ones, which sort last.
  method Arrange(ghost cs: seq<Scorer>, children: seq<Scorer>) returns (live: seq<Scorer>, ghost gone: seq<Scorer>)
    requires Forest(cs) && forall c :: c in children ==> c in cs
    ensures multiset(live + gone) == multiset(children)
    ensures forall c :: c in live ==> c in cs && c.Doc() != INVALID_DOC
    ensures forall i, j :: 0 <= i < j < |live| ==> live[i].Doc() <= live[j].Doc()
    ensures forall c :: c in gone ==> c.rem == {}
  {
    hide Scorer.Valid, Forest, AtMin;
    AllStand(cs);
    var sorted := SortByDoc(children);
    PermutationMembers(children, sorted);
    var n := LiveCount(sorted);
    live, gone := sorted[..n], sorted[n..];
    assert live + gone == sorted;
    Trimmed(sorted, n);
  }

  // How many are left when the exhausted ones are taken off the end.
  method LiveCount(sorted: seq<Scorer>) returns (n: nat)
    ensures n <= |sorted| && forall i :: n <= i < |sorted| ==> sorted[i].Doc() == INVALID_DOC
    ensures n > 0 ==> sorted[n - 1].Doc() != INVALID_DOC
  {
    n := |sorted|;
    while n > 0 && sorted[n - 1].Doc() == INVALID_DOC
      invariant 0 <= n <= |sorted|
      invariant forall i :: n <= i < |sorted| ==> sorted[i].Doc() == INVALID_DOC
    {
      n := n - 1;
    }
  }

  lemma Trimmed(sorted: seq<Scorer>, n: nat)
    requires n <= |sorted| && forall c :: c in sorted ==> c.Doc() <= INVALID_DOC
    requires forall i, j :: 0 <= i < j < |sorted| ==> sorted[i].Doc() <= sorted[j].Doc()
    requires forall i :: n <= i < |sorted| ==> sorted[i].Doc() == INVALID_DOC
    requires n > 0 ==> sorted[n - 1].Doc() != INVALID_DOC
    ensures forall c :: c in sorted[..n] ==> c in sorted && c.Doc() != INVALID_DOC
    ensures forall c :: c in sorted[n..] ==> c in sorted && c.Doc() == INVALID_DOC
  {
    forall i | 0 <= i < n
      ensures sorted[i].Doc() != INVALID_DOC
    {
      assert sorted[i].Doc() <= sorted[n - 1].Doc() && sorted[n - 1] in sorted;
    }
  }

  // ---------------------------------------------------------------- the run

  // The bounded min-heap, kept as a sequence with its weakest hit in front:
  // take the hit while there is room, afterwards only in place of a weaker one.
  method Offer(heap: seq<Hit>, hit: Hit, topK: nat) returns (heap': seq<Hit>)
    requires SortedBy(heap, ByScore) && |heap| <= topK && topK > 0
    ensures Offered(heap, hit, topK, heap')
    ensures SortedBy(heap', ByScore) && |heap'| <= topK
    ensures |heap| < topK ==> multiset(heap') == multiset(heap) + multiset{hit}
    ensures |heap| == topK ==> forall h :: h in heap ==> heap[0].score <= h.score
    ensures |heap| == topK && hit.score <= heap[0].score ==> heap' == heap
    ensures |heap| == topK && hit.score > heap[0].score ==> multiset(heap') == multiset(heap[1..]) + multiset{hit}
  {
    heap' := heap;
    if |heap| < topK {
      heap' := Insert(heap, hit, ByScore);
    } else if hit.score > heap[0].score {
      assert forall i :: 0 <= i < |heap| - 1 ==> heap[1..][i] == heap[i + 1];
      heap' := Insert(heap[1..], hit, ByScore);
    }
  }

  // Where the cursors of a lineup stand.
  lemma Standing(r: Run, cs: seq<Scorer>, l: Lineup)
    requires Forest(cs) && r.cs == cs && Lined(r, Rems(cs), l) && l.at == At(l.live)
    ensures Distinct(l.live)
    ensures forall c :: c in l.live ==> c in cs && c.Doc() != INVALID_DOC && l.live[0].Doc() <= c.Doc()
    ensures forall c :: c in cs && c !in l.live ==> c.rem == {}
  {
    hide Scorer.Valid, AtMin;
    ForestDistinct(cs);
    LiveFacts(r, Rems(cs), l.live, l.gone);
    forall c | c in l.live
      ensures l.live[0].Doc() <= c.Doc()
    {
      var i :| 0 <= i < |l.live| && l.live[i] == c;
      assert i > 0 ==> l.at[l.live[0]] <= l.at[l.live[i]];
    }
  }

  // All cursors up to the pivot stand on document d: score it, offer it to
  // the heap, and step past it.
  method VisitPivot(ghost r: Run, ghost cs: seq<Scorer>, live: seq<Scorer>, ghost l: Lineup, d: DocId,
                    heap: seq<Hit>, topK: nat, eligible: DocId -> bool, ghost n: nat)
    returns (heap': seq<Hit>)
    requires Forest(cs) && r.cs == cs && r.k == topK > 0 && r.eligible == eligible
    requires Lined(r, Rems(cs), l) && l.live == live != [] && l.at == At(live) && d == live[0].Doc()
    requires SortedBy(heap, ByScore) && |heap| <= topK
    modifies ReprOf(cs)
    ensures Forest(cs)
    ensures Visit(r, State(old(Rems(cs)), heap, n), State(Rems(cs), heap', n), d)
    ensures SortedBy(heap', ByScore) && |heap'| <= topK
  {
    hide Scorer.Valid, Forest, Offered, Lined, SortedBy;
    Standing(r, cs, l);
    ghost var m := Rems(cs);
    heap' := heap;
    if eligible(d) {
      var s := ScoreAt(cs, live, d);
      LinedScore(r, m, l, d);
      heap' := Offer(heap, Hit(d, s), topK);
    }
    PassPivot(cs, live, d);
  }

  lemma LinedScore(r: Run, m: Snapshot, l: Lineup, d: DocId)
    requires Lined(r, m, l)
    ensures SumBy(Share(m, d), l.live) == ScoreIn(r.cs, m, d)
  {
    hide Share, SumBy;
    ScoreInLive(r, m, l.live, l.gone, d);
  }

  // One round of the loop, once a pivot has been found.
  method Round(ghost r: Run, ghost cs: seq<Scorer>, live: seq<Scorer>, ghost l: Lineup, pivotIdx: nat, theta: real,
               heap: seq<Hit>, topK: nat, eligible: DocId -> bool, useBlockMax: bool, ghost n: nat)
    returns (heap': seq<Hit>, skipped: bool)
    requires Forest(cs) && r.cs == cs && r.k == topK > 0 && r.eligible == eligible
    requires Lined(r, Rems(cs), l) && l.live == live && l.at == At(live)
    requires theta == r.Theta(heap) && PivotAt(live, theta, pivotIdx)
    requires SortedBy(heap, ByScore) && |heap| <= topK
    modifies ReprOf(cs)
    ensures Forest(cs)
    ensures Moved(r, useBlockMax, State(old(Rems(cs)), heap, n),
                  State(Rems(cs), heap', if skipped then n + 1 else n), l, pivotIdx)
    ensures SortedBy(heap', ByScore) && |heap'| <= topK
  {
    hide Scorer.Valid, Forest, MaxSum, BlockNow, Run.Theta, Visit, Jumped, Lined, SortedBy, SumBy;
    Standing(r, cs, l);
    heap', skipped := heap, false;
    if live[0].Doc() == live[pivotIdx].Doc() {
      var blockUbSum := BlockSum(cs, live);
      if useBlockMax && blockUbSum < theta {
        skipped := true;
        SkipBlock(cs, live);
      } else {
        heap' := VisitPivot(r, cs, live, l, live[0].Doc(), heap, topK, eligible, n);
      }
    } else {
      AlignLaggingCursors(cs, live, pivotIdx, live[pivotIdx].Doc());
    }
  }

  method Rearrange(ghost r: Run, ghost cs: seq<Scorer>, children: seq<Scorer>, ghost dead: seq<Scorer>)
    returns (live: seq<Scorer>, ghost l: Lineup)
    requires Forest(cs) && r.cs == cs && Live(r, Rems(cs), children, dead) && r.start.Keys == Rems(cs).Keys
    ensures Lined(r, Rems(cs), l) && l.live == live && l.at == At(live)
  {
    hide Scorer.Valid, Forest, Live, AtMin, Lined;
    assert forall c :: c in children ==> c in cs by { LiveMembers(r, Rems(cs), children, dead); }
    AllStand(cs);
    ghost var done;
    live, done := Arrange(cs, children);
    l := Lineup(live, done + dead, At(live));
    Regrouped(r, Rems(cs), children, dead, live, done);
    LinedUp(r, cs, l);
  }

  lemma AllStand(cs: seq<Scorer>)
    requires Forest(cs)
    ensures forall c :: c in cs ==> AtMin(c.Doc(), Rems(cs)[c]) && c.Doc() <= INVALID_DOC
    ensures forall c :: c in cs && c.Doc() == INVALID_DOC ==> c.rem == {}
  {
    hide Scorer.Valid;
    forall c | c in cs
      ensures AtMin(c.Doc(), c.rem)
    {
      MemberFacts(cs, c);
    }
  }

  lemma LinedUp(r: Run, cs: seq<Scorer>, l: Lineup)
    requires r.start.Keys == Rems(cs).Keys && Live(r, Rems(cs), l.live, l.gone) && l.at == At(l.live)
    requires forall c :: c in l.live ==> c in cs && c.Doc() != INVALID_DOC && AtMin(c.Doc(), Rems(cs)[c])
    requires forall i, j :: 0 <= i < j < |l.live| ==> l.live[i].Doc() <= l.live[j].Doc()
    ensures Lined(r, Rems(cs), l)
  {
    hide Live, AtMin;
  }

  lemma LiveMembers(r: Run, m: Snapshot, live: seq<Scorer>, gone: seq<Scorer>)
    requires Live(r, m, live, gone)
    ensures forall c :: c in live ==> c in r.cs
  {
  }

  // Exhausted cursors leave the live ones.
  lemma Regrouped(r: Run, m: Snapshot, children: seq<Scorer>, dead: seq<Scorer>, live: seq<Scorer>, done: seq<Scorer>)
    requires Live(r, m, children, dead) && multiset(live + done) == multiset(children)
    requires m.Keys == (set c | c in r.cs) && forall c :: c in done ==> c in m ==> m[c] == {}
    ensures Live(r, m, live, done + dead)
  {
    PermutationMembers(live + done, children);
    assert live + (done + dead) == (live + done) + dead;
    forall c | c in live + done
      ensures c in children
    {
    }
    assert forall c :: c in live ==> c in live + done;
    assert forall c :: c in done ==> c in live + done;
  }

  lemma RunOk(r: Run)
    requires Forest(r.cs) && r.start == Rems(r.cs) && r.k > 0
    ensures r.Ok()
  {
    hide TameOn;
    forall c | c in r.cs
      ensures r.start[c] <= c.docs && TameOn(c.docs, c.view) && c.view.max == c.maxScore
    {
      MemberFacts(r.cs, c);
    }
  }

  // One more round on a trace.
  lemma OneRound(r: Run, blockMax: bool, t: Trace, s: State, l: Lineup, p: nat) returns (t': Trace)
    requires Rounds(r, blockMax, t, |t.pivots|) && Moved(r, blockMax, Last(t), s, l, p)
    ensures Rounds(r, blockMax, t', |t'.pivots|) && t'.states != [] && Last(t') == s
  {
    hide Moved;
    t' := Trace(t.states + [s], t.lineups + [l], t.pivots + [p]);
    forall i | 0 <= i < |t'.pivots|
      ensures Moved(r, blockMax, t'.states[i], t'.states[i + 1], t'.lineups[i], t'.pivots[i])
    {
      if i < |t.pivots| {
        assert t'.states[i] == t.states[i] && t'.states[i + 1] == t.states[i + 1];
      }
    }
  }

  // The whole run. It makes a run of the machine and ends with what that run
  // ends with.
  method RunWand(cs: seq<Scorer>, topK: int, eligible: DocId -> bool, useBlockMax: bool)
    returns (scoreOrder: seq<Hit>, blocksSkipped: nat, ghost t: Trace, ghost end: Lineup)
    requires Forest(cs)
    modifies ReprOf(cs)
    ensures topK <= 0 ==> scoreOrder == []
    ensures topK > 0 ==> Ran(Run(cs, old(Rems(cs)), topK, eligible), useBlockMax, t, end, scoreOrder, blocksSkipped)
  {
    hide Scorer.Valid, Forest, TameOn, Moved, MaxSum, Pairs, Ran, Run.Ok, Rounds, Live, Run.Within;
    scoreOrder, blocksSkipped, t, end := [], 0, Trace([], [], []), Lineup([], [], map[]);
    if topK <= 0 { return; }
    ghost var r := Run(cs, Rems(cs), topK, eligible);
    RunOk(r);
    var children := cs;
    ghost var l := Lineup(cs, [], map[]);
    var heap: seq<Hit> := [];
    t := Trace([State(Rems(cs), [], 0)], [], []);
    NoRounds(r, useBlockMax);
    while true
      invariant Forest(cs) && Live(r, Rems(cs), children, l.gone) && r.Within(Rems(cs))
      invariant Rounds(r, useBlockMax, t, |t.pivots|) && t.states != [] && Last(t) == State(Rems(cs), heap, blocksSkipped)
      invariant SortedBy(heap, ByScore) && |heap| <= topK
      decreases Pairs(Rems(cs))
    {
      children, l := Rearrange(r, cs, children, l.gone);
      var theta := if |heap| == topK then heap[0].score else 0.0;
      var pivotIdx := FindPivot(children, theta);
      if children == [] || pivotIdx < 0 { break; }
      var skipped;
      ghost var s := Last(t);
      heap, skipped := Round(r, cs, children, l, pivotIdx, theta, heap, topK, eligible, useBlockMax, blocksSkipped);
      if skipped {
        blocksSkipped := blocksSkipped + 1;
      }
      MovedShrinks(r, useBlockMax, s, State(Rems(cs), heap, blocksSkipped), l, pivotIdx);
      t := OneRound(r, useBlockMax, t, State(Rems(cs), heap, blocksSkipped), l, pivotIdx);
    }
    end := l;
    scoreOrder := Reversed(heap);
    ForestDistinct(cs);
    Ended(r, useBlockMax, t, end);
  }

  lemma NoRounds(r: Run, blockMax: bool)
    requires r.Ok()
    ensures Rounds(r, blockMax, Trace([State(r.start, [], 0)], [], []), 0)
    ensures Live(r, r.start, r.cs, []) && r.Within(r.start)
  {
    assert r.cs + [] == r.cs;
  }

  // ---------------------------------------------------------------- the scorer

  ghost function HitScore(hits: seq<Hit>): DocId -> real {
    (d: DocId) => if i :| 0 <= i < |hits| && hits[i].doc == d then hits[i].score else 0.0
  }

  lemma HitDocsPermuted(xs: seq<Hit>, ys: seq<Hit>)
    requires multiset(xs) == multiset(ys)
    ensures HitDocs(xs) == HitDocs(ys)
  {
    PermutationMembers(xs, ys);
    forall d
      ensures d in HitDocs(xs) <==> d in HitDocs(ys)
    {
      assert d in HitDocs(xs) <==> exists h :: h in xs && h.doc == d;
      assert d in HitDocs(ys) <==> exists h :: h in ys && h.doc == d;
    }
  }

  ghost function LiveBound(at: map<Scorer, DocId>): Scorer -> real {
    (c: Scorer) => if c in at && at[c] != INVALID_DOC then c.maxScore else 0.0
  }

  // The list bound of a child that has a document to deliver.
  ghost function ChildBound(start: Snapshot): Scorer -> real {
    (c: Scorer) => if c in start && start[c] != {} then c.maxScore else 0.0
  }

  // The union's list bound: the bounds of the children that are not exhausted.
  method LiveMaxSum(ghost cs: seq<Scorer>, children: seq<Scorer>) returns (ub: real)
    requires Forest(cs) && children == cs
    ensures ub == SumBy(LiveBound(At(children)), children)
  {
    ub := 0.0;
    for i := 0 to |children|
      invariant ub == SumBy(LiveBound(At(children)), children[..i])
    {
      if children[i].Doc() != INVALID_DOC {
        ub := ub + children[i].maxScore;
      }
      SumByStep(LiveBound(At(children)), children, i);
    }
    assert children[..|children|] == children;
  }

  lemma LiveBoundHolds(r: Run, at: map<Scorer, DocId>)
    requires r.Ok() && forall c :: c in r.cs ==> c in at && AtMin(at[c], r.start[c])
    ensures SumBy(LiveBound(at), r.cs) >= 0.0
    ensures r.Sound() ==> forall d :: ScoreIn(r.cs, r.start, d) <= SumBy(LiveBound(at), r.cs)
  {
    hide SoundOn;
    var zero := (c: Scorer) => 0.0;
    SumByZero(zero, r.cs);
    SumByLe(zero, LiveBound(at), r.cs);
    if r.Sound() {
      forall d
        ensures ScoreIn(r.cs, r.start, d) <= SumBy(LiveBound(at), r.cs)
      {
        forall c | c in r.cs
          ensures Share(r.start, d)(c) <= LiveBound(at)(c)
        {
          ShareLe(r, r.start, c, d);
        }
        SumByLe(Share(r.start, d), LiveBound(at), r.cs);
      }
    }
  }

  // A ranked union over cs delivers the hits of its run at what they were
  // worth there, under a list bound that is true if the cursors' bounds are.
  ghost predicate UnionRan(s: Scorer, r: Run, blockMax: bool, t: Trace, end: Lineup, skipped: nat) {
    && Ran(r, blockMax, t, end, s.scoreOrder, skipped)
    && s.docs == HitDocs(s.scoreOrder)
    && (forall h :: h in s.scoreOrder ==> s.view.weight(h.doc) == h.score)
    && (r.Sound() ==> SoundOn(s.docs, s.view))
    && (forall d :: s.view.blockMax(d) == s.maxScore)
  }

  // A ranked union runs when it is built; afterwards it is a cursor over its hits.
  method NewWand(cs: seq<Scorer>, topK: int, eligible: DocId -> bool, useBlockMax: bool)
    returns (s: Scorer, blocksSkipped: nat, ghost t: Trace, ghost end: Lineup)
    requires Forest(cs)
    modifies ReprOf(cs)
    ensures s.Valid() && fresh(s.Repr) && s.kind == Wand && s.docs == s.rem
    ensures topK <= 0 ==> s.docs == {} && s.scoreOrder == []
    ensures topK > 0 ==> UnionRan(s, Run(cs, old(Rems(cs)), topK, eligible), useBlockMax, t, end, blocksSkipped)
    ensures s.maxScore == SumBy(ChildBound(old(Rems(cs))), cs)
  {
    hide Scorer.Valid, Scorer.Fixed, TameOn, SoundOn, IsTopK, NonIncreasing, MaxSum, UnionRan, IsRun, HitScore, Run.Ok,
         Run.Sound, Clean, SafeToSkip, ScoreIn;
    ghost var start, at := Rems(cs), At(cs);
    forall c | c in cs
      ensures AtMin(at[c], start[c])
    {
      MemberFacts(cs, c);
    }
    var ub := LiveMaxSum(cs, cs);
    SumBySame(LiveBound(at), ChildBound(start), cs);
    ghost var r := Run(cs, start, if topK > 0 then topK else 1, eligible);
    RunOk(r);
    LiveBoundHolds(r, at);
    TargetsAreDocs(r);
    var scoreOrder;
    scoreOrder, blocksSkipped, t, end := RunWand(cs, topK, eligible, useBlockMax);
    var docOrder := Sort(scoreOrder, ByDoc);
    HitsByDoc(scoreOrder, docOrder);
    s := new Scorer.FromHits(scoreOrder, docOrder, ub, HitScore(docOrder));
    if topK > 0 {
      assert UnionRan(s, r, useBlockMax, t, end, blocksSkipped) by { Made(s, r, useBlockMax, t, end, blocksSkipped, ub); }
    }
  }

  lemma TargetsAreDocs(r: Run)
    requires r.Ok()
    ensures forall d :: d in r.Targets() ==> d < INVALID_DOC
  {
  }

  // Re-sorting the hits by document keeps the hits.
  lemma HitsByDoc(scoreOrder: seq<Hit>, docOrder: seq<Hit>)
    requires multiset(scoreOrder) == multiset(docOrder)
    requires scoreOrder == [] || DistinctDocs(scoreOrder)
    ensures HitDocs(docOrder) == HitDocs(scoreOrder) && DistinctDocs(docOrder)
    ensures forall h :: h in docOrder <==> h in scoreOrder
    ensures forall h :: h in docOrder ==> h.doc in HitDocs(scoreOrder) && HitScore(docOrder)(h.doc) == h.score
  {
    HitDocsPermuted(scoreOrder, docOrder);
    DistinctDocsPermuted(scoreOrder, docOrder);
    PermutationMembers(scoreOrder, docOrder);
    HitScores(docOrder);
  }

  lemma Made(s: Scorer, r: Run, blockMax: bool, t: Trace, end: Lineup, skipped: nat, ub: real)
    requires Ran(r, blockMax, t, end, s.scoreOrder, skipped)
    requires multiset(s.docOrder) == multiset(s.scoreOrder) && s.docs == HitDocs(s.docOrder)
    requires s.view == View(HitScore(s.docOrder), ub, (d: DocId) => ub, (d: DocId) => INVALID_DOC) && s.maxScore == ub
    requires r.Sound() ==> forall d :: ScoreIn(r.cs, r.start, d) <= ub
    ensures UnionRan(s, r, blockMax, t, end, skipped)
  {
    hide IsTopK, NonIncreasing, HitScore, Run.Sound, Run.Targets, ScoreIn, IsRun, Clean, SafeToSkip, Run.Ok;
    HitsByDoc(s.scoreOrder, s.docOrder);
    PermutationMembers(s.docOrder, s.scoreOrder);
    forall d | d in s.docs
      ensures exists h :: h in s.scoreOrder && h.doc == d
    {
      var i :| 0 <= i < |s.docOrder| && s.docOrder[i].doc == d;
      assert s.docOrder[i] in s.scoreOrder;
    }
  }

  lemma HitScores(docOrder: seq<Hit>)
    requires DistinctDocs(docOrder)
    ensures forall h :: h in docOrder ==> HitScore(docOrder)(h.doc) == h.score
  {
  }

  // A union is complete exactly when it has room for everything.
  lemma CompleteIffFits(s: Scorer, r: Run, blockMax: bool, t: Trace, end: Lineup, skipped: nat)
    requires UnionRan(s, r, blockMax, t, end, skipped)
    ensures s.docs == r.Targets() <==> |r.Targets()| <= r.k
  {
    hide IsTopK, SoundOn, NonIncreasing, Run.Targets, IsRun, Clean, SafeToSkip, ScoreIn;
    HitDocsCount(s.scoreOrder);
    SubsetCount(s.docs, r.Targets());
  }
}
