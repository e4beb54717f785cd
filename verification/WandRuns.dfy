// The ranked union as a machine: one move per round of its loop, the runs it
// can make, and what every run ends with.
module WandRuns {
  import opened Prelude
  import opened Sorting
  import opened Scorers
  import opened WandTheory
  import opened Rankings

  // What the loop changes: how far the cursors have come, the hits kept, and
  // how often a block was skipped.
  datatype State = State(m: Snapshot, heap: seq<Hit>, skipped: nat)

  // The cursors that are not exhausted, in the order of the documents they
  // stand on, and the rest.
  datatype Lineup = Lineup(live: seq<Scorer>, gone: seq<Scorer>, at: map<Scorer, DocId>)

  ghost predicate Lined(r: Run, m: Snapshot, l: Lineup) {
    && m.Keys == r.start.Keys
    && Live(r, m, l.live, l.gone)
    && (forall c :: c in l.live ==> c in m && c in l.at && AtMin(l.at[c], m[c]) && l.at[c] != INVALID_DOC)
    && forall i, j :: 0 <= i < j < |l.live| ==> l.at[l.live[i]] <= l.at[l.live[j]]
  }

  // The first cursor at which the list bounds reach the threshold.
  ghost predicate PivotAt(live: seq<Scorer>, theta: real, p: nat) {
    p < |live| && theta <= MaxSum(live[..p + 1]) && (p > 0 ==> MaxSum(live[..p]) < theta)
  }

  // From m to m' exactly the cursors in `some` that know a block end jumped.
  ghost predicate Jumped(m: Snapshot, m': Snapshot, some: seq<Scorer>, at: map<Scorer, DocId>) {
    && m'.Keys == m.Keys
    && forall c :: c in m ==>
         m'[c] == if c in some && EndOf(c, at) != INVALID_DOC then From(m[c], EndOf(c, at) + 1) else m[c]
  }

  // No block bound lets the live cursors reach the threshold: skip the blocks.
  ghost predicate Skip(r: Run, s: State, s': State, l: Lineup) {
    && SumBy(BlockNow(l.at), l.live) < r.Theta(s.heap)
    && Jumped(s.m, s'.m, l.live, l.at)
    && s'.heap == s.heap && s'.skipped == s.skipped + 1
  }

  // Document d is scored, offered to the heap and left behind.
  ghost predicate Visit(r: Run, s: State, s': State, d: DocId) {
    && s'.m.Keys == s.m.Keys && (forall c :: c in s.m ==> s'.m[c] == s.m[c] - {d})
    && (if r.eligible(d) then Offered(s.heap, Hit(d, ScoreIn(r.cs, s.m, d)), r.k, s'.heap) else s'.heap == s.heap)
    && s'.skipped == s.skipped
  }

  ghost predicate Offered(heap: seq<Hit>, hit: Hit, topK: nat, heap': seq<Hit>) {
    if |heap| < topK then Pushed(heap, hit, heap')
    else if heap != [] && hit.score > heap[0].score then Pushed(heap[1..], hit, heap')
    else heap' == heap
  }

  // The cursors before the pivot catch up with it.
  ghost predicate Align(s: State, s': State, lagging: seq<Scorer>, pivotDoc: DocId) {
    && s'.m.Keys == s.m.Keys
    && (forall c :: c in s.m ==> s'.m[c] == if c in lagging then From(s.m[c], pivotDoc) else s.m[c])
    && s'.heap == s.heap && s'.skipped == s.skipped
  }

  // One round of the loop.
  ghost predicate Moved(r: Run, blockMax: bool, s: State, s': State, l: Lineup, p: nat) {
    && Lined(r, s.m, l) && PivotAt(l.live, r.Theta(s.heap), p)
    && var first, pivotDoc := l.at[l.live[0]], l.at[l.live[p]];
       if first != pivotDoc then Align(s, s', l.live[..p], pivotDoc)
       else if blockMax && SumBy(BlockNow(l.at), l.live) < r.Theta(s.heap) then Skip(r, s, s', l)
       else Visit(r, s, s', first)
  }

  // The loop ends: no cursor is left, or not even all of them together can
  // reach the threshold.
  ghost predicate Halted(r: Run, s: State, l: Lineup) {
    Lined(r, s.m, l) && (l.live == [] || MaxSum(l.live) < r.Theta(s.heap))
  }

  datatype Trace = Trace(states: seq<State>, lineups: seq<Lineup>, pivots: seq<nat>)

  // The first n rounds of a run.
  ghost predicate Rounds(r: Run, blockMax: bool, t: Trace, n: nat) {
    && |t.pivots| == n == |t.lineups| && |t.states| == n + 1
    && t.states[0] == State(r.start, [], 0)
    && forall i :: 0 <= i < n ==> Moved(r, blockMax, t.states[i], t.states[i + 1], t.lineups[i], t.pivots[i])
  }

  ghost function Last(t: Trace): State
    requires t.states != []
  {
    t.states[|t.states| - 1]
  }

  // A whole run, from the start to where the loop ends.
  ghost predicate IsRun(r: Run, blockMax: bool, t: Trace, end: Lineup) {
    Rounds(r, blockMax, t, |t.pivots|) && Halted(r, Last(t), end)
  }

  // No skip of the run split a document.
  ghost predicate Clean(t: Trace) {
    |t.states| == |t.lineups| + 1 && forall i :: 0 <= i < |t.lineups| ==>
      t.states[i + 1].skipped == t.states[i].skipped || NothingSplit(t.states[i].m, t.lineups[i].live, t.lineups[i].at)
  }

  // ---------------------------------------------------------------- moves

  lemma LiveFacts(r: Run, m: Snapshot, live: seq<Scorer>, gone: seq<Scorer>)
    requires Distinct(r.cs) && Live(r, m, live, gone)
    ensures Distinct(live) && forall c :: c in live ==> c in r.cs
    ensures forall c :: c in r.cs && c !in live ==> c in m && m[c] == {}
  {
    PermutationDistinct(r.cs, live + gone);
    PermutationMembers(live + gone, r.cs);
    assert forall c :: c in live ==> c in live + gone;
    forall i, j | 0 <= i < j < |live|
      ensures live[i] != live[j]
    {
      assert (live + gone)[i] == live[i] && (live + gone)[j] == live[j];
    }
  }

  // A jump loses only documents up to a cursor's block end, and the first one.
  lemma JumpedFacts(m: Snapshot, m': Snapshot, live: seq<Scorer>, at: map<Scorer, DocId>)
    requires Jumped(m, m', live, at) && forall c :: c in live ==> c in at
    ensures m'.Keys == m.Keys && forall c :: c in m ==> m'[c] <= m[c]
    ensures forall c, d :: c in m && d in m[c] && d !in m'[c] ==>
              c in live && d <= EndOf(c, at) && EndOf(c, at) != INVALID_DOC
  {
  }

  lemma MaxSumPrefix(r: Run, live: seq<Scorer>, p: nat)
    requires r.Ok() && p <= |live| && forall c :: c in live ==> c in r.cs
    ensures MaxSum(live[..p]) <= MaxSum(live)
  {
    SumByConcat((c: Scorer) => c.maxScore, live[..p], live[p..]);
    assert live[..p] + live[p..] == live;
    MaxSumNonNegative(r, live[p..]);
  }

  // A cursor whose current block bound is its whole list bound.
  ghost predicate FlatAt(c: Scorer, at: map<Scorer, DocId>) {
    c in at && c.view.blockMax(at[c]) == c.maxScore
  }

  // When every cursor is flat the skip test cannot succeed.
  lemma FlatNeverSkips(r: Run, live: seq<Scorer>, at: map<Scorer, DocId>, p: nat, theta: real)
    requires r.Ok() && p < |live| && forall c :: c in live ==> c in r.cs && FlatAt(c, at)
    requires theta <= MaxSum(live[..p + 1])
    ensures SumBy(BlockNow(at), live) >= theta
  {
    SumBySame(BlockNow(at), (c: Scorer) => c.maxScore, live);
    MaxSumPrefix(r, live, p + 1);
  }

  // A skip fires only if some cursor knows where its block ends: otherwise
  // the block bounds would be the list bounds, which reach the threshold.
  lemma SkipMoves(r: Run, m: Snapshot, live: seq<Scorer>, at: map<Scorer, DocId>, p: nat, theta: real) returns (c: Scorer)
    requires r.Ok() && r.Within(m) && p < |live|
    requires forall c :: c in live ==> c in r.cs && c in at && at[c] in m[c]
    requires theta <= MaxSum(live[..p + 1])
    requires SumBy(BlockNow(at), live) < theta
    ensures c in live && EndOf(c, at) != INVALID_DOC
  {
    if forall c :: c in live ==> EndOf(c, at) == INVALID_DOC {
      forall c | c in live
        ensures FlatAt(c, at)
      {
        assert m[c] <= r.start[c] <= c.docs;
      }
      FlatNeverSkips(r, live, at, p, theta);
      assert false;
    }
    c :| c in live && EndOf(c, at) != INVALID_DOC;
  }

  lemma BlockReaches(r: Run, m: Snapshot, c: Scorer, d: DocId)
    requires r.Ok() && r.Within(m) && c in r.cs && d in m[c]
    ensures d <= c.view.blockEnd(d)
  {
    assert m[c] <= r.start[c] <= c.docs;
  }

  ghost function Pairs(m: Snapshot): set<(Scorer, DocId)> {
    set c, d | c in m && d in m[c] :: (c, d)
  }

  // Every round takes a document away from some cursor and gives none back.
  lemma MovedShrinks(r: Run, blockMax: bool, s: State, s': State, l: Lineup, p: nat)
    requires r.Ok() && r.Within(s.m) && Moved(r, blockMax, s, s', l, p)
    ensures r.Within(s'.m) && Pairs(s'.m) < Pairs(s.m) && Live(r, s'.m, l.live, l.gone)
  {
    hide TameOn, MaxSum, BlockNow, Run.Theta, Pushed;
    var c := Mover(r, blockMax, s, s', l, p);
    assert (c, l.at[c]) in Pairs(s.m) && (c, l.at[c]) !in Pairs(s'.m);
  }

  lemma Mover(r: Run, blockMax: bool, s: State, s': State, l: Lineup, p: nat) returns (c: Scorer)
    requires r.Ok() && r.Within(s.m) && Moved(r, blockMax, s, s', l, p)
    ensures s'.m.Keys == s.m.Keys && forall e :: e in s.m ==> s'.m[e] <= s.m[e]
    ensures c in s.m && c in l.live && l.at[c] in s.m[c] && l.at[c] !in s'.m[c]
  {
    hide TameOn, MaxSum, BlockNow, Run.Theta, Offered, Run.Ok, Jumped, EndOf, ScoreIn;
    c := l.live[0];
    if l.at[l.live[0]] != l.at[l.live[p]] {
      FirstCaughtUp(r, s, s', l, p);
    } else if blockMax && SumBy(BlockNow(l.at), l.live) < r.Theta(s.heap) {
      c := SkipMoves(r, s.m, l.live, l.at, p, r.Theta(s.heap));
      BlockReaches(r, s.m, c, l.at[c]);
      BlockLeft(s.m, s'.m, l, c);
    }
  }

  lemma FirstCaughtUp(r: Run, s: State, s': State, l: Lineup, p: nat)
    requires Lined(r, s.m, l) && p < |l.live| && Align(s, s', l.live[..p], l.at[l.live[p]])
    requires l.at[l.live[0]] != l.at[l.live[p]]
    ensures forall e :: e in s.m ==> s'.m[e] <= s.m[e]
    ensures var c := l.live[0]; c in s.m && l.at[c] in s.m[c] && l.at[c] !in s'.m[c]
  {
    hide Live;
    assert l.live[0] in l.live[..p] && l.at[l.live[0]] < l.at[l.live[p]];
  }

  // A jump leaves the block the cursor was in.
  lemma BlockLeft(m: Snapshot, m': Snapshot, l: Lineup, c: Scorer)
    requires Jumped(m, m', l.live, l.at) && c in l.live && c in m && EndOf(c, l.at) != INVALID_DOC
    requires c in l.at && l.at[c] <= c.view.blockEnd(l.at[c])
    ensures m'.Keys == m.Keys && forall e :: e in m ==> m'[e] <= m[e]
    ensures l.at[c] !in m'[c]
  {
  }

  // ---------------------------------------------------------------- one round keeps the invariant

  lemma VisitKeeps(r: Run, s: State, s': State, d: DocId, sure: set<DocId>)
    requires r.Ok() && r.Inv(s.m, s.heap, sure) && d in Union(s.m)
    requires Visit(r, s, s', d)
    ensures r.Inv(s'.m, s'.heap, sure)
  {
    hide TameOn, SoundOn, Pushed, Run.Whole;
    if !r.eligible(d) {
      PivotPassed(r, s.m, s'.m, d, s.heap, sure);
    } else if |s.heap| < r.k {
      PivotKept(r, s.m, s'.m, d, s.heap, s'.heap, sure);
    } else if ScoreIn(r.cs, s.m, d) > s.heap[0].score {
      PivotReplaces(r, s.m, s'.m, d, s.heap, s'.heap, sure);
    } else {
      PivotPassed(r, s.m, s'.m, d, s.heap, sure);
    }
  }

  lemma AlignKeeps(r: Run, s: State, s': State, l: Lineup, p: nat, sure: set<DocId>)
    requires r.Ok() && r.Inv(s.m, s.heap, sure) && r.MaySure(sure)
    requires Lined(r, s.m, l) && p < |l.live| && MaxSum(l.live[..p]) < r.Theta(s.heap)
    requires Align(s, s', l.live[..p], l.at[l.live[p]])
    ensures r.Inv(s'.m, s'.heap, sure)
  {
    hide TameOn, SoundOn, Run.Inv, Run.Ok, Run.Theta, MaxSum, Run.MaySure;
    LaggardsAligned(r, s.m, s'.m, l.live, l.gone, p, l.at[l.live[p]], s.heap, sure);
  }

  lemma SkipKeeps(r: Run, s: State, s': State, l: Lineup, sure: set<DocId>)
    requires r.Ok() && r.Inv(s.m, s.heap, sure) && r.MaySure(sure)
    requires forall d :: d in sure ==> !Torn(s.m, s'.m, l.live, l.at, d)
    requires Lined(r, s.m, l) && Skip(r, s, s', l)
    ensures r.Inv(s'.m, s'.heap, sure)
  {
    hide TameOn, SoundOn, Run.Inv, Run.Ok, Run.Theta, BlockNow, Torn, Jumped, EndOf, Run.MaySure;
    JumpedFacts(s.m, s'.m, l.live, l.at);
    BlocksSkipped(r, s.m, s'.m, l.live, l.gone, l.at, s.heap, sure);
  }

  // Whatever the round does, the invariant stays, and it stays sure of every
  // document the round does not tear.
  lemma MovedKeeps(r: Run, blockMax: bool, s: State, s': State, l: Lineup, p: nat, sure: set<DocId>)
    requires r.Ok() && r.Inv(s.m, s.heap, sure) && r.MaySure(sure)
    requires Moved(r, blockMax, s, s', l, p)
    requires forall d :: d in sure ==> !Torn(s.m, s'.m, l.live, l.at, d)
    ensures r.Inv(s'.m, s'.heap, sure)
  {
    hide TameOn, SoundOn, Run.Inv, Run.Ok, Run.Theta, MaxSum, BlockNow, Torn, Jumped, Offered, ScoreIn, Run.MaySure;
    var first := l.at[l.live[0]];
    if first != l.at[l.live[p]] {
      AlignKeeps(r, s, s', l, p, sure);
    } else if blockMax && SumBy(BlockNow(l.at), l.live) < r.Theta(s.heap) {
      SkipKeeps(r, s, s', l, sure);
    } else {
      assert first in s.m[l.live[0]];
      VisitKeeps(r, s, s', first, sure);
    }
  }

  // ---------------------------------------------------------------- runs

  // The targets the run has torn.
  ghost function Hurt(r: Run, t: Trace): set<DocId> {
    set d | d in r.Targets() && TornBy(t, |t.lineups|, d)
  }

  // One of the first n rounds tears d.
  ghost predicate TornBy(t: Trace, n: nat, d: DocId) {
    exists i :: 0 <= i < n && TornAt(t, i, d)
  }

  ghost predicate TornAt(t: Trace, i: nat, d: DocId) {
    i + 1 < |t.states| && i < |t.lineups| && Torn(t.states[i].m, t.states[i + 1].m, t.lineups[i].live, t.lineups[i].at, d)
  }

  // The invariant holds after every round, and is sure of any documents the
  // run does not tear, if the bounds are true.
  lemma {:induction false} RunKeeps(r: Run, blockMax: bool, t: Trace, n: nat, i: nat, sure: set<DocId>)
    requires r.Ok() && Rounds(r, blockMax, t, n) && i <= n && r.MaySure(sure)
    requires forall d :: d in sure ==> !TornBy(t, n, d)
    ensures r.Inv(t.states[i].m, t.states[i].heap, sure)
  {
    hide Run.Inv, Run.Ok, Run.Sound, Torn, Moved, Run.MaySure;
    if i == 0 {
      Started(r, sure);
    } else {
      RunKeeps(r, blockMax, t, n, i - 1, sure);
      assert forall d :: d in sure ==> !TornAt(t, i - 1, d);
      MovedKeeps(r, blockMax, t.states[i - 1], t.states[i], t.lineups[i - 1], t.pivots[i - 1], sure);
    }
  }

  // The run stops early when not even all remaining cursors together can
  // reach the threshold; then nothing ahead of them matters.
  lemma GaveUp(r: Run, m: Snapshot, live: seq<Scorer>, gone: seq<Scorer>, heap: seq<Hit>, sure: set<DocId>) returns (m': Snapshot)
    requires r.Ok() && r.Inv(m, heap, sure) && r.MaySure(sure) && Live(r, m, live, gone)
    requires live == [] || MaxSum(live) < r.Theta(heap)
    ensures r.Inv(m', heap, sure) && forall c :: c in m' ==> m'[c] == {}
  {
    hide TameOn, SoundOn, MaxSum, Run.HeapOk, Run.Accounted, Run.Scored, Run.MaySure;
    if live == [] {
      m' := m;
      PermutationMembers(live + gone, r.cs);
    } else {
      m' := map c | c in m :: {};
      assert live[..|live|] == live;
      EmptyAhead(r, m, INVALID_DOC);
      LaggardsAligned(r, m, m', live, gone, |live|, INVALID_DOC, heap, sure);
    }
  }

  lemma EmptyAhead(r: Run, m: Snapshot, target: DocId)
    requires r.Ok() && r.Within(m) && target == INVALID_DOC
    ensures forall c :: c in m ==> From(m[c], target) == {}
  {
  }

  // What every run ends with, whatever documents one can be sure of.
  lemma RunEnds(r: Run, blockMax: bool, t: Trace, end: Lineup, sure: set<DocId>)
    requires r.Ok() && IsRun(r, blockMax, t, end) && r.MaySure(sure)
    requires forall d :: d in sure ==> !TornBy(t, |t.lineups|, d)
    ensures RightAbout(r, Reversed(Last(t).heap), sure)
    ensures IsRanking(Reversed(Last(t).heap), r.Targets(), r.TrueScore(), r.k, r.Targets() <= sure)
  {
    hide Run.Inv, Run.Ok, Run.Sound, Moved, IsTopK, NonIncreasing, Run.Targets, RightAbout, TornBy, Run.MaySure;
    var s := Last(t);
    RunKeeps(r, blockMax, t, |t.pivots|, |t.pivots|, sure);
    var m := GaveUp(r, s.m, end.live, end.gone, s.heap, sure);
    Finished(r, m, s.heap, sure);
    assert |Reversed(s.heap)| == |s.heap|;
  }

  // Every run ends with as many distinct targets as are wanted and there are,
  // best first and never overrated; they are a best k when the bounds are true
  // and no skip split a document, and always when there is room for all
  // targets.
  lemma RunOutcome(r: Run, blockMax: bool, t: Trace, end: Lineup)
    requires r.Ok() && IsRun(r, blockMax, t, end)
    ensures IsRanking(Reversed(Last(t).heap), r.Targets(), r.TrueScore(), r.k, r.Sound() && Clean(t))
  {
    hide Run.Ok, Run.Sound, Clean, Moved, Halted, IsTopK, NonIncreasing, DistinctDocs, Run.Targets, RightAbout, TornBy;
    if r.Sound() && Clean(t) {
      forall d
        ensures !TornBy(t, |t.lineups|, d)
      {
        CleanUntorn(r, blockMax, t, d);
      }
      RunEnds(r, blockMax, t, end, r.Targets());
    } else {
      RunEnds(r, blockMax, t, end, {});
    }
  }

  lemma CleanUntorn(r: Run, blockMax: bool, t: Trace, d: DocId)
    requires Rounds(r, blockMax, t, |t.pivots|) && Clean(t)
    ensures !TornBy(t, |t.lineups|, d)
  {
    hide Torn, Moved, NothingSplit;
    forall i | 0 <= i < |t.lineups|
      ensures !TornAt(t, i, d)
    {
      assert Moved(r, blockMax, t.states[i], t.states[i + 1], t.lineups[i], t.pivots[i]);
      MoveUntorn(r, blockMax, t.states[i], t.states[i + 1], t.lineups[i], t.pivots[i], d);
    }
  }

  // Only a skip that splits a document tears it.
  lemma MoveUntorn(r: Run, blockMax: bool, s: State, s': State, l: Lineup, p: nat, d: DocId)
    requires Moved(r, blockMax, s, s', l, p) && (s'.skipped == s.skipped || NothingSplit(s.m, l.live, l.at))
    ensures !Torn(s.m, s'.m, l.live, l.at, d)
  {
    hide MaxSum, Run.Theta, BlockNow, Offered, ScoreIn, EndOf, NothingSplit;
    var first, pivotDoc := l.at[l.live[0]], l.at[l.live[p]];
    if first != pivotDoc {
      AlignUntorn(r, s, s', l, p, d);
    } else if blockMax && SumBy(BlockNow(l.at), l.live) < r.Theta(s.heap) {
      UnsplitUntorn(s.m, s'.m, l.live, l.at, d);
    }
  }

  lemma AlignUntorn(r: Run, s: State, s': State, l: Lineup, p: nat, d: DocId)
    requires Lined(r, s.m, l) && p < |l.live| && Align(s, s', l.live[..p], l.at[l.live[p]])
    ensures !Torn(s.m, s'.m, l.live, l.at, d)
  {
    hide EndOf, Live;
    var pivotDoc := l.at[l.live[p]];
    forall a, b | a in l.live && Loses(s.m, s'.m, a, d) && b in l.live
      ensures !(b in s'.m && d in s'.m[b])
    {
      assert d < pivotDoc;
      if b !in l.live[..p] {
        var j :| 0 <= j < |l.live| && l.live[j] == b;
        assert j >= p;
        assert l.at[l.live[p]] <= l.at[l.live[j]];
      }
    }
  }

  lemma {:induction false} SkipsGrow(r: Run, blockMax: bool, t: Trace, n: nat, i: nat)
    requires Rounds(r, blockMax, t, n) && i <= n
    ensures t.states[i].skipped <= t.states[n].skipped
    ensures i > 0 ==> t.states[i - 1].skipped <= t.states[i].skipped
    decreases n - i
  {
    hide Lined, PivotAt, Jumped, Offered, ScoreIn, BlockNow, Run.Theta;
    if i > 0 {
      assert Moved(r, blockMax, t.states[i - 1], t.states[i - 1 + 1], t.lineups[i - 1], t.pivots[i - 1]);
    }
    if i < n {
      SkipsGrow(r, blockMax, t, n, i + 1);
    }
  }

  // Without a skip nothing can be split.
  lemma UnskippedClean(r: Run, blockMax: bool, t: Trace, end: Lineup)
    requires IsRun(r, blockMax, t, end) && Last(t).skipped == 0
    ensures Clean(t)
  {
    forall i | 0 <= i < |t.lineups|
      ensures t.states[i + 1].skipped == t.states[i].skipped
    {
      SkipsGrow(r, blockMax, t, |t.pivots|, i + 1);
      SkipsGrow(r, blockMax, t, |t.pivots|, i);
    }
  }

  // ---------------------------------------------------------------- when no skip splits a document

  // A cursor whose block bounds never undercut its list bound.
  ghost predicate Flat(c: Scorer) {
    forall d :: d in c.docs ==> c.view.blockMax(d) == c.maxScore
  }

  ghost predicate AllFlat(cs: seq<Scorer>) {
    forall c :: c in cs ==> Flat(c)
  }

  lemma FlatNow(r: Run, m: Snapshot, l: Lineup, p: nat, theta: real)
    requires r.Ok() && r.Within(m) && Lined(r, m, l) && PivotAt(l.live, theta, p) && AllFlat(r.cs)
    ensures SumBy(BlockNow(l.at), l.live) >= theta
  {
    hide TameOn, MaxSum;
    forall c | c in l.live
      ensures FlatAt(c, l.at)
    {
      assert m[c] <= r.start[c] <= c.docs;
      assert Flat(c);
    }
    FlatNeverSkips(r, l.live, l.at, p, theta);
  }

  // Over flat cursors, such as those of memory segments, the block test never
  // succeeds: runs with and without it are the same runs.
  lemma {:induction false} FlatRounds(r: Run, a: bool, b: bool, t: Trace, n: nat)
    requires r.Ok() && AllFlat(r.cs) && Rounds(r, a, t, n)
    ensures Rounds(r, b, t, n)
  {
    hide Run.Ok, AllFlat, Lined, BlockNow, PivotAt, Skip, Visit, Align, Run.Theta;
    forall i | 0 <= i < n
      ensures Moved(r, b, t.states[i], t.states[i + 1], t.lineups[i], t.pivots[i])
    {
      RunKeeps(r, a, t, n, i, {});
      assert Moved(r, a, t.states[i], t.states[i + 1], t.lineups[i], t.pivots[i]);
      FlatNow(r, t.states[i].m, t.lineups[i], t.pivots[i], r.Theta(t.states[i].heap));
    }
  }

  lemma FlatSameRuns(r: Run, t: Trace, end: Lineup)
    requires r.Ok() && AllFlat(r.cs)
    ensures IsRun(r, true, t, end) <==> IsRun(r, false, t, end)
  {
    hide Run.Ok, AllFlat, Rounds;
    if Rounds(r, true, t, |t.pivots|) {
      FlatRounds(r, true, false, t, |t.pivots|);
    }
    if Rounds(r, false, t, |t.pivots|) {
      FlatRounds(r, false, true, t, |t.pivots|);
    }
  }

  lemma {:induction false} NeverSkipped(r: Run, t: Trace, n: nat, i: nat)
    requires Rounds(r, false, t, n) && i <= n
    ensures t.states[i].skipped == 0
  {
    hide Lined, PivotAt, Offered, ScoreIn, BlockNow, Run.Theta;
    if i > 0 {
      NeverSkipped(r, t, n, i - 1);
      assert Moved(r, false, t.states[i - 1], t.states[i - 1 + 1], t.lineups[i - 1], t.pivots[i - 1]);
    }
  }

  // No two cursors have a document in common.
  ghost predicate Aloof(r: Run) {
    forall a, b :: a in r.cs && b in r.cs && a != b && a in r.start && b in r.start ==> r.start[a] !! r.start[b]
  }

  lemma AloofWhole(r: Run, m: Snapshot, live: seq<Scorer>, at: map<Scorer, DocId>)
    requires Aloof(r) && r.Within(m) && forall c :: c in live ==> c in r.cs
    ensures NothingSplit(m, live, at)
  {
  }

  // x is the first of the documents at or after f.
  ghost predicate FirstAfter(docs: set<DocId>, f: DocId, x: DocId) {
    x in docs && f <= x && forall d :: d in docs && f <= d ==> x <= d
  }

  ghost predicate EndsKnown(docs: set<DocId>, v: View) {
    forall d :: d in docs ==> v.blockEnd(d) != INVALID_DOC
  }

  ghost predicate EndsUnknown(docs: set<DocId>, v: View) {
    forall d :: d in docs ==> v.blockEnd(d) == INVALID_DOC
  }

  // Wherever two cursors that know their blocks are moved to together, their
  // blocks end together.
  ghost predicate InStep(r: Run) {
    && (forall c :: c in r.cs && c in r.start ==> EndsKnown(r.start[c], c.view) || EndsUnknown(r.start[c], c.view))
    && (forall a, b :: a in r.cs && b in r.cs && a in r.start && b in r.start ==>
          PairInStep(r.start[a], a.view, r.start[b], b.view))
  }

  predicate SameEnd(e: DocId, e': DocId) {
    e == INVALID_DOC || e' == INVALID_DOC || e == e'
  }

  ghost predicate PairInStep(docs: set<DocId>, v: View, docs': set<DocId>, v': View) {
    forall f, x, y :: FirstAfter(docs, f, x) && FirstAfter(docs', f, y) ==> SameEnd(v.blockEnd(x), v'.blockEnd(y))
  }

  // The cursors that know their blocks have all come as far as f.
  ghost predicate Synced(r: Run, m: Snapshot, f: DocId) {
    && m.Keys == r.start.Keys
    && forall c :: c in r.cs && c in m && EndsKnown(r.start[c], c.view) ==> m[c] == From(r.start[c], f)
  }

  lemma SyncedEnds(r: Run, m: Snapshot, f: DocId, l: Lineup, a: Scorer, b: Scorer)
    requires r.Ok() && r.Within(m) && Synced(r, m, f) && InStep(r) && Lined(r, m, l) && a in l.live && b in l.live
    requires EndOf(a, l.at) != INVALID_DOC && EndOf(b, l.at) != INVALID_DOC
    ensures EndOf(a, l.at) == EndOf(b, l.at)
    ensures EndsKnown(r.start[a], a.view)
  {
    hide TameOn, PairInStep, MaxSum;
    StandsFirst(r, m, f, l, a);
    StandsFirst(r, m, f, l, b);
    assert PairInStep(r.start[a], a.view, r.start[b], b.view);
    PairEnds(r.start[a], a.view, r.start[b], b.view, f, l.at[a], l.at[b]);
  }

  lemma PairEnds(docs: set<DocId>, v: View, docs': set<DocId>, v': View, f: DocId, x: DocId, y: DocId)
    requires PairInStep(docs, v, docs', v') && FirstAfter(docs, f, x) && FirstAfter(docs', f, y)
    ensures SameEnd(v.blockEnd(x), v'.blockEnd(y))
  {
  }

  lemma StandsFirst(r: Run, m: Snapshot, f: DocId, l: Lineup, a: Scorer)
    requires r.Within(m) && Synced(r, m, f) && InStep(r) && Lined(r, m, l) && a in l.live
    requires EndOf(a, l.at) != INVALID_DOC
    ensures a in r.start && EndsKnown(r.start[a], a.view) && FirstAfter(r.start[a], f, l.at[a])
  {
    hide PairInStep, MaxSum;
    assert l.at[a] in m[a] && m[a] <= r.start[a];
    assert m[a] == From(r.start[a], f);
    forall d | d in r.start[a] && f <= d
      ensures l.at[a] <= d
    {
      assert d in m[a];
    }
  }

  lemma InDocs(r: Run, m: Snapshot, c: Scorer, d: DocId)
    requires r.Ok() && r.Within(m) && c in r.cs && d in m[c]
    ensures d < INVALID_DOC
  {
    assert m[c] <= r.start[c] <= c.docs;
  }

  lemma SyncedWhole(r: Run, m: Snapshot, f: DocId, l: Lineup)
    requires r.Ok() && r.Within(m) && Synced(r, m, f) && InStep(r) && Lined(r, m, l)
    ensures NothingSplit(m, l.live, l.at)
  {
    hide TameOn, InStep, Synced, EndOf, Run.Ok;
    forall a, b, d | a in l.live && b in l.live && Shared(m, a, b, d)
      ensures !Splits(l.at, a, b, d)
    {
      if Splits(l.at, a, b, d) {
        InDocs(r, m, b, d);
        SyncedEnds(r, m, f, l, a, b);
      }
    }
  }

  lemma FromTwice(docs: set<DocId>, f: DocId, g: DocId)
    ensures From(From(docs, f), g) == From(docs, if f < g then g else f)
  {
  }

  // A move takes cursors in step to cursors in step.
  lemma SyncedOn(r: Run, m: Snapshot, m': Snapshot, f: DocId, g: DocId) returns (f': DocId)
    requires Synced(r, m, f) && m'.Keys == m.Keys
    requires forall c :: c in r.cs && c in m && EndsKnown(r.start[c], c.view) ==> m'[c] == From(m[c], g)
    ensures Synced(r, m', f')
  {
    f' := if f < g then g else f;
    forall c | c in r.cs && c in m && EndsKnown(r.start[c], c.view)
      ensures m'[c] == From(r.start[c], f')
    {
      FromTwice(r.start[c], f, g);
    }
  }

  lemma MovedSynced(r: Run, blockMax: bool, s: State, s': State, l: Lineup, p: nat, f: DocId) returns (f': DocId)
    requires r.Ok() && Distinct(r.cs) && r.Within(s.m) && Moved(r, blockMax, s, s', l, p) && Synced(r, s.m, f) && InStep(r)
    ensures Synced(r, s'.m, f')
  {
    LiveFacts(r, s.m, l.live, l.gone);
    var g := HowFar(r, blockMax, s, s', l, p, f);
    f' := SyncedOn(r, s.m, s'.m, f, g);
  }

  // How far a round takes the cursors that know their blocks.
  lemma HowFar(r: Run, blockMax: bool, s: State, s': State, l: Lineup, p: nat, f: DocId) returns (g: DocId)
    requires r.Ok() && r.Within(s.m) && Moved(r, blockMax, s, s', l, p) && Synced(r, s.m, f) && InStep(r)
    requires forall c :: c in r.cs && c !in l.live ==> c in s.m && s.m[c] == {}
    ensures s'.m.Keys == s.m.Keys
    ensures forall c :: c in r.cs && c in s.m && EndsKnown(r.start[c], c.view) ==> s'.m[c] == From(s.m[c], g)
  {
    hide TameOn, MaxSum, Run.Theta, BlockNow, Offered, Synced, InStep;
    var first, pivotDoc := l.at[l.live[0]], l.at[l.live[p]];
    if first != pivotDoc {
      g := pivotDoc;
      AlignedFar(r, s, s', l, p);
    } else if blockMax && SumBy(BlockNow(l.at), l.live) < r.Theta(s.heap) {
      g := SkippedFar(r, s, s', l, f);
    } else {
      g := first + 1;
      VisitedFar(r, s, s', l);
    }
  }

  lemma AlignedFar(r: Run, s: State, s': State, l: Lineup, p: nat)
    requires Lined(r, s.m, l) && p < |l.live| && Align(s, s', l.live[..p], l.at[l.live[p]])
    requires forall c :: c in r.cs && c !in l.live ==> c in s.m && s.m[c] == {}
    ensures forall c :: c in r.cs && c in s.m ==> s'.m[c] == From(s.m[c], l.at[l.live[p]])
  {
  }

  lemma VisitedFar(r: Run, s: State, s': State, l: Lineup)
    requires Lined(r, s.m, l) && l.live != [] && Visit(r, s, s', l.at[l.live[0]])
    requires forall c :: c in r.cs && c !in l.live ==> c in s.m && s.m[c] == {}
    ensures forall c :: c in r.cs && c in s.m ==> s'.m[c] == From(s.m[c], l.at[l.live[0]] + 1)
  {
    hide Offered, ScoreIn, Live;
  }

  lemma SkippedFar(r: Run, s: State, s': State, l: Lineup, f: DocId) returns (g: DocId)
    requires r.Ok() && r.Within(s.m) && Lined(r, s.m, l) && Skip(r, s, s', l) && Synced(r, s.m, f) && InStep(r)
    requires forall c :: c in r.cs && c !in l.live ==> c in s.m && s.m[c] == {}
    ensures forall c :: c in r.cs && c in s.m && EndsKnown(r.start[c], c.view) ==> s'.m[c] == From(s.m[c], g)
  {
    hide TameOn, MaxSum, Run.Theta, Run.Ok, BlockNow, Synced, InStep;
    if c0 :| c0 in l.live && EndOf(c0, l.at) != INVALID_DOC {
      g := EndOf(c0, l.at) + 1;
      forall c | c in r.cs && c in s.m && EndsKnown(r.start[c], c.view)
        ensures s'.m[c] == From(s.m[c], g)
      {
        if c in l.live {
          assert l.at[c] in r.start[c];
          SyncedEnds(r, s.m, f, l, c, c0);
        }
      }
    } else {
      g := 0;
      assert forall c :: c in s.m ==> From(s.m[c], 0) == s.m[c];
    }
  }

  lemma {:induction false} RunSynced(r: Run, blockMax: bool, t: Trace, n: nat, i: nat) returns (f: DocId)
    requires r.Ok() && Distinct(r.cs) && Rounds(r, blockMax, t, n) && i <= n && InStep(r)
    ensures r.Within(t.states[i].m) && Synced(r, t.states[i].m, f)
  {
    hide Run.Ok, InStep, Moved, Run.HeapOk, Run.Accounted, Run.Scored;
    RunKeeps(r, blockMax, t, n, i, {});
    if i == 0 {
      f := 0;
    } else {
      var f0 := RunSynced(r, blockMax, t, n, i - 1);
      f := MovedSynced(r, blockMax, t.states[i - 1], t.states[i], t.lineups[i - 1], t.pivots[i - 1], f0);
    }
  }

  // What a caller can look at before the run: block tests are off or cannot
  // succeed, no two cursors share a document, or all blocks are in step.
  ghost predicate SafeToSkip(r: Run, blockMax: bool) {
    !blockMax || AllFlat(r.cs) || Aloof(r) || InStep(r)
  }

  // Then no skip splits a document.
  lemma SafeClean(r: Run, blockMax: bool, t: Trace, end: Lineup)
    requires r.Ok() && Distinct(r.cs) && IsRun(r, blockMax, t, end) && SafeToSkip(r, blockMax)
    ensures Clean(t)
  {
    hide Run.Ok, AllFlat, Aloof, InStep, NothingSplit;
    var n := |t.pivots|;
    if !blockMax || AllFlat(r.cs) {
      if blockMax {
        FlatSameRuns(r, t, end);
      }
      NeverSkipped(r, t, n, n);
      UnskippedClean(r, false, t, end);
    } else {
      forall i | 0 <= i < n
        ensures NothingSplit(t.states[i].m, t.lineups[i].live, t.lineups[i].at)
      {
        RoundWhole(r, blockMax, t, i);
      }
    }
  }

  lemma RoundWhole(r: Run, blockMax: bool, t: Trace, i: nat)
    requires r.Ok() && Distinct(r.cs) && Rounds(r, blockMax, t, |t.pivots|) && i < |t.pivots|
    requires Aloof(r) || InStep(r)
    ensures NothingSplit(t.states[i].m, t.lineups[i].live, t.lineups[i].at)
  {
    hide Run.Ok, Aloof, InStep, NothingSplit, Run.HeapOk, Run.Accounted, Run.Scored, Align, Visit, Skip;
    var m, l := t.states[i].m, t.lineups[i];
    assert Moved(r, blockMax, t.states[i], t.states[i + 1], l, t.pivots[i]);
    RunKeeps(r, blockMax, t, |t.pivots|, i, {});
    LiveFacts(r, m, l.live, l.gone);
    if Aloof(r) {
      AloofWhole(r, m, l.live, l.at);
    } else {
      var f := RunSynced(r, blockMax, t, |t.pivots|, i);
      SyncedWhole(r, m, f, l);
    }
  }

  // The program came by `hits` and its count of skips by this run.
  ghost predicate Ran(r: Run, blockMax: bool, t: Trace, end: Lineup, hits: seq<Hit>, skipped: nat) {
    && r.Ok() && IsRun(r, blockMax, t, end)
    && hits == Reversed(Last(t).heap) && skipped == Last(t).skipped
    && IsRanking(hits, r.Targets(), r.TrueScore(), r.k, r.Sound() && Clean(t))
    && (SafeToSkip(r, blockMax) ==> Clean(t))
  }

  lemma Ended(r: Run, blockMax: bool, t: Trace, end: Lineup)
    requires r.Ok() && Distinct(r.cs) && Rounds(r, blockMax, t, |t.pivots|) && Halted(r, Last(t), end)
    ensures Ran(r, blockMax, t, end, Reversed(Last(t).heap), Last(t).skipped)
  {
    hide Run.Ok, Run.Sound, Moved, Halted, IsRanking, SafeToSkip, Clean;
    assert IsRun(r, blockMax, t, end);
    RunOutcome(r, blockMax, t, end);
    if SafeToSkip(r, blockMax) {
      SafeClean(r, blockMax, t, end);
    }
  }

  // ---------------------------------------------------------------- what a split costs

  // d is split by the blocks the cursors are in: one cursor knows its block
  // and has d beyond it, another has d, at some worth, inside its own.
  ghost predicate SplitAhead(m: Snapshot, l: Lineup, d: DocId) {
    exists a, b :: a in l.live && b in l.live && Shared(m, b, a, d) && Splits(l.at, b, a, d) && a.view.weight(d) > 0.0
  }

  // A round tears a document exactly when it skips and the blocks split it.
  lemma TornIff(r: Run, blockMax: bool, s: State, s': State, l: Lineup, p: nat, d: DocId)
    requires r.Ok() && r.Within(s.m) && Moved(r, blockMax, s, s', l, p)
    ensures Torn(s.m, s'.m, l.live, l.at, d) <==> s'.skipped > s.skipped && SplitAhead(s.m, l, d)
  {
    hide MaxSum, Run.Theta, BlockNow, Offered, ScoreIn, NothingSplit, Torn, SplitAhead, TameOn, EndOf, Run.Ok;
    if s'.skipped == s.skipped {
      MoveUntorn(r, blockMax, s, s', l, p, d);
    } else {
      EndsInRange(r, s.m, l);
      TornBySkip(s.m, s'.m, l, d);
    }
  }

  lemma EndsInRange(r: Run, m: Snapshot, l: Lineup)
    requires r.Ok() && r.Within(m) && Lined(r, m, l)
    ensures forall c :: c in l.live ==> EndOf(c, l.at) <= INVALID_DOC
  {
    forall c | c in l.live
      ensures EndOf(c, l.at) <= INVALID_DOC
    {
      assert l.at[c] in m[c] && m[c] <= r.start[c] <= c.docs;
    }
  }

  lemma TornBySkip(m: Snapshot, m': Snapshot, l: Lineup, d: DocId)
    requires Jumped(m, m', l.live, l.at) && forall c :: c in l.live ==> c in m && EndOf(c, l.at) <= INVALID_DOC
    ensures Torn(m, m', l.live, l.at, d) <==> SplitAhead(m, l, d)
  {
    hide EndOf;
    forall a, b | a in l.live && b in l.live
      ensures Loses(m, m', a, d) && d in m'[b] && EndOf(b, l.at) != INVALID_DOC <==>
              Shared(m, b, a, d) && Splits(l.at, b, a, d)
    {
    }
  }

  // A share that is lost once is lost for good: from then on the run can only
  // give the document less than it scores, and no ranking it ends with can be
  // a best k while it holds the document at that.
  lemma LostForGood(r: Run, m: Snapshot, m': Snapshot, a: Scorer, d: DocId, hits: seq<Hit>)
    requires r.Ok() && r.Within(m) && a in r.cs && d in r.start[a] && d !in m[a] && a.view.weight(d) > 0.0
    requires m'.Keys == m.Keys && forall c :: c in m ==> m'[c] <= m[c]
    ensures ScoreIn(r.cs, m', d) < ScoreIn(r.cs, r.start, d)
    ensures Hit(d, ScoreIn(r.cs, m', d)) in hits ==> !IsTopK(hits, r.Targets(), r.TrueScore(), r.k)
  {
    forall c | c in r.cs
      ensures Share(m', d)(c) <= Share(r.start, d)(c)
    {
      assert m'[c] <= m[c] <= r.start[c];
    }
    assert d !in m'[a] && Share(m', d)(a) == 0.0;
    SumByLess(Share(m', d), Share(r.start, d), r.cs, a);
  }

  // A torn document is underrated from then on, ahead and in the heap.
  lemma {:induction false} Underrated(r: Run, blockMax: bool, t: Trace, n: nat, i: nat, j: nat, a: Scorer, d: DocId)
    requires r.Ok() && Rounds(r, blockMax, t, n) && d in r.Targets() && TornAt(t, i, d) && i < j <= n
    requires Loses(t.states[i].m, t.states[i + 1].m, a, d) && a.view.weight(d) > 0.0
    ensures a in t.states[j].m && d !in t.states[j].m[a]
    ensures forall h :: h in t.states[j].heap && h.doc == d ==> h.score < ScoreIn(r.cs, r.start, d)
  {
    hide Run.Ok, Moved, Run.Accounted, Run.Scored, Run.Targets, EndOf, ScoreIn;
    var s, s' := t.states[j - 1], t.states[j];
    assert Moved(r, blockMax, t.states[j - 1], t.states[j - 1 + 1], t.lineups[j - 1], t.pivots[j - 1]);
    RunKeeps(r, blockMax, t, n, j - 1, {});
    var c := Mover(r, blockMax, s, s', t.lineups[j - 1], t.pivots[j - 1]);
    if j == i + 1 {
      RunKeeps(r, blockMax, t, n, j, {});
      assert forall h :: h in s'.heap ==> h.doc in HitDocs(s'.heap);
    } else {
      Underrated(r, blockMax, t, n, i, j - 1, a, d);
      RunKeeps(r, blockMax, t, n, i, {});
      InStart(r, t.states[i].m, a, d);
      LostForGood(r, s.m, s.m, a, d, []);
      NewHits(r, blockMax, s, s', t.lineups[j - 1], t.pivots[j - 1]);
    }
  }

  lemma InStart(r: Run, m: Snapshot, a: Scorer, d: DocId)
    requires r.Ok() && r.Within(m) && a in m && d in m[a]
    ensures a in r.cs && d in r.start[a]
  {
  }

  // A hit that is new after a round scores what is left of its document.
  lemma NewHits(r: Run, blockMax: bool, s: State, s': State, l: Lineup, p: nat)
    requires Moved(r, blockMax, s, s', l, p)
    ensures forall h :: h in s'.heap ==> h in s.heap || h.score == ScoreIn(r.cs, s.m, h.doc)
  {
    hide Lined, PivotAt, Jumped, BlockNow, Run.Theta, ScoreIn;
    forall h | h in s'.heap
      ensures h in multiset(s'.heap)
    {
    }
    assert forall h :: h in multiset(s.heap) ==> h in s.heap;
    assert s.heap != [] ==> forall h :: h in multiset(s.heap[1..]) ==> h in s.heap;
  }

  // A run over true bounds ends with a best k if and only if every document
  // it has torn has k rivals among the documents it has not.
  lemma RunExactIff(r: Run, blockMax: bool, t: Trace, end: Lineup)
    requires r.Ok() && r.Sound() && IsRun(r, blockMax, t, end)
    ensures IsTopK(Reversed(Last(t).heap), r.Targets(), r.TrueScore(), r.k) <==>
            forall d :: d in Hurt(r, t) ==> |Rivals(r.Targets() - Hurt(r, t), r.TrueScore(), d)| >= r.k
  {
    hide Run.Ok, Run.Sound, Moved, Halted, IsTopK, NonIncreasing, DistinctDocs, Run.Targets, RightAbout, TornBy, ScoreIn, Rivals;
    var hits := Reversed(Last(t).heap);
    RunEnds(r, blockMax, t, end, r.Targets() - Hurt(r, t));
    forall h | h in hits && h.doc in Hurt(r, t)
      ensures h.score < r.TrueScore()(h.doc)
    {
      HurtUnderrated(r, blockMax, t, h);
    }
    ExactIff(r, hits, Hurt(r, t));
  }

  lemma HurtUnderrated(r: Run, blockMax: bool, t: Trace, h: Hit)
    requires r.Ok() && Rounds(r, blockMax, t, |t.pivots|) && h in Reversed(Last(t).heap) && h.doc in Hurt(r, t)
    ensures h.score < ScoreIn(r.cs, r.start, h.doc)
  {
    hide Run.Ok, Moved, ScoreIn, Run.Targets;
    var i :| 0 <= i < |t.lineups| && TornAt(t, i, h.doc);
    var a :| a in t.lineups[i].live && Loses(t.states[i].m, t.states[i + 1].m, a, h.doc) && a.view.weight(h.doc) > 0.0;
    Underrated(r, blockMax, t, |t.pivots|, i, |t.pivots|, a, h.doc);
    assert h in Last(t).heap;
  }

  // Hits that are right about all documents but some, and underrate those.
  lemma ExactIff(r: Run, hits: seq<Hit>, hurt: set<DocId>)
    requires IsRanking(hits, r.Targets(), r.TrueScore(), r.k, false) && hurt <= r.Targets()
    requires RightAbout(r, hits, r.Targets() - hurt)
    requires forall h :: h in hits && h.doc in hurt ==> h.score < r.TrueScore()(h.doc)
    ensures IsTopK(hits, r.Targets(), r.TrueScore(), r.k) <==>
            forall d :: d in hurt ==> |Rivals(r.Targets() - hurt, r.TrueScore(), d)| >= r.k
  {
    hide Run.Targets, ScoreIn, NonIncreasing, DistinctDocs;
    var docs, score, whole := r.Targets(), r.TrueScore(), r.Targets() - hurt;
    HitDocsCount(hits);
    if IsTopK(hits, docs, score, r.k) {
      assert HitDocs(hits) <= whole;
      forall d | d in hurt
        ensures |Rivals(whole, score, d)| >= r.k
      {
        SubsetCount(HitDocs(hits) + {d}, docs);
        AllRivals(hits, docs, score, r.k, d);
        assert HitDocs(hits) <= Rivals(whole, score, d);
        SubsetCount(HitDocs(hits), Rivals(whole, score, d));
      }
    } else if forall d :: d in hurt ==> |Rivals(whole, score, d)| >= r.k {
      EnoughRivals(r, hits, hurt);
      assert false;
    }
  }

  lemma EnoughRivals(r: Run, hits: seq<Hit>, hurt: set<DocId>)
    requires IsRanking(hits, r.Targets(), r.TrueScore(), r.k, false) && hurt <= r.Targets()
    requires RightAbout(r, hits, r.Targets() - hurt)
    requires forall h :: h in hits && h.doc in hurt ==> h.score < r.TrueScore()(h.doc)
    requires forall d :: d in hurt ==> |Rivals(r.Targets() - hurt, r.TrueScore(), d)| >= r.k
    ensures IsTopK(hits, r.Targets(), r.TrueScore(), r.k)
  {
    hide Run.Targets, ScoreIn, NonIncreasing, DistinctDocs, Rivals;
    var docs, score := r.Targets(), r.TrueScore();
    forall d, h | d in hurt && h in hits
      ensures score(d) <= h.score
    {
      RivalsBelow(r, hits, hurt, d, h);
    }
    forall i | 0 <= i < |hits|
      ensures hits[i].score == score(hits[i].doc)
    {
      assert hits[i] in hits && hits[i].doc in HitDocs(hits);
    }
    forall d, i | d in docs && d !in HitDocs(hits) && 0 <= i < |hits|
      ensures score(d) <= hits[i].score
    {
      assert hits[i] in hits;
    }
  }

  // No hit counts for less than a document with k unhurt rivals: these would
  // all have to be hits besides.
  lemma RivalsBelow(r: Run, hits: seq<Hit>, hurt: set<DocId>, d: DocId, h: Hit)
    requires IsRanking(hits, r.Targets(), r.TrueScore(), r.k, false) && h in hits && d in hurt
    requires RightAbout(r, hits, r.Targets() - hurt)
    requires |Rivals(r.Targets() - hurt, r.TrueScore(), d)| >= r.k
    requires h.doc in hurt ==> h.score < r.TrueScore()(h.doc)
    ensures r.TrueScore()(d) <= h.score
  {
    hide Run.Targets, ScoreIn, NonIncreasing, IsTopK, DistinctDocs;
    HitDocsCount(hits);
    var score := r.TrueScore();
    if h.score < score(d) {
      var rivals := Rivals(r.Targets() - hurt, score, d);
      forall e | e in rivals
        ensures e in HitDocs(hits) - {h.doc}
      {
      }
      assert h.doc in HitDocs(hits);
      SubsetCount(rivals, HitDocs(hits) - {h.doc});
    }
  }
}
