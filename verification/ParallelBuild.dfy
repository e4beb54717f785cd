// The parallel build: producers fill a bounded queue, workers drain it into
// temporary segments, and commit merges groups of those. Every step below is
// one lock section, one atomic increment or one worker's private work; steps
// interleave freely.
module ParallelBuild {
  import opened Prelude
  import opened Sorting
  import Bits

  // A document as handed in; only some have a term to index.
  datatype Doc = Doc(token: nat, hasTerms: bool)

  // A document with the id its worker drew for it.
  datatype Numbered = Numbered(id: nat, doc: Doc)

  datatype Phase = Idle | Holding(doc: Doc) | Deciding | Writing(seg: nat, last: bool) | Exited

  datatype Worker = Worker(phase: Phase, buffer: seq<Numbered>, flushed: seq<nat>)

  datatype Stage = Building | Merging(groups: seq<seq<nat>>, outs: seq<nat>, merged: set<nat>) | Finished(finals: seq<nat>)

  // `accepted` and `processed` are history: the documents pushed, and the
  // numbered documents in the order of their ids.
  datatype State = State(
    capacity: nat,
    nextSeg: nat,
    nextDoc: nat,
    queue: seq<Doc>,
    closed: bool,
    workers: seq<Worker>,
    disk: map<nat, seq<Numbered>>,
    stage: Stage,
    accepted: seq<Doc>,
    processed: seq<Numbered>)

  datatype Step =
    | Push(doc: Doc)
    | Pop(w: nat)
    | Process(w: nat)
    | KeepOn(w: nat)
    | BeginFlush(w: nat)
    | WriteFlush(w: nat)
    | Quit(w: nat)
    | Close
    | Plan(ids: seq<nat>, groupCount: int)   // the temporary segments in order, and how many groups
    | Merge(g: nat)
    | Finish

  function Init(capacity: nat, n: nat): State {
    State(capacity, 0, 1, [], false, seq(n, _ => Worker(Idle, [], [])), map[], Building, [], [])
  }

  predicate AnyTerms(buffer: seq<Numbered>) {
    exists i :: 0 <= i < |buffer| && buffer[i].doc.hasTerms
  }

  // ---------------------------------------------------------------- groups

  // i % n
  function Rem(i: nat, n: nat): (r: nat)
    requires n > 0
    ensures r < n
  {
    if i < n then i else Rem(i - n, n)
  }

  function Empties(n: nat): (groups: seq<seq<nat>>)
    ensures |groups| == n && forall g :: 0 <= g < n ==> groups[g] == []
  {
    if n == 0 then [] else Empties(n - 1) + [[]]
  }

  // Deal the ids out to the groups in turn.
  function Dealt(ids: seq<nat>, n: nat): (groups: seq<seq<nat>>)
    requires n > 0
    ensures |groups| == n
  {
    if ids == [] then Empties(n)
    else
      var front := Dealt(ids[..|ids| - 1], n);
      var g := Rem(|ids| - 1, n);
      front[g := front[g] + [ids[|ids| - 1]]]
  }

  // The groups of a merge: as many as asked for, but no more than ids.
  function Split(ids: seq<nat>, nGroups: int): seq<seq<nat>> {
    var n := if nGroups < |ids| then nGroups else |ids|;
    if n <= 1 then [ids] else Dealt(ids, n)
  }

  // The loop of splitIntoGroups.
  method SplitIntoGroups(ids: seq<nat>, nGroups: int) returns (groups: seq<seq<nat>>)
    ensures groups == Split(ids, nGroups)
    ensures |groups| == if nGroups <= 1 || |ids| <= 1 then 1 else if nGroups < |ids| then nGroups else |ids|
    ensures forall i :: 0 <= i < |ids| ==> InGroup(groups, i, ids[i])
  {
    SplitDeals(ids, nGroups);
    var n := if nGroups < |ids| then nGroups else |ids|;
    if n <= 1 { return [ids]; }
    groups := Empties(n);
    for i := 0 to |ids|
      invariant groups == Dealt(ids[..i], n)
    {
      assert ids[..i + 1][..i] == ids[..i];
      groups := groups[Rem(i, n) := groups[Rem(i, n)] + [ids[i]]];
    }
    assert ids[..|ids|] == ids;
  }

  // Id i of the list is in group i mod n, as number i / n.
  ghost predicate InGroup(groups: seq<seq<nat>>, i: nat, id: nat) {
    |groups| > 0 && i / |groups| < |groups[i % |groups|]| && groups[i % |groups|][i / |groups|] == id
  }

  lemma {:induction false} RemIs(i: nat, n: nat)
    requires n > 0
    ensures Rem(i, n) == i % n
  {
    if i >= n {
      RemIs(i - n, n);
      OneLess(i, n);
    }
  }

  lemma OneLess(i: nat, n: nat)
    requires 0 < n <= i
    ensures i % n == (i - n) % n
  {
    var q, r := (i - n) / n, (i - n) % n;
    assert i == (q + 1) * n + r;
    RemainderIs(i, n, q + 1, r);
  }

  lemma RemainderIs(i: nat, n: nat, q: nat, r: nat)
    requires r < n && i == q * n + r
    ensures i / n == q && i % n == r
  {
    Bits.QuotientIs(i, n, q, r);
  }

  // Counting on by one.
  lemma NextPlace(i: nat, n: nat)
    requires n > 0
    ensures if i % n + 1 == n then (i + 1) % n == 0 && (i + 1) / n == i / n + 1
            else (i + 1) % n == i % n + 1 && (i + 1) / n == i / n
  {
    NextOf(i, n, i / n, i % n);
  }

  lemma NextOf(i: nat, n: nat, q: nat, r: nat)
    requires r < n && i == q * n + r
    ensures if r + 1 == n then (i + 1) % n == 0 && (i + 1) / n == q + 1 else (i + 1) % n == r + 1 && (i + 1) / n == q
  {
    if r + 1 == n {
      assert i + 1 == (q + 1) * n + 0;
      RemainderIs(i + 1, n, q + 1, 0);
    } else {
      RemainderIs(i + 1, n, q, r + 1);
    }
  }

  // How many ids each group has got.
  lemma {:induction false} DealtSize(ids: seq<nat>, n: nat, g: nat)
    requires g < n
    ensures |Dealt(ids, n)[g]| == |ids| / n + if g < |ids| % n then 1 else 0
  {
    hide Rem;
    if ids != [] {
      var k := |ids| - 1;
      DealtSize(ids[..k], n, g);
      RemIs(k, n);
      NextPlace(k, n);
    }
  }

  lemma {:induction false} DealtAt(ids: seq<nat>, n: nat, i: nat)
    requires n > 0 && i < |ids|
    ensures InGroup(Dealt(ids, n), i, ids[i])
    decreases |ids|
  {
    hide Rem, Dealt;
    var k := |ids| - 1;
    DealtMore(ids, n);
    RemIs(k, n);
    if i < k {
      DealtAt(ids[..k], n, i);
    } else {
      DealtSize(ids[..k], n, k % n);
    }
  }

  // Split deals the ids out in turn, to as many groups as asked for and there
  // are ids, at least one.
  lemma SplitDeals(ids: seq<nat>, nGroups: int)
    ensures |Split(ids, nGroups)| == if nGroups <= 1 || |ids| <= 1 then 1 else if nGroups < |ids| then nGroups else |ids|
    ensures forall i :: 0 <= i < |ids| ==> InGroup(Split(ids, nGroups), i, ids[i])
  {
    hide Dealt;
    var n := if nGroups < |ids| then nGroups else |ids|;
    forall i | 0 <= i < |ids|
      ensures InGroup(Split(ids, nGroups), i, ids[i])
    {
      if n > 1 {
        DealtAt(ids, n, i);
      } else {
        assert i / 1 == i && i % 1 == 0;
      }
    }
  }

  ghost function IdsOf(groups: seq<seq<nat>>): multiset<nat> {
    if groups == [] then multiset{} else IdsOf(groups[..|groups| - 1]) + multiset(groups[|groups| - 1])
  }

  lemma {:induction false} IdsOfUpdate(groups: seq<seq<nat>>, g: nat, id: nat)
    requires g < |groups|
    ensures IdsOf(groups[g := groups[g] + [id]]) == IdsOf(groups) + multiset{id}
  {
    var n := |groups| - 1;
    if g < n {
      IdsOfUpdate(groups[..n], g, id);
      assert groups[g := groups[g] + [id]][..n] == groups[..n][g := groups[g] + [id]];
    } else {
      assert groups[g := groups[g] + [id]][..n] == groups[..n];
    }
  }

  lemma {:induction false} IdsOfEmpty(n: nat)
    ensures IdsOf(Empties(n)) == multiset{}
  {
    if n > 0 {
      IdsOfEmpty(n - 1);
      assert Empties(n)[..n - 1] == Empties(n - 1);
    }
  }

  // Counting on by one goes on to the next group.
  lemma {:induction false} RemStep(i: nat, n: nat)
    requires n > 0
    ensures Rem(i + 1, n) == if Rem(i, n) + 1 == n then 0 else Rem(i, n) + 1
  {
    if i >= n {
      RemStep(i - n, n);
    }
  }

  // After dealing, the groups before the next one have one id more.
  lemma {:induction false} DealtSizes(ids: seq<nat>, n: nat) returns (q: nat)
    requires n > 0
    ensures forall g :: 0 <= g < n ==> |Dealt(ids, n)[g]| == q + if g < Rem(|ids|, n) then 1 else 0
  {
    if ids == [] {
      q := 0;
    } else {
      var front := ids[..|ids| - 1];
      q := DealtSizes(front, n);
      RemStep(|front|, n);
      if Rem(|front|, n) + 1 == n {
        q := q + 1;
      }
    }
  }

  lemma {:induction false} DealtIds(ids: seq<nat>, n: nat)
    requires n > 0
    ensures IdsOf(Dealt(ids, n)) == multiset(ids)
  {
    if ids == [] {
      IdsOfEmpty(n);
    } else {
      hide Rem, IdsOf, Dealt;
      var front, last := ids[..|ids| - 1], ids[|ids| - 1];
      DealtMore(ids, n);
      IdsOfUpdate(Dealt(front, n), Rem(|front|, n), last);
      DealtIds(front, n);
      Snoc(ids);
    }
  }

  lemma DealtMore(ids: seq<nat>, n: nat)
    requires n > 0 && ids != []
    ensures var front, g := Dealt(ids[..|ids| - 1], n), Rem(|ids| - 1, n);
            Dealt(ids, n) == front[g := front[g] + [ids[|ids| - 1]]]
  {
    hide Rem;
  }

  lemma Snoc(ids: seq<nat>)
    requires ids != []
    ensures multiset(ids) == multiset(ids[..|ids| - 1]) + multiset{ids[|ids| - 1]}
  {
    assert ids == ids[..|ids| - 1] + [ids[|ids| - 1]];
  }

  // The groups hold every id once, and their sizes differ by at most one.
  lemma SplitIsPartition(ids: seq<nat>, nGroups: int)
    ensures IdsOf(Split(ids, nGroups)) == multiset(ids)
    ensures forall g, h :: 0 <= g < |Split(ids, nGroups)| && 0 <= h < |Split(ids, nGroups)| ==>
              |Split(ids, nGroups)[g]| <= |Split(ids, nGroups)[h]| + 1
    ensures 1 <= |Split(ids, nGroups)| <= (if nGroups > 1 then nGroups else 1)
  {
    var n := if nGroups < |ids| then nGroups else |ids|;
    if n <= 1 {
      assert [ids][..0] == [];
      assert IdsOf([ids]) == IdsOf([]) + multiset(ids);
    } else {
      DealtIds(ids, n);
      var q := DealtSizes(ids, n);
    }
  }

  // ---------------------------------------------------------------- steps

  function Temps(ws: seq<Worker>): seq<nat> {
    if ws == [] then [] else Temps(ws[..|ws| - 1]) + ws[|ws| - 1].flushed
  }

  predicate AllExited(ws: seq<Worker>) {
    forall w :: 0 <= w < |ws| ==> ws[w].phase == Exited
  }

  predicate InNumberOrder(ids: seq<nat>) {
    forall i, j :: 0 <= i < j < |ids| ==> ids[i] <= ids[j]
  }

  predicate Drained(s: State) {
    s.closed && s.queue == []
  }

  ghost predicate Enabled(s: State, step: Step) {
    match step
    case Push(_) => !s.closed && |s.queue| < s.capacity
    case Pop(w) => w < |s.workers| && s.workers[w].phase == Idle && s.queue != []
    case Process(w) => w < |s.workers| && s.workers[w].phase.Holding?
    case KeepOn(w) => w < |s.workers| && s.workers[w].phase == Deciding
    case BeginFlush(w) =>
      && w < |s.workers| && AnyTerms(s.workers[w].buffer)
      && (s.workers[w].phase == Deciding || (s.workers[w].phase == Idle && Drained(s)))
    case WriteFlush(w) => w < |s.workers| && s.workers[w].phase.Writing?
    case Quit(w) => w < |s.workers| && s.workers[w].phase == Idle && Drained(s) && !AnyTerms(s.workers[w].buffer)
    case Close => !s.closed
    case Plan(ids, _) =>
      && s.stage == Building && s.closed && AllExited(s.workers)
      && multiset(ids) == multiset(Temps(s.workers)) && InNumberOrder(ids)
    case Merge(g) => s.stage.Merging? && g < |s.stage.groups| && g < |s.stage.outs| && g !in s.stage.merged
    case Finish => s.stage.Merging? && forall g :: 0 <= g < |s.stage.groups| ==> g in s.stage.merged
  }

  function Segment(disk: map<nat, seq<Numbered>>, id: nat): seq<Numbered> {
    if id in disk then disk[id] else []
  }

  function MergedDocs(disk: map<nat, seq<Numbered>>, ids: seq<nat>): seq<Numbered> {
    if ids == [] then [] else MergedDocs(disk, ids[..|ids| - 1]) + Segment(disk, ids[|ids| - 1])
  }

  // How many documents the first k of these segments have.
  function DocsBefore(disk: map<nat, seq<Numbered>>, ids: seq<nat>, k: nat): nat
    requires k <= |ids|
  {
    if k == 0 then 0 else DocsBefore(disk, ids, k - 1) + |Segment(disk, ids[k - 1])|
  }

  // A merge keeps the order of its inputs, and of the documents in each.
  lemma {:induction false} MergedInOrder(disk: map<nat, seq<Numbered>>, ids: seq<nat>, k: nat, j: nat)
    requires k < |ids| && j < |Segment(disk, ids[k])|
    ensures DocsBefore(disk, ids, k) + j < |MergedDocs(disk, ids)|
    ensures MergedDocs(disk, ids)[DocsBefore(disk, ids, k) + j] == Segment(disk, ids[k])[j]
    decreases |ids|
  {
    hide Segment;
    var n := |ids| - 1;
    MergedLength(disk, ids[..n]);
    BeforeInFront(disk, ids, n, n);
    BeforeInFront(disk, ids, n, k);
    if k < n {
      MergedInOrder(disk, ids[..n], k, j);
    }
  }

  lemma {:induction false} MergedLength(disk: map<nat, seq<Numbered>>, ids: seq<nat>)
    ensures |MergedDocs(disk, ids)| == DocsBefore(disk, ids, |ids|)
  {
    hide Segment;
    if ids != [] {
      MergedLength(disk, ids[..|ids| - 1]);
      BeforeInFront(disk, ids, |ids| - 1, |ids| - 1);
    }
  }

  lemma {:induction false} BeforeInFront(disk: map<nat, seq<Numbered>>, ids: seq<nat>, n: nat, k: nat)
    requires k <= n <= |ids|
    ensures DocsBefore(disk, ids[..n], k) == DocsBefore(disk, ids, k)
  {
    hide Segment;
    if k > 0 {
      BeforeInFront(disk, ids, n, k - 1);
    }
  }

  function WithWorker(s: State, w: nat, worker: Worker): State
    requires w < |s.workers|
  {
    s.(workers := s.workers[w := worker])
  }

  ghost function Do(s: State, step: Step): State
    requires Enabled(s, step)
  {
    match step
    case Push(doc) => s.(queue := s.queue + [doc], accepted := s.accepted + [doc])
    case Pop(w) => WithWorker(s, w, s.workers[w].(phase := Holding(s.queue[0]))).(queue := s.queue[1..])
    case Process(w) =>
      var x := Numbered(s.nextDoc, s.workers[w].phase.doc);
      WithWorker(s, w, s.workers[w].(phase := Deciding, buffer := s.workers[w].buffer + [x]))
        .(nextDoc := s.nextDoc + 1, processed := s.processed + [x])
    case KeepOn(w) => WithWorker(s, w, s.workers[w].(phase := Idle))
    case BeginFlush(w) =>
      WithWorker(s, w, s.workers[w].(phase := Writing(s.nextSeg, s.workers[w].phase == Idle))).(nextSeg := s.nextSeg + 1)
    case WriteFlush(w) =>
      var wk := s.workers[w];
      WithWorker(s, w, Worker(if wk.phase.last then Exited else Idle, [], wk.flushed + [wk.phase.seg]))
        .(disk := s.disk[wk.phase.seg := wk.buffer])
    case Quit(w) => WithWorker(s, w, s.workers[w].(phase := Exited))
    case Close => s.(closed := true)
    case Plan(ids, groupCount) =>
      if |ids| <= 1 then s.(stage := Finished(ids))
      else
        var groups := Split(ids, groupCount);
        s.(stage := Merging(groups, Numbers(s.nextSeg, |groups|), {}), nextSeg := s.nextSeg + |groups|)
    case Merge(g) =>
      s.(disk := s.disk[s.stage.outs[g] := MergedDocs(s.disk, s.stage.groups[g])],
         stage := s.stage.(merged := s.stage.merged + {g}))
    case Finish => s.(stage := Finished(s.stage.outs))
  }

  // ---------------------------------------------------------------- sums over workers

  ghost function Sum<T>(f: Worker -> multiset<T>, ws: seq<Worker>): multiset<T> {
    if ws == [] then multiset{} else Sum(f, ws[..|ws| - 1]) + f(ws[|ws| - 1])
  }

  lemma {:induction false} SumUpdate<T>(f: Worker -> multiset<T>, ws: seq<Worker>, w: nat, worker: Worker)
    requires w < |ws|
    ensures Sum(f, ws[w := worker]) + f(ws[w]) == Sum(f, ws) + f(worker)
  {
    var n := |ws| - 1;
    if w < n {
      SumUpdate(f, ws[..n], w, worker);
      assert ws[w := worker][..n] == ws[..n][w := worker];
      Shuffle(Sum(f, ws[..n][w := worker]), f(ws[w]), Sum(f, ws[..n]), f(worker), f(ws[n]));
    } else {
      assert ws[w := worker][..n] == ws[..n];
    }
  }

  lemma Shuffle<T>(a: multiset<T>, b: multiset<T>, c: multiset<T>, d: multiset<T>, e: multiset<T>)
    requires a + b == c + d
    ensures (a + e) + b == (c + e) + d
  {
    assert (a + e) + b == (a + b) + e;
    assert (c + e) + d == (c + d) + e;
  }

  lemma {:induction false} SumsAgree<T>(f: Worker -> multiset<T>, g: Worker -> multiset<T>, ws: seq<Worker>)
    requires forall w :: w in ws ==> f(w) == g(w)
    ensures Sum(f, ws) == Sum(g, ws)
  {
    if ws != [] {
      SumsAgree(f, g, ws[..|ws| - 1]);
    }
  }

  lemma {:induction false} SumHas<T>(f: Worker -> multiset<T>, ws: seq<Worker>, w: nat)
    requires w < |ws|
    ensures f(ws[w]) <= Sum(f, ws)
  {
    if w < |ws| - 1 {
      SumHas(f, ws[..|ws| - 1], w);
    }
  }

  lemma {:induction false} SumBoth<T>(f: Worker -> multiset<T>, g: Worker -> multiset<T>, h: Worker -> multiset<T>, ws: seq<Worker>)
    requires forall w :: w in ws ==> h(w) == f(w) + g(w)
    ensures Sum(h, ws) == Sum(f, ws) + Sum(g, ws)
  {
    if ws != [] {
      SumBoth(f, g, h, ws[..|ws| - 1]);
    }
  }

  ghost function OnDisk(disk: map<nat, seq<Numbered>>, ids: seq<nat>): multiset<Numbered> {
    if ids == [] then multiset{} else OnDisk(disk, ids[..|ids| - 1]) + multiset(Segment(disk, ids[|ids| - 1]))
  }

  // The document a worker has taken off the queue and not numbered yet.
  const Held: Worker -> multiset<Doc> := (w: Worker) => if w.phase.Holding? then multiset{w.phase.doc} else multiset{}

  // The segment ids a worker has drawn.
  const Segs: Worker -> multiset<nat> :=
    (w: Worker) => multiset(w.flushed) + if w.phase.Writing? then multiset{w.phase.seg} else multiset{}

  const Buffered: Worker -> multiset<Numbered> := (w: Worker) => multiset(w.buffer)

  // Everything a worker has numbered, in memory or on disk.
  ghost function Entries(disk: map<nat, seq<Numbered>>): Worker -> multiset<Numbered> {
    (w: Worker) => multiset(w.buffer) + OnDisk(disk, w.flushed)
  }

  // ---------------------------------------------------------------- the invariant

  function DocsOf(xs: seq<Numbered>): (docs: seq<Doc>)
    ensures |docs| == |xs| && forall i :: 0 <= i < |xs| ==> docs[i] == xs[i].doc
  {
    seq(|xs|, i requires 0 <= i < |xs| => xs[i].doc)
  }

  // Ids are given out as 1, 2, 3, ...
  ghost predicate NumberedOk(s: State) {
    s.nextDoc == |s.processed| + 1 && forall i :: 0 <= i < |s.processed| ==> s.processed[i].id == i + 1
  }

  // Every accepted document is queued, held by a worker, or numbered.
  ghost predicate DocsKept(s: State) {
    multiset(s.accepted) == multiset(s.queue) + Sum(Held, s.workers) + multiset(DocsOf(s.processed))
  }

  // Every numbered document is in one worker's buffer or temporary segments.
  ghost predicate EntriesKept(s: State) {
    multiset(s.processed) == Sum(Entries(s.disk), s.workers)
  }

  // Segment ids are drawn once; what is flushed is on disk.
  ghost predicate SegsOk(s: State) {
    && (forall id :: Sum(Segs, s.workers)[id] <= 1)
    && (forall id :: id in Sum(Segs, s.workers) || id in s.disk ==> id < s.nextSeg)
    && (forall w, id :: 0 <= w < |s.workers| && id in s.workers[w].flushed ==> id in s.disk)
    && (forall w :: 0 <= w < |s.workers| && s.workers[w].phase.Writing? ==> s.workers[w].phase.seg !in s.disk)
  }

  // A worker stops only when there is nothing more to do.
  ghost predicate ExitsOk(s: State) {
    && |s.queue| <= s.capacity
    && (forall w :: 0 <= w < |s.workers| && s.workers[w].phase == Exited ==> Drained(s) && !AnyTerms(s.workers[w].buffer))
    && (forall w :: 0 <= w < |s.workers| && s.workers[w].phase.Writing? && s.workers[w].phase.last ==> Drained(s))
    && (s.stage != Building ==> s.closed && AllExited(s.workers))
  }

  // The merge works on the temporary segments and writes to ids of its own.
  ghost predicate MergeOk(s: State) {
    match s.stage
    case Building => true
    case Merging(groups, outs, merged) =>
      && |outs| == |groups| && Distinct(outs)
      && IdsOf(groups) == multiset(Temps(s.workers))
      && (forall g :: 0 <= g < |outs| ==> outs[g] < s.nextSeg && outs[g] !in Sum(Segs, s.workers))
      && (forall g :: 0 <= g < |outs| && g !in merged ==> outs[g] !in s.disk)
      && (forall g :: 0 <= g < |outs| && g in merged ==> multiset(Segment(s.disk, outs[g])) == OnDisk(s.disk, groups[g]))
    case Finished(finals) => OnDisk(s.disk, finals) == OnDisk(s.disk, Temps(s.workers))
  }

  ghost predicate Inv(s: State) {
    NumberedOk(s) && DocsKept(s) && EntriesKept(s) && SegsOk(s) && ExitsOk(s) && MergeOk(s)
  }

  // ---------------------------------------------------------------- each step keeps the invariant

  lemma SumChange<T>(f: Worker -> multiset<T>, ws: seq<Worker>, w: nat, worker: Worker, d: multiset<T>)
    requires w < |ws|
    ensures f(worker) == f(ws[w]) + d ==> Sum(f, ws[w := worker]) == Sum(f, ws) + d
    ensures f(ws[w]) == f(worker) + d ==> Sum(f, ws) == Sum(f, ws[w := worker]) + d
  {
    SumUpdate(f, ws, w, worker);
    if f(worker) == f(ws[w]) + d {
      Cancel(Sum(f, ws[w := worker]), Sum(f, ws) + d, f(ws[w]));
    }
    if f(ws[w]) == f(worker) + d {
      Cancel(Sum(f, ws[w := worker]) + d, Sum(f, ws), f(worker));
    }
  }

  lemma DocsPush(s: State, doc: Doc)
    requires NumberedOk(s) && DocsKept(s) && Enabled(s, Push(doc))
    ensures NumberedOk(Do(s, Push(doc))) && DocsKept(Do(s, Push(doc)))
  {
    hide Sum, DocsOf;
  }

  lemma DocsPop(s: State, w: nat)
    requires NumberedOk(s) && DocsKept(s) && Enabled(s, Pop(w))
    ensures NumberedOk(Do(s, Pop(w))) && DocsKept(Do(s, Pop(w)))
  {
    hide Sum, DocsOf;
    SumChange(Held, s.workers, w, Do(s, Pop(w)).workers[w], multiset{s.queue[0]});
    TakenFirst(s.queue, Sum(Held, s.workers), multiset(DocsOf(s.processed)));
  }

  lemma TakenFirst(queue: seq<Doc>, held: multiset<Doc>, numbered: multiset<Doc>)
    requires queue != []
    ensures multiset(queue) + held + numbered == multiset(queue[1..]) + (held + multiset{queue[0]}) + numbered
  {
    assert queue == [queue[0]] + queue[1..];
  }

  lemma DocsProcess(s: State, w: nat)
    requires NumberedOk(s) && DocsKept(s) && Enabled(s, Process(w))
    ensures NumberedOk(Do(s, Process(w))) && DocsKept(Do(s, Process(w)))
  {
    hide Sum;
    var s', doc := Do(s, Process(w)), s.workers[w].phase.doc;
    SumChange(Held, s.workers, w, s'.workers[w], multiset{doc});
    assert DocsOf(s'.processed) == DocsOf(s.processed) + [doc];
  }

  lemma DocsWorker(s: State, step: Step)
    requires NumberedOk(s) && DocsKept(s) && Enabled(s, step)
    requires step.KeepOn? || step.BeginFlush? || step.WriteFlush? || step.Quit?
    ensures NumberedOk(Do(s, step)) && DocsKept(Do(s, step))
  {
    hide Sum, DocsOf, AnyTerms;
    HoldNone(s.workers, step.w, Do(s, step).workers[step.w]);
  }

  lemma HoldNone(ws: seq<Worker>, w: nat, worker: Worker)
    requires w < |ws| && !ws[w].phase.Holding? && !worker.phase.Holding?
    ensures Sum(Held, ws[w := worker]) == Sum(Held, ws)
  {
    SumChange(Held, ws, w, worker, multiset{});
  }

  lemma DocsStage(s: State, step: Step)
    requires NumberedOk(s) && DocsKept(s) && Enabled(s, step)
    requires step.Close? || step.Plan? || step.Merge? || step.Finish?
    ensures NumberedOk(Do(s, step)) && DocsKept(Do(s, step))
  {
    hide Sum, DocsOf, MergedDocs, Split, Temps, InNumberOrder, AllExited, Enabled;
    assert Do(s, step).workers == s.workers && Do(s, step).processed == s.processed && Do(s, step).accepted == s.accepted
           && Do(s, step).queue == s.queue && Do(s, step).nextDoc == s.nextDoc by { StageOnly(s, step); }
  }

  // The last steps leave everything but the files and the stage.
  lemma StageOnly(s: State, step: Step)
    requires Enabled(s, step) && (step.Close? || step.Plan? || step.Merge? || step.Finish?)
    ensures var s' := Do(s, step);
            && s'.workers == s.workers && s'.processed == s.processed && s'.accepted == s.accepted
            && s'.queue == s.queue && s'.nextDoc == s.nextDoc
  {
    hide MergedDocs, Split, Temps, InNumberOrder, AllExited;
  }

  lemma DocsStep(s: State, step: Step)
    requires NumberedOk(s) && DocsKept(s) && Enabled(s, step)
    ensures NumberedOk(Do(s, step)) && DocsKept(Do(s, step))
  {
    hide NumberedOk, DocsKept, Enabled, Do;
    match step {
      case Push(doc) => DocsPush(s, doc);
      case Pop(w) => DocsPop(s, w);
      case Process(w) => DocsProcess(s, w);
      case KeepOn(_) => DocsWorker(s, step);
      case BeginFlush(_) => DocsWorker(s, step);
      case WriteFlush(_) => DocsWorker(s, step);
      case Quit(_) => DocsWorker(s, step);
      case _ => DocsStage(s, step);
    }
  }

  // ---- segment ids

  lemma SegsDraw(s: State, w: nat)
    requires SegsOk(s) && Enabled(s, BeginFlush(w))
    ensures SegsOk(Do(s, BeginFlush(w)))
  {
    hide Sum;
    var s' := Do(s, BeginFlush(w));
    SumChange(Segs, s.workers, w, s'.workers[w], multiset{s.nextSeg});
    forall id
      ensures Sum(Segs, s'.workers)[id] <= 1
    {
      assert Sum(Segs, s.workers)[id] <= 1;
      assert id == s.nextSeg ==> id !in Sum(Segs, s.workers);
    }
  }

  lemma SegsWrite(s: State, w: nat)
    requires SegsOk(s) && Enabled(s, WriteFlush(w))
    ensures SegsOk(Do(s, WriteFlush(w)))
  {
    hide Sum;
    var s', seg := Do(s, WriteFlush(w)), s.workers[w].phase.seg;
    SumChange(Segs, s.workers, w, s'.workers[w], multiset{});
    SumHas(Segs, s.workers, w);
    assert seg in Segs(s.workers[w]);
    SoleWriter(s, w);
  }

  // No other worker writes the segment that w writes.
  lemma SoleWriter(s: State, w: nat)
    requires SegsOk(s) && w < |s.workers| && s.workers[w].phase.Writing?
    ensures forall v :: 0 <= v < |s.workers| && v != w && s.workers[v].phase.Writing? ==>
              s.workers[v].phase.seg != s.workers[w].phase.seg
  {
    hide Sum;
    var seg := s.workers[w].phase.seg;
    forall v | 0 <= v < |s.workers| && v != w && s.workers[v].phase.Writing?
      ensures s.workers[v].phase.seg != seg
    {
      if s.workers[v].phase.seg == seg {
        TwoHold(Segs, s.workers, v, w, seg);
      }
    }
  }

  // An id drawn once is with one worker.
  lemma {:induction false} TwoHold<T>(f: Worker -> multiset<T>, ws: seq<Worker>, v: nat, w: nat, x: T)
    requires v < |ws| && w < |ws| && v != w && x in f(ws[v]) && x in f(ws[w])
    ensures Sum(f, ws)[x] >= 2
  {
    var n := |ws| - 1;
    if v < n && w < n {
      TwoHold(f, ws[..n], v, w, x);
    } else {
      var other := if v < n then v else w;
      assert ws[..n][other] == ws[other];
      SumHas(f, ws[..n], other);
    }
  }

  lemma SegsMove(s: State, step: Step)
    requires SegsOk(s) && Enabled(s, step) && (step.Pop? || step.Process? || step.KeepOn? || step.Quit?)
    ensures SegsOk(Do(s, step))
  {
    hide Sum, AnyTerms;
    DrawNone(s.workers, step.w, Do(s, step).workers[step.w]);
  }

  lemma DrawNone(ws: seq<Worker>, w: nat, worker: Worker)
    requires w < |ws| && worker.flushed == ws[w].flushed && !ws[w].phase.Writing? && !worker.phase.Writing?
    ensures Sum(Segs, ws[w := worker]) == Sum(Segs, ws)
  {
    SumChange(Segs, ws, w, worker, multiset{});
  }

  lemma SegsMerge(s: State, g: nat)
    requires SegsOk(s) && MergeOk(s) && Enabled(s, Merge(g))
    ensures SegsOk(Do(s, Merge(g)))
  {
    hide Sum, MergedDocs, OnDisk, IdsOf, Distinct, Temps;
    forall w | 0 <= w < |s.workers| && s.workers[w].phase.Writing?
      ensures s.workers[w].phase.seg != s.stage.outs[g]
    {
      SumHas(Segs, s.workers, w);
      assert s.workers[w].phase.seg in Segs(s.workers[w]);
    }
  }

  lemma SegsStage(s: State, step: Step)
    requires SegsOk(s) && Enabled(s, step) && (step.Push? || step.Close? || step.Plan? || step.Finish?)
    ensures SegsOk(Do(s, step))
  {
    hide Sum, Split, Temps;
  }

  lemma SegsOther(s: State, step: Step)
    requires SegsOk(s) && MergeOk(s) && Enabled(s, step) && !step.BeginFlush? && !step.WriteFlush?
    ensures SegsOk(Do(s, step))
  {
    hide SegsOk, MergeOk, Enabled, Do;
    if step.Pop? || step.Process? || step.KeepOn? || step.Quit? {
      SegsMove(s, step);
    } else if step.Merge? {
      SegsMerge(s, step.g);
    } else {
      SegsStage(s, step);
    }
  }

  // ---- entries

  lemma {:induction false} OnDiskSame(disk: map<nat, seq<Numbered>>, disk': map<nat, seq<Numbered>>, ids: seq<nat>)
    requires forall id :: id in ids ==> Segment(disk', id) == Segment(disk, id)
    ensures OnDisk(disk', ids) == OnDisk(disk, ids)
  {
    if ids != [] {
      OnDiskSame(disk, disk', ids[..|ids| - 1]);
    }
  }

  lemma OnDiskMore(disk: map<nat, seq<Numbered>>, ids: seq<nat>, id: nat)
    ensures OnDisk(disk, ids + [id]) == OnDisk(disk, ids) + multiset(Segment(disk, id))
  {
    assert (ids + [id])[..|ids|] == ids;
  }

  lemma EntriesProcess(s: State, w: nat)
    requires EntriesKept(s) && Enabled(s, Process(w))
    ensures EntriesKept(Do(s, Process(w)))
  {
    hide Sum, OnDisk;
    var s' := Do(s, Process(w));
    SumChange(Entries(s.disk), s.workers, w, s'.workers[w], multiset{Numbered(s.nextDoc, s.workers[w].phase.doc)});
  }

  // A flush moves a buffer to disk and disturbs no other segment.
  lemma EntriesWrite(s: State, w: nat)
    requires EntriesKept(s) && SegsOk(s) && Enabled(s, WriteFlush(w))
    ensures EntriesKept(Do(s, WriteFlush(w)))
  {
    hide Sum, OnDisk;
    var s', wk := Do(s, WriteFlush(w)), s.workers[w];
    forall v | v in s.workers
      ensures Entries(s.disk)(v) == Entries(s'.disk)(v)
    {
      OnDiskSame(s.disk, s'.disk, v.flushed);
    }
    SumsAgree(Entries(s.disk), Entries(s'.disk), s.workers);
    OnDiskMore(s'.disk, wk.flushed, wk.phase.seg);
    SumChange(Entries(s'.disk), s.workers, w, s'.workers[w], multiset{});
  }

  lemma EntriesOther(s: State, step: Step)
    requires EntriesKept(s) && SegsOk(s) && MergeOk(s) && Enabled(s, step) && !step.Process? && !step.WriteFlush?
    ensures EntriesKept(Do(s, step))
  {
    hide Sum, OnDisk, MergedDocs, Split, DocsOf, IdsOf, Distinct, Temps, AnyTerms;
    var s' := Do(s, step);
    if step.Pop? || step.KeepOn? || step.Quit? || step.BeginFlush? {
      SumChange(Entries(s.disk), s.workers, step.w, s'.workers[step.w], multiset{});
    } else if step.Merge? {
      forall v | v in s.workers
        ensures Entries(s.disk)(v) == Entries(s'.disk)(v)
      {
        OnDiskSame(s.disk, s'.disk, v.flushed);
      }
      SumsAgree(Entries(s.disk), Entries(s'.disk), s.workers);
    }
  }

  // ---- exits

  lemma ExitsStep(s: State, step: Step)
    requires ExitsOk(s) && Enabled(s, step)
    ensures ExitsOk(Do(s, step))
  {
    hide Sum, MergedDocs, Split, DocsOf;
  }

  // ---- merging

  lemma OnDiskNone(disk: map<nat, seq<Numbered>>)
    ensures OnDisk(disk, []) == multiset{}
  {
  }

  lemma LastOff(xs: seq<nat>, ys: seq<nat>) returns (front: seq<nat>, last: nat)
    requires ys != []
    ensures ys == front + [last] && xs + ys == (xs + front) + [last]
  {
    front, last := ys[..|ys| - 1], ys[|ys| - 1];
  }

  lemma {:induction false} OnDiskConcat(disk: map<nat, seq<Numbered>>, xs: seq<nat>, ys: seq<nat>)
    ensures OnDisk(disk, xs + ys) == OnDisk(disk, xs) + OnDisk(disk, ys)
    decreases |ys|
  {
    hide Segment, OnDisk;
    if ys == [] {
      OnDiskNone(disk);
      assert xs + ys == xs;
    } else {
      var front, last := LastOff(xs, ys);
      OnDiskConcat(disk, xs, front);
      OnDiskMore(disk, xs + front, last);
      OnDiskMore(disk, front, last);
      Regroup(OnDisk(disk, xs), OnDisk(disk, front), multiset(Segment(disk, last)));
    }
  }

  lemma {:induction false} OnDiskPermuted(disk: map<nat, seq<Numbered>>, xs: seq<nat>, ys: seq<nat>)
    requires multiset(xs) == multiset(ys)
    ensures OnDisk(disk, xs) == OnDisk(disk, ys)
    decreases |xs|
  {
    hide Segment;
    if xs == [] {
      assert |multiset(ys)| == 0;
    } else {
      var j := LastInOther(xs, ys);
      OnDiskPermuted(disk, xs[..|xs| - 1], ys[..j] + ys[j + 1..]);
      OnDiskWithout(disk, ys, j);
    }
  }

  lemma Around(ys: seq<nat>, j: nat) returns (front: seq<nat>, back: seq<nat>)
    requires j < |ys|
    ensures ys == (front + [ys[j]]) + back && ys[..j] + ys[j + 1..] == front + back
  {
    front, back := ys[..j], ys[j + 1..];
  }

  lemma OnDiskWithout(disk: map<nat, seq<Numbered>>, ys: seq<nat>, j: nat)
    requires j < |ys|
    ensures OnDisk(disk, ys) == OnDisk(disk, ys[..j] + ys[j + 1..]) + multiset(Segment(disk, ys[j]))
  {
    hide Segment, OnDisk;
    var front, back := Around(ys, j);
    OnDiskMore(disk, front, ys[j]);
    OnDiskConcat(disk, front + [ys[j]], back);
    OnDiskConcat(disk, front, back);
    Exchange(OnDisk(disk, front), multiset(Segment(disk, ys[j])), OnDisk(disk, back));
  }

  ghost function Flattened(groups: seq<seq<nat>>): seq<nat> {
    if groups == [] then [] else Flattened(groups[..|groups| - 1]) + groups[|groups| - 1]
  }

  lemma {:induction false} FlattenedIds(groups: seq<seq<nat>>)
    ensures multiset(Flattened(groups)) == IdsOf(groups)
  {
    if groups != [] {
      FlattenedIds(groups[..|groups| - 1]);
    }
  }

  // Segments that hold their groups hold together what the groups hold.
  lemma {:induction false} OnDiskGroups(disk: map<nat, seq<Numbered>>, groups: seq<seq<nat>>, outs: seq<nat>)
    requires |outs| == |groups|
    requires forall g :: 0 <= g < |outs| ==> multiset(Segment(disk, outs[g])) == OnDisk(disk, groups[g])
    ensures OnDisk(disk, outs) == OnDisk(disk, Flattened(groups))
  {
    if groups != [] {
      var n := |groups| - 1;
      OnDiskGroups(disk, groups[..n], outs[..n]);
      OnDiskConcat(disk, Flattened(groups[..n]), groups[n]);
    }
  }

  lemma {:induction false} MergedHolds(disk: map<nat, seq<Numbered>>, ids: seq<nat>)
    ensures multiset(MergedDocs(disk, ids)) == OnDisk(disk, ids)
  {
    if ids != [] {
      MergedHolds(disk, ids[..|ids| - 1]);
    }
  }

  lemma {:induction false} TempsDrawn(ws: seq<Worker>)
    ensures multiset(Temps(ws)) <= Sum(Segs, ws)
  {
    if ws != [] {
      TempsDrawn(ws[..|ws| - 1]);
    }
  }

  lemma {:induction false} IdsOfHas(groups: seq<seq<nat>>, g: nat)
    requires g < |groups|
    ensures multiset(groups[g]) <= IdsOf(groups)
  {
    if g < |groups| - 1 {
      IdsOfHas(groups[..|groups| - 1], g);
    }
  }

  lemma MergePlan(s: State, ids: seq<nat>, groupCount: int)
    requires SegsOk(s) && Enabled(s, Plan(ids, groupCount))
    ensures MergeOk(Do(s, Plan(ids, groupCount)))
  {
    hide Sum, OnDisk, IdsOf, Split, Temps;
    if |ids| <= 1 {
      OnDiskPermuted(s.disk, ids, Temps(s.workers));
    } else {
      SplitIsPartition(ids, groupCount);
    }
  }

  lemma MergeGroup(s: State, g: nat)
    requires SegsOk(s) && MergeOk(s) && Enabled(s, Merge(g))
    ensures MergeOk(Do(s, Merge(g)))
  {
    hide Sum, OnDisk, IdsOf, Temps, MergedDocs, SegsOk;
    var s', groups := Do(s, Merge(g)), s.stage.groups;
    MergedHolds(s.disk, groups[g]);
    forall h | 0 <= h < |groups|
      ensures OnDisk(s'.disk, groups[h]) == OnDisk(s.disk, groups[h])
    {
      GroupStays(s, g, h, s'.disk);
    }
  }

  // Writing the output of a group leaves the inputs of every group alone.
  lemma GroupStays(s: State, g: nat, h: nat, disk: map<nat, seq<Numbered>>)
    requires SegsOk(s) && MergeOk(s) && s.stage.Merging? && g < |s.stage.outs| && h < |s.stage.groups|
    requires forall id :: id != s.stage.outs[g] ==> Segment(disk, id) == Segment(s.disk, id)
    ensures OnDisk(disk, s.stage.groups[h]) == OnDisk(s.disk, s.stage.groups[h])
  {
    hide Sum, OnDisk, IdsOf, Temps, MergedDocs, Segment;
    var groups, outs := s.stage.groups, s.stage.outs;
    TempsDrawn(s.workers);
    IdsOfHas(groups, h);
    forall id | id in groups[h]
      ensures id != outs[g]
    {
      assert id in multiset(groups[h]) && id in IdsOf(groups) && id in Sum(Segs, s.workers);
    }
    OnDiskSame(s.disk, disk, groups[h]);
  }

  lemma MergeFinish(s: State)
    requires MergeOk(s) && Enabled(s, Finish)
    ensures MergeOk(Do(s, Finish))
  {
    hide Sum, OnDisk, IdsOf, Temps, Distinct;
    OnDiskGroups(s.disk, s.stage.groups, s.stage.outs);
    FlattenedIds(s.stage.groups);
    OnDiskPermuted(s.disk, Flattened(s.stage.groups), Temps(s.workers));
  }

  // Once a merge is planned no worker moves any more.
  lemma MergeOther(s: State, step: Step)
    requires ExitsOk(s) && MergeOk(s) && Enabled(s, step) && !step.Plan? && !step.Merge? && !step.Finish?
    ensures MergeOk(Do(s, step))
  {
    hide Sum, OnDisk, IdsOf, Temps, Distinct, DocsOf;
  }

  lemma StepKeeps(s: State, step: Step)
    requires Inv(s) && Enabled(s, step)
    ensures Inv(Do(s, step))
  {
    hide NumberedOk, DocsKept, EntriesKept, SegsOk, ExitsOk, MergeOk, Do, Enabled;
    DocsStep(s, step);
    ExitsStep(s, step);
    match step {
      case Process(w) => EntriesProcess(s, w); SegsOther(s, step); MergeOther(s, step);
      case BeginFlush(w) => EntriesOther(s, step); SegsDraw(s, w); MergeOther(s, step);
      case WriteFlush(w) => EntriesWrite(s, w); SegsWrite(s, w); MergeOther(s, step);
      case Plan(ids, groupCount) => EntriesOther(s, step); SegsOther(s, step); MergePlan(s, ids, groupCount);
      case Merge(g) => EntriesOther(s, step); SegsOther(s, step); MergeGroup(s, g);
      case Finish => EntriesOther(s, step); SegsOther(s, step); MergeFinish(s);
      case _ => EntriesOther(s, step); SegsOther(s, step); MergeOther(s, step);
    }
  }

  lemma {:induction false} SumEmpty<T>(f: Worker -> multiset<T>, ws: seq<Worker>)
    requires forall w :: w in ws ==> f(w) == multiset{}
    ensures Sum(f, ws) == multiset{}
  {
    if ws != [] {
      SumEmpty(f, ws[..|ws| - 1]);
    }
  }

  lemma InitOk(capacity: nat, n: nat)
    ensures Inv(Init(capacity, n))
  {
    hide Sum;
    var s := Init(capacity, n);
    SumEmpty(Held, s.workers);
    SumEmpty(Segs, s.workers);
    SumEmpty(Entries(s.disk), s.workers);
  }

  // ---------------------------------------------------------------- runs

  ghost predicate IsRun(states: seq<State>, steps: seq<Step>) {
    && |states| == |steps| + 1
    && forall i :: 0 <= i < |steps| ==> Enabled(states[i], steps[i]) && states[i + 1] == Do(states[i], steps[i])
  }

  lemma {:induction false} RunKeeps(capacity: nat, n: nat, states: seq<State>, steps: seq<Step>, k: nat)
    requires IsRun(states, steps) && states[0] == Init(capacity, n) && k < |states|
    ensures Inv(states[k])
  {
    hide Inv, Do, Enabled, Init;
    if k == 0 {
      InitOk(capacity, n);
    } else {
      RunKeeps(capacity, n, states, steps, k - 1);
      assert states[k] == Do(states[k - 1], steps[k - 1]);
      StepKeeps(states[k - 1], steps[k - 1]);
    }
  }

  lemma {:induction false} TempsOnDisk(disk: map<nat, seq<Numbered>>, ws: seq<Worker>)
    ensures Sum((w: Worker) => OnDisk(disk, w.flushed), ws) == OnDisk(disk, Temps(ws))
  {
    if ws != [] {
      TempsOnDisk(disk, ws[..|ws| - 1]);
      OnDiskConcat(disk, Temps(ws[..|ws| - 1]), ws[|ws| - 1].flushed);
    }
  }

  // What workers still hold in memory when they have exited is lost.
  ghost function Dropped(s: State): multiset<Numbered> {
    Sum(Buffered, s.workers)
  }

  lemma {:induction false} DroppedHas(ws: seq<Worker>, x: Numbered)
    requires x in Sum(Buffered, ws)
    ensures exists w :: 0 <= w < |ws| && x in ws[w].buffer
  {
    var front, last := ws[..|ws| - 1], ws[|ws| - 1];
    if x in multiset(last.buffer) {
      assert ws[|ws| - 1] == last;
    } else {
      DroppedHas(front, x);
      var w :| 0 <= w < |front| && x in front[w].buffer;
      assert ws[w] == front[w];
    }
  }

  // At no time does the queue exceed its capacity, and ids and segment ids
  // are never given out twice.
  lemma Throughout(capacity: nat, n: nat, states: seq<State>, steps: seq<Step>, k: nat)
    requires IsRun(states, steps) && states[0] == Init(capacity, n) && k < |states|
    ensures |states[k].queue| <= states[k].capacity
    ensures forall i :: 0 <= i < |states[k].processed| ==> states[k].processed[i].id == i + 1
    ensures multiset(states[k].processed) == Sum(Entries(states[k].disk), states[k].workers)
    ensures forall id :: Sum(Segs, states[k].workers)[id] <= 1
    ensures states[k].stage.Merging? ==>
              Distinct(states[k].stage.outs) && forall id :: id in states[k].stage.outs ==> id !in Sum(Segs, states[k].workers)
  {
    hide Sum, Init, IsRun, DocsKept, IdsOf, OnDisk, Distinct;
    RunKeeps(capacity, n, states, steps, k);
  }

  // From state s on, where the merge of these segments is planned.
  ghost predicate Follows(s: State, ids: seq<nat>, groupCount: int, s': State) {
    var groups := Split(ids, groupCount);
    && s'.workers == s.workers && s'.closed
    && (forall id :: id in ids ==> Segment(s'.disk, id) == Segment(s.disk, id))
    && match s'.stage
       case Building => false
       case Merging(gs, outs, merged) =>
         |ids| > 1 && gs == groups && outs == Numbers(s.nextSeg, |groups|) && MergedSoFar(s, groups, outs, merged, false, s')
       case Finished(finals) =>
         if |ids| <= 1 then finals == ids
         else finals == Numbers(s.nextSeg, |groups|) && MergedSoFar(s, groups, finals, {}, true, s')
  }

  ghost predicate MergedSoFar(s: State, groups: seq<seq<nat>>, outs: seq<nat>, merged: set<nat>, all: bool, s': State) {
    |outs| == |groups| && forall g :: 0 <= g < |groups| && (all || g in merged) ==> Segment(s'.disk, outs[g]) == MergedDocs(s.disk, groups[g])
  }

  lemma PlanFollows(s: State, ids: seq<nat>, groupCount: int)
    requires Enabled(s, Plan(ids, groupCount))
    ensures Follows(s, ids, groupCount, Do(s, Plan(ids, groupCount)))
  {
    hide Split, Temps;
  }

  // The segments of a group are among those planned.
  lemma GroupOfIds(ids: seq<nat>, groupCount: int, g: nat)
    requires g < |Split(ids, groupCount)|
    ensures forall id :: id in Split(ids, groupCount)[g] ==> id in ids
  {
    hide Split;
    SplitIsPartition(ids, groupCount);
    IdsOfHas(Split(ids, groupCount), g);
    forall id | id in Split(ids, groupCount)[g]
      ensures id in ids
    {
      assert id in multiset(Split(ids, groupCount)[g]) && id in IdsOf(Split(ids, groupCount)) && id in multiset(ids);
    }
  }

  lemma {:induction false} MergedSame(disk: map<nat, seq<Numbered>>, disk': map<nat, seq<Numbered>>, ids: seq<nat>)
    requires forall id :: id in ids ==> Segment(disk', id) == Segment(disk, id)
    ensures MergedDocs(disk', ids) == MergedDocs(disk, ids)
  {
    hide Segment;
    if ids != [] {
      MergedSame(disk, disk', ids[..|ids| - 1]);
    }
  }

  lemma StepFollows(s: State, ids: seq<nat>, groupCount: int, s': State, step: Step)
    requires Inv(s) && Enabled(s, Plan(ids, groupCount)) && Inv(s') && Follows(s, ids, groupCount, s') && Enabled(s', step)
    ensures Follows(s, ids, groupCount, Do(s', step))
  {
    hide Split, Temps, NumberedOk, DocsKept, EntriesKept, Sum, IdsOf, OnDisk, MergedDocs, Distinct;
    if step.Merge? {
      MergeFollows(s, ids, groupCount, s', step.g);
    }
  }

  lemma MergeFollows(s: State, ids: seq<nat>, groupCount: int, s': State, g: nat)
    requires Enabled(s, Plan(ids, groupCount)) && Inv(s') && Follows(s, ids, groupCount, s') && Enabled(s', Merge(g))
    ensures Follows(s, ids, groupCount, Do(s', Merge(g)))
  {
    hide Split, Temps, NumberedOk, DocsKept, EntriesKept, ExitsOk, Sum, IdsOf, OnDisk, MergedDocs, Distinct, Segment;
    GroupOfIds(ids, groupCount, g);
    MergedSame(s.disk, s'.disk, Split(ids, groupCount)[g]);
    OutsAreNew(ids, s', g);
    Overwritten(s'.disk, s'.stage.outs[g], MergedDocs(s'.disk, s'.stage.groups[g]));
  }

  // A merge writes to none of the segments planned, nor to another's output.
  lemma OutsAreNew(ids: seq<nat>, s': State, g: nat)
    requires s'.stage.Merging? && g < |s'.stage.outs| && multiset(ids) == multiset(Temps(s'.workers)) && Inv(s')
    ensures forall id :: id in ids ==> id != s'.stage.outs[g]
    ensures forall h :: 0 <= h < |s'.stage.outs| && h != g ==> s'.stage.outs[h] != s'.stage.outs[g]
  {
    hide Split, NumberedOk, DocsKept, EntriesKept, ExitsOk, Sum, IdsOf, OnDisk, MergedDocs;
    TempsDrawn(s'.workers);
    forall id | id in ids
      ensures id != s'.stage.outs[g]
    {
      assert id in multiset(ids) && id in multiset(Temps(s'.workers)) && id in Sum(Segs, s'.workers);
    }
  }

  lemma Overwritten(disk: map<nat, seq<Numbered>>, out: nat, xs: seq<Numbered>)
    ensures Segment(disk[out := xs], out) == xs
    ensures forall id :: id != out ==> Segment(disk[out := xs], id) == Segment(disk, id)
  {
  }

  lemma {:induction false} RunFollows(capacity: nat, n: nat, states: seq<State>, steps: seq<Step>, j: nat, k: nat)
    requires IsRun(states, steps) && states[0] == Init(capacity, n) && j < k < |states| && steps[j].Plan?
    ensures Follows(states[j], steps[j].ids, steps[j].groupCount, states[k])
  {
    hide Inv, Do, Enabled, Init, Follows;
    assert states[j + 1] == Do(states[j], steps[j]) && Enabled(states[j], steps[j]);
    if k == j + 1 {
      PlanFollows(states[j], steps[j].ids, steps[j].groupCount);
    } else {
      RunFollows(capacity, n, states, steps, j, k - 1);
      RunKeeps(capacity, n, states, steps, j);
      RunKeeps(capacity, n, states, steps, k - 1);
      assert states[k] == Do(states[k - 1], steps[k - 1]) && Enabled(states[k - 1], steps[k - 1]);
      StepFollows(states[j], steps[j].ids, steps[j].groupCount, states[k - 1], steps[k - 1]);
    }
  }

  lemma {:induction false} WasPlanned(capacity: nat, n: nat, states: seq<State>, steps: seq<Step>, k: nat) returns (j: nat)
    requires IsRun(states, steps) && states[0] == Init(capacity, n) && k < |states| && states[k].stage != Building
    ensures j < k && steps[j].Plan?
  {
    hide Split, MergedDocs, Temps, AnyTerms;
    assert states[k] == Do(states[k - 1], steps[k - 1]) && Enabled(states[k - 1], steps[k - 1]);
    if steps[k - 1].Plan? {
      j := k - 1;
    } else {
      j := WasPlanned(capacity, n, states, steps, k - 1);
    }
  }

  // The final segments: with one temporary segment that one, with more as
  // many as groups were asked for and there are segments, at least one, under
  // consecutive ids. Final segment g has the documents of the temporary
  // segments g, g + n, g + 2n, ... of the list in order of their ids.
  ghost predicate FinalsAre(s: State, ids: seq<nat>, groupCount: int, s': State) {
    && s'.stage.Finished? && InNumberOrder(ids) && multiset(ids) == multiset(Temps(s.workers))
    && var finals := s'.stage.finals;
       if |ids| <= 1 then finals == ids
       else
         && |finals| == (if groupCount <= 1 then 1 else if groupCount < |ids| then groupCount else |ids|)
         && exists groups :: GroupsAre(groups, ids, finals) && forall g :: 0 <= g < |finals| ==>
              finals[g] == s.nextSeg + g && Segment(s'.disk, finals[g]) == MergedDocs(s.disk, groups[g])
  }

  ghost predicate GroupsAre(groups: seq<seq<nat>>, ids: seq<nat>, finals: seq<nat>) {
    |groups| == |finals| && IdsOf(groups) == multiset(ids) && forall i :: 0 <= i < |ids| ==> InGroup(groups, i, ids[i])
  }

  lemma Finals(s: State, ids: seq<nat>, groupCount: int, s': State)
    requires Enabled(s, Plan(ids, groupCount)) && Follows(s, ids, groupCount, s') && s'.stage.Finished?
    ensures FinalsAre(s, ids, groupCount, s')
  {
    hide Split, Temps, MergedDocs, IdsOf, Segment, AllExited;
    var groups, finals := Split(ids, groupCount), s'.stage.finals;
    SplitDeals(ids, groupCount);
    SplitIsPartition(ids, groupCount);
    if |ids| > 1 {
      assert GroupsAre(groups, ids, finals);
    }
  }

  // When commit is through, the accepted documents have the ids 1 to N, and
  // each numbered document is in the final segments once, except for those a
  // worker had buffered behind its last flush; none of these has a term.
  lemma Outcome(capacity: nat, n: nat, states: seq<State>, steps: seq<Step>, k: nat)
    requires n > 0
    requires IsRun(states, steps) && states[0] == Init(capacity, n) && k < |states| && states[k].stage.Finished?
    ensures var s := states[k];
            && |s.processed| == |s.accepted| && multiset(s.accepted) == multiset(DocsOf(s.processed))
            && (forall i :: 0 <= i < |s.processed| ==> s.processed[i].id == i + 1)
            && multiset(s.processed) == OnDisk(s.disk, s.stage.finals) + Dropped(s)
            && (forall x :: x in Dropped(s) ==> !x.doc.hasTerms)
    ensures exists j :: 0 <= j < k && steps[j].Plan? && FinalsAre(states[j], steps[j].ids, steps[j].groupCount, states[k])
  {
    FinalSegments(capacity, n, states, steps, k);
    hide Sum, Init, IsRun, OnDisk, Temps, DocsOf, EntriesKept, MergeOk, DocsKept, ExitsOk, Dropped, SegsOk, FinalsAre;
    RunKeeps(capacity, n, states, steps, k);
    WorkerCount(capacity, n, states, steps, k);
    Settled(states[k]);
    FinalOrDropped(states[k]);
    DroppedTermless(states[k]);
  }

  lemma FinalSegments(capacity: nat, n: nat, states: seq<State>, steps: seq<Step>, k: nat)
    requires IsRun(states, steps) && states[0] == Init(capacity, n) && k < |states| && states[k].stage.Finished?
    ensures exists j :: 0 <= j < k && steps[j].Plan? && FinalsAre(states[j], steps[j].ids, steps[j].groupCount, states[k])
  {
    hide Init, Do, Enabled, Follows, FinalsAre;
    var j := WasPlanned(capacity, n, states, steps, k);
    RunFollows(capacity, n, states, steps, j, k);
    assert Enabled(states[j], steps[j]) && states[j + 1] == Do(states[j], steps[j]);
    Finals(states[j], steps[j].ids, steps[j].groupCount, states[k]);
  }

  lemma FinalOrDropped(s: State)
    requires EntriesKept(s) && MergeOk(s) && s.stage.Finished?
    ensures multiset(s.processed) == OnDisk(s.disk, s.stage.finals) + Dropped(s)
  {
    hide Sum, OnDisk, Temps;
    TempsOnDisk(s.disk, s.workers);
    SumBoth(Buffered, (w: Worker) => OnDisk(s.disk, w.flushed), Entries(s.disk), s.workers);
  }

  lemma DroppedTermless(s: State)
    requires ExitsOk(s) && s.stage.Finished?
    ensures forall x :: x in Dropped(s) ==> !x.doc.hasTerms
  {
    hide Sum;
    forall x | x in Dropped(s)
      ensures !x.doc.hasTerms
    {
      DroppedHas(s.workers, x);
      var w :| 0 <= w < |s.workers| && x in s.workers[w].buffer;
    }
  }

  lemma Settled(s: State)
    requires NumberedOk(s) && DocsKept(s) && ExitsOk(s) && s.stage.Finished? && |s.workers| > 0
    ensures |s.processed| == |s.accepted| && multiset(s.accepted) == multiset(DocsOf(s.processed))
  {
    hide Sum;
    assert s.workers[0].phase == Exited;
    SumEmpty(Held, s.workers);
    assert |multiset(s.accepted)| == |multiset(DocsOf(s.processed))|;
  }

  lemma {:induction false} WorkerCount(capacity: nat, n: nat, states: seq<State>, steps: seq<Step>, k: nat)
    requires IsRun(states, steps) && states[0] == Init(capacity, n) && k < |states|
    ensures |states[k].workers| == n
  {
    if k > 0 {
      WorkerCount(capacity, n, states, steps, k - 1);
      assert states[k] == Do(states[k - 1], steps[k - 1]);
    }
  }

  // ---------------------------------------------------------------- what can be dropped

  // If every accepted document has a term none is dropped.
  lemma NothingDropped(capacity: nat, n: nat, states: seq<State>, steps: seq<Step>, k: nat)
    requires n > 0
    requires IsRun(states, steps) && states[0] == Init(capacity, n) && k < |states| && states[k].stage.Finished?
    requires forall d :: d in states[k].accepted ==> d.hasTerms
    ensures multiset(states[k].processed) == OnDisk(states[k].disk, states[k].stage.finals)
  {
    hide IsRun, Init, OnDisk, Dropped;
    var s := states[k];
    Outcome(capacity, n, states, steps, k);
    if x :| x in Dropped(s) {
      DroppedAccepted(s, x);
    }
    assert Dropped(s) == multiset{};
  }

  lemma DroppedAccepted(s: State, x: Numbered)
    requires multiset(s.accepted) == multiset(DocsOf(s.processed)) && x in multiset(s.processed)
    ensures x.doc in s.accepted
  {
    var i :| 0 <= i < |s.processed| && s.processed[i] == x;
    assert DocsOf(s.processed)[i] == x.doc;
    assert x.doc in multiset(s.accepted);
  }

  // Some run from the start leads to s.
  ghost predicate Reachable(capacity: nat, n: nat, s: State) {
    exists states, steps :: RunTo(capacity, n, states, steps, s)
  }

  ghost predicate RunTo(capacity: nat, n: nat, states: seq<State>, steps: seq<Step>, s: State) {
    IsRun(states, steps) && states[0] == Init(capacity, n) && states[|states| - 1] == s
  }

  lemma OneStep(capacity: nat, n: nat, s: State, step: Step)
    requires Reachable(capacity, n, s) && Enabled(s, step)
    ensures Reachable(capacity, n, Do(s, step))
  {
    hide Enabled, Do, Init;
    var states, steps :| RunTo(capacity, n, states, steps, s);
    assert RunTo(capacity, n, states + [Do(s, step)], steps + [step], Do(s, step));
  }

  // Between documents: nothing is queued, every worker waits, and nothing
  // with a term is left in a buffer.
  ghost predicate Calm(s: State) {
    && s.queue == [] && !s.closed && s.stage == Building
    && forall w :: 0 <= w < |s.workers| ==> s.workers[w].phase == Idle && !AnyTerms(s.workers[w].buffer)
  }

  // Worker w takes one document in.
  lemma TakeIn(capacity: nat, n: nat, s: State, w: nat, doc: Doc) returns (s': State)
    requires Reachable(capacity, n, s) && Calm(s) && s.capacity > 0 && w < |s.workers|
    ensures Reachable(capacity, n, s')
    ensures var x := Numbered(s.nextDoc, doc);
            s' == s.(workers := s.workers[w := Worker(Deciding, s.workers[w].buffer + [x], s.workers[w].flushed)],
                     nextDoc := s.nextDoc + 1, accepted := s.accepted + [doc], processed := s.processed + [x])
  {
    hide Reachable;
    var s1 := Do(s, Push(doc));
    OneStep(capacity, n, s, Push(doc));
    OneStep(capacity, n, s1, Pop(w));
    var s2 := Do(s1, Pop(w));
    OneStep(capacity, n, s2, Process(w));
    s' := Do(s2, Process(w));
    assert s.queue + [doc] == [doc];
  }

  // It flushes what it has if there is a term in it, and waits again.
  lemma Decide(capacity: nat, n: nat, s: State, w: nat) returns (s': State)
    requires Reachable(capacity, n, s) && w < |s.workers| && s.workers[w].phase == Deciding
    ensures Reachable(capacity, n, s')
    ensures |s'.workers| == |s.workers| && s'.workers == s.workers[w := s'.workers[w]] && s'.workers[w].phase == Idle
    ensures s'.workers[w].buffer == if AnyTerms(s.workers[w].buffer) then [] else s.workers[w].buffer
    ensures s'.queue == s.queue && s'.closed == s.closed && s'.stage == s.stage && s'.accepted == s.accepted && s'.capacity == s.capacity
  {
    hide Reachable, AnyTerms;
    if AnyTerms(s.workers[w].buffer) {
      var s1 := Do(s, BeginFlush(w));
      OneStep(capacity, n, s, BeginFlush(w));
      OneStep(capacity, n, s1, WriteFlush(w));
      s' := Do(s1, WriteFlush(w));
    } else {
      OneStep(capacity, n, s, KeepOn(w));
      s' := Do(s, KeepOn(w));
    }
  }

  lemma Handle(capacity: nat, n: nat, s: State, w: nat, doc: Doc) returns (s': State)
    requires Reachable(capacity, n, s) && Calm(s) && s.capacity > 0 && w < |s.workers|
    ensures Reachable(capacity, n, s') && Calm(s') && s'.capacity == s.capacity && s'.accepted == s.accepted + [doc]
    ensures |s'.workers| == |s.workers| && s'.workers == s.workers[w := s'.workers[w]]
    ensures s'.workers[w].buffer != [] <==> !doc.hasTerms
  {
    hide Reachable;
    var s1 := TakeIn(capacity, n, s, w, doc);
    s' := Decide(capacity, n, s1, w);
    var buffer := s1.workers[w].buffer;
    assert buffer[|buffer| - 1].doc == doc;
    assert forall i :: 0 <= i < |buffer| - 1 ==> buffer[i] == s.workers[w].buffer[i];
    assert doc.hasTerms ==> AnyTerms(buffer);
  }

  // One worker, one document without a term: the worker numbers it, has
  // nothing to flush, and exits; the index ends up without a segment.
  lemma DroppedExample(d: Doc) returns (s: State)
    requires !d.hasTerms
    ensures Reachable(1, 1, s) && s.accepted == [d] && s.stage == Finished([]) && Dropped(s) == multiset{Numbered(1, d)}
  {
    hide Reachable;
    var x := Numbered(1, d);
    Begun(1, 1);
    s := TakeIn(1, 1, Init(1, 1), 0, d);
    assert s.workers[0] == Worker(Deciding, [x], []);
    OneStep(1, 1, s, KeepOn(0));
    s := WithoutMore(Do(s, KeepOn(0)), x);
  }

  // The only worker, with nothing to flush, is let go.
  lemma WithoutMore(s: State, x: Numbered) returns (s': State)
    requires Reachable(1, 1, s) && s.workers == [Worker(Idle, [x], [])] && s.queue == [] && s.stage == Building && !s.closed
    requires !x.doc.hasTerms
    ensures Reachable(1, 1, s') && s'.accepted == s.accepted && s'.stage == Finished([]) && Dropped(s') == multiset{x}
  {
    hide Reachable, Temps, Sum, Split;
    OneStep(1, 1, s, Close);
    var s1 := AllQuit(1, 1, Do(s, Close), 1);
    assert s1.workers == [Worker(Exited, [x], [])];
    SoleWorker(s1.workers[0]);
    OneStep(1, 1, s1, Plan([], 1));
    s' := Do(s1, Plan([], 1));
  }

  lemma SoleWorker(w: Worker)
    ensures Temps([w]) == w.flushed && Sum(Buffered, [w]) == multiset(w.buffer)
  {
    assert [w][..0] == [];
  }

  // Documents that some run of n workers can drop one of: with several
  // workers any without a term, with one worker only the last.
  ghost predicate Droppable(n: nat, docs: seq<Doc>) {
    if n == 1 then docs != [] && !docs[|docs| - 1].hasTerms
    else n > 1 && exists d :: d in docs && !d.hasTerms
  }

  // Documents without a term all go to worker 0, with several workers the
  // others to worker 1; everyone flushes as soon as there is something to.
  lemma {:induction false} Fill(capacity: nat, n: nat, docs: seq<Doc>) returns (s: State)
    requires capacity > 0 && n > 0
    ensures Reachable(capacity, n, s) && Calm(s) && s.capacity == capacity && s.accepted == docs && |s.workers| == n
    ensures s.workers[0].buffer != [] <==> Droppable(n, docs)
  {
    hide Reachable;
    if docs == [] {
      s := Init(capacity, n);
      Begun(capacity, n);
    } else {
      var front, d := docs[..|docs| - 1], docs[|docs| - 1];
      var s0 := Fill(capacity, n, front);
      s := Handle(capacity, n, s0, if d.hasTerms && n > 1 then 1 else 0, d);
      assert docs == front + [d];
    }
  }

  lemma Begun(capacity: nat, n: nat)
    ensures Reachable(capacity, n, Init(capacity, n))
  {
    assert RunTo(capacity, n, [Init(capacity, n)], [], Init(capacity, n));
  }

  // The first k workers, with nothing to do and nothing to flush, exit.
  lemma {:induction false} AllQuit(capacity: nat, n: nat, s: State, k: nat) returns (s': State)
    requires Reachable(capacity, n, s) && Drained(s) && s.stage == Building && k <= |s.workers|
    requires forall w :: 0 <= w < |s.workers| ==> s.workers[w].phase == Idle && !AnyTerms(s.workers[w].buffer)
    ensures Reachable(capacity, n, s') && s' == s.(workers := s'.workers) && |s'.workers| == |s.workers|
    ensures forall w :: 0 <= w < |s.workers| ==> s'.workers[w] == if w < k then s.workers[w].(phase := Exited) else s.workers[w]
  {
    hide Reachable, AnyTerms;
    if k == 0 {
      s' := s;
    } else {
      var s1 := AllQuit(capacity, n, s, k - 1);
      OneStep(capacity, n, s1, Quit(k - 1));
      s' := Do(s1, Quit(k - 1));
    }
  }

  lemma {:induction false} Ordered(xs: seq<nat>) returns (ys: seq<nat>)
    ensures multiset(ys) == multiset(xs) && InNumberOrder(ys)
  {
    if xs == [] {
      ys := [];
    } else {
      var x := xs[|xs| - 1];
      var zs := Ordered(xs[..|xs| - 1]);
      Snoc(xs);
      ys := PutIn(zs, x);
    }
  }

  lemma {:induction false} PutIn(zs: seq<nat>, x: nat) returns (ys: seq<nat>)
    requires InNumberOrder(zs)
    ensures multiset(ys) == multiset(zs) + multiset{x} && InNumberOrder(ys)
    ensures forall y :: y in ys ==> y in zs || y == x
  {
    hide InNumberOrder;
    if zs == [] || zs[|zs| - 1] <= x {
      ys := zs + [x];
      WithoutLast(zs);
      LastInOrder(zs, x);
    } else {
      var n := |zs| - 1;
      WithoutLast(zs);
      var front := PutIn(zs[..n], x);
      Snoc(zs);
      forall y | y in front
        ensures y <= zs[n]
      {
        assert y == x || y in zs;
      }
      LastInOrder(front, zs[n]);
      ys := front + [zs[n]];
    }
  }

  lemma WithoutLast(zs: seq<nat>)
    requires InNumberOrder(zs)
    ensures zs != [] ==> InNumberOrder(zs[..|zs| - 1]) && forall y :: y in zs ==> y <= zs[|zs| - 1]
  {
  }

  lemma LastInOrder(front: seq<nat>, last: nat)
    requires InNumberOrder(front) && forall y :: y in front ==> y <= last
    ensures InNumberOrder(front + [last])
  {
    forall i | 0 <= i < |front|
      ensures front[i] <= last
    {
      assert front[i] in front;
    }
  }

  // With all workers gone the build can be merged to its end.
  lemma MergeUp(capacity: nat, n: nat, s: State) returns (s': State)
    requires Reachable(capacity, n, s) && s.closed && s.stage == Building && AllExited(s.workers)
    ensures Reachable(capacity, n, s') && s'.stage.Finished? && s'.accepted == s.accepted && s'.workers == s.workers
  {
    hide Reachable, Temps, MergedDocs;
    var ids := Ordered(Temps(s.workers));
    OneStep(capacity, n, s, Plan(ids, 1));
    s' := Do(s, Plan(ids, 1));
    if |ids| > 1 {
      OneStep(capacity, n, s', Merge(0));
      s' := Do(s', Merge(0));
      OneStep(capacity, n, s', Finish);
      s' := Do(s', Finish);
    }
  }

  lemma WindUp(capacity: nat, n: nat, s: State) returns (s': State)
    requires Reachable(capacity, n, s) && Calm(s) && |s.workers| > 0
    ensures Reachable(capacity, n, s') && s'.stage.Finished? && s'.accepted == s.accepted
    ensures |s'.workers| == |s.workers| && s'.workers[0].buffer == s.workers[0].buffer
  {
    hide Reachable;
    OneStep(capacity, n, s, Close);
    var s1 := AllQuit(capacity, n, Do(s, Close), |s.workers|);
    s' := MergeUp(capacity, n, s1);
  }

  // A finished build has accepted these documents and dropped one.
  ghost predicate Drops(capacity: nat, n: nat, docs: seq<Doc>, s: State) {
    Reachable(capacity, n, s) && s.stage.Finished? && s.accepted == docs && Dropped(s) != multiset{}
  }

  // A single worker numbers documents in the order they came, and buffers the
  // last of them.
  ghost predicate FirstInFirstOut(s: State) {
    && |s.workers| == 1
    && s.accepted == DocsOf(s.processed) + (if s.workers[0].phase.Holding? then [s.workers[0].phase.doc] else []) + s.queue
    && |s.workers[0].buffer| <= |s.processed|
    && s.processed[|s.processed| - |s.workers[0].buffer|..] == s.workers[0].buffer
  }

  lemma FirstInStep(s: State, step: Step)
    requires FirstInFirstOut(s) && Enabled(s, step)
    ensures FirstInFirstOut(Do(s, step))
  {
    hide AnyTerms, DocsOf, Do, Enabled;
    if step.Close? || step.Plan? || step.Merge? || step.Finish? {
      StageOnly(s, step);
    } else if step.Process? {
      FirstInProcess(s, step);
    } else {
      FirstInWork(s, step);
    }
  }

  lemma FirstInWork(s: State, step: Step)
    requires FirstInFirstOut(s) && Enabled(s, step)
    requires !(step.Process? || step.Close? || step.Plan? || step.Merge? || step.Finish?)
    ensures FirstInFirstOut(Do(s, step))
  {
    hide AnyTerms, DocsOf;
  }

  lemma FirstInProcess(s: State, step: Step)
    requires FirstInFirstOut(s) && Enabled(s, step) && step.Process?
    ensures FirstInFirstOut(Do(s, step))
  {
    hide AnyTerms, DocsOf;
    OneMoreDoc(s.processed, Numbered(s.nextDoc, s.workers[0].phase.doc));
  }

  lemma OneMoreDoc(xs: seq<Numbered>, x: Numbered)
    ensures DocsOf(xs + [x]) == DocsOf(xs) + [x.doc]
  {
  }

  lemma {:induction false} StaysFirstIn(capacity: nat, states: seq<State>, steps: seq<Step>, k: nat)
    requires IsRun(states, steps) && states[0] == Init(capacity, 1) && k < |states|
    ensures FirstInFirstOut(states[k])
  {
    hide Do, Enabled, FirstInFirstOut;
    if k == 0 {
      assert FirstInFirstOut(Init(capacity, 1)) by { StartsFirstIn(capacity); }
    } else {
      StaysFirstIn(capacity, states, steps, k - 1);
      assert states[k] == Do(states[k - 1], steps[k - 1]);
      FirstInStep(states[k - 1], steps[k - 1]);
    }
  }

  lemma StartsFirstIn(capacity: nat)
    ensures FirstInFirstOut(Init(capacity, 1))
  {
  }

  // A queue without capacity takes nothing in.
  lemma {:induction false} NothingAccepted(n: nat, states: seq<State>, steps: seq<Step>, k: nat)
    requires IsRun(states, steps) && states[0] == Init(0, n) && k < |states|
    ensures states[k].capacity == 0 && states[k].accepted == []
  {
    hide Do, Enabled;
    if k > 0 {
      NothingAccepted(n, states, steps, k - 1);
      assert Enabled(states[k - 1], steps[k - 1]) && states[k] == Do(states[k - 1], steps[k - 1]);
      NoRoom(states[k - 1], steps[k - 1]);
    }
  }

  lemma NoRoom(s: State, step: Step)
    requires s.capacity == 0 && s.accepted == [] && Enabled(s, step)
    ensures Do(s, step).capacity == 0 && Do(s, step).accepted == []
  {
    hide Split, MergedDocs, Temps, AnyTerms, AllExited, InNumberOrder;
  }

  lemma LastDropped(s: State)
    requires FirstInFirstOut(s) && ExitsOk(s) && s.stage.Finished? && Dropped(s) != multiset{}
    ensures Droppable(1, s.accepted)
  {
    hide DocsOf;
    var buffer := s.workers[0].buffer;
    assert s.workers == [s.workers[0]];
    SoleWorker(s.workers[0]);
    LastDoc(s.processed);
    assert buffer[|buffer| - 1] == s.processed[|s.processed| - 1];
  }

  lemma LastDoc(xs: seq<Numbered>)
    requires xs != []
    ensures |DocsOf(xs)| == |xs| && DocsOf(xs)[|xs| - 1] == xs[|xs| - 1].doc
  {
  }

  lemma DroppedDroppable(capacity: nat, n: nat, s: State)
    requires Reachable(capacity, n, s) && s.stage.Finished? && Dropped(s) != multiset{}
    ensures capacity > 0 && Droppable(n, s.accepted)
  {
    hide Dropped, OnDisk, DocsOf, Init, Inv;
    var states, steps :| RunTo(capacity, n, states, steps, s);
    var k := |states| - 1;
    WorkerCount(capacity, n, states, steps, k);
    if n == 0 {
      NoWorkers(s);
    } else {
      Outcome(capacity, n, states, steps, k);
      var x :| x in Dropped(s);
      DroppedAccepted(s, x);
      if capacity == 0 {
        NothingAccepted(n, states, steps, k);
      }
      if n == 1 {
        StaysFirstIn(capacity, states, steps, k);
        RunKeeps(capacity, n, states, steps, k);
        assert ExitsOk(s) by { KeptExits(s); }
        LastDropped(s);
      }
    }
  }

  lemma KeptExits(s: State)
    requires Inv(s)
    ensures ExitsOk(s)
  {
  }

  lemma NoWorkers(s: State)
    requires s.workers == []
    ensures Dropped(s) == multiset{}
  {
  }

  // Some run over these documents drops one exactly when there are several
  // workers and one of the documents has no term, or one worker and the last
  // document has none.
  lemma DropsIff(capacity: nat, n: nat, docs: seq<Doc>)
    ensures (exists s :: Drops(capacity, n, docs, s)) <==> capacity > 0 && Droppable(n, docs)
  {
    hide Reachable, Droppable;
    if capacity > 0 && Droppable(n, docs) {
      assert n > 0 by { NeedsWorkers(n, docs); }
      var s0 := Fill(capacity, n, docs);
      var s := WindUp(capacity, n, s0);
      SumHas(Buffered, s.workers, 0);
      assert Buffered(s.workers[0]) != multiset{} by { BufferedSome(s.workers[0]); }
      assert Drops(capacity, n, docs, s);
    }
    if s :| Drops(capacity, n, docs, s) {
      DroppedDroppable(capacity, n, s);
    }
  }

  lemma NeedsWorkers(n: nat, docs: seq<Doc>)
    requires Droppable(n, docs)
    ensures n > 0
  {
  }

  lemma BufferedSome(w: Worker)
    requires w.buffer != []
    ensures Buffered(w) != multiset{}
  {
    assert w.buffer[0] in Buffered(w);
  }
}
