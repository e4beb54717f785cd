// Real-time indexing: writer threads freeze segments into a queue, a worker
// flushes and merges them, and the searcher's reader list is swapped under a
// lock. Every mutex-protected section, atomic increment and write to a
// thread's own segment is one step; steps of different parties interleave
// freely.
module Realtime {
  import opened Prelude
  import opened Sorting

  type Doc = nat

  // An entry of all_readers_. A memory reader sees its segment as it grows.
  datatype Reader = Memory(id: nat) | Disk(id: nat)

  // Where a writer thread stands inside freeze() and shutdown().
  datatype Phase = Idle | Freezing | Allocated(id: nat) | Registered(id: nat) | Pushed(id: nat) | Gone

  // hadDocs remembers whether the segment active at shutdown held documents.
  datatype Thread = Thread(active: nat, phase: Phase, shut: bool, hadDocs: bool)
  {
    // In the middle of freeze(), with the next segment at hand.
    predicate HasNew() {
      phase.Allocated? || phase.Registered? || phase.Pushed?
    }

    // Segments only this thread may touch.
    function Own(): set<nat> {
      match phase
      case Idle => {active}
      case Freezing => {active}
      case Allocated(id) => {active, id}
      case Registered(id) => {active, id}
      case Pushed(id) => {id}
      case Gone => {}
    }

    // Those of them whose reader the searcher has.
    function Shown(): set<nat> {
      if phase.Allocated? then {active} else Own()
    }
  }

  // Where the worker stands: entries are named by the segment they freeze.
  datatype Worker =
    | Waiting
    | Flushing(batch: seq<nat>, tmp: seq<nat>)
    | Writing(batch: seq<nat>, tmp: seq<nat>, id: nat)
    | Merging(batch: seq<nat>, tmp: seq<nat>, id: nat)
    | Ready(batch: seq<nat>, id: nat)
    | Exited
  {
    function Batch(): seq<nat> {
      if Waiting? || Exited? then [] else batch
    }

    // Disk segments that are being worked on and no reader shows yet.
    function Pending(): seq<nat> {
      match this
      case Waiting => []
      case Flushing(_, tmp) => tmp
      case Writing(_, tmp, id) => tmp + [id]
      case Merging(_, tmp, id) => tmp + [id]
      case Ready(_, id) => [id]
      case Exited => []
    }
  }

  // `accepted`, `committed` and `issued` are history: the documents taken
  // in, the disk segments handed to the searcher, all segment ids given out.
  datatype State = State(
    nextId: nat,
    threads: seq<Thread>,
    segs: map<nat, seq<Doc>>,
    queue: seq<nat>,
    worker: Worker,
    disk: map<nat, seq<Doc>>,
    readers: seq<Reader>,
    stopping: bool,
    accepted: seq<Doc>,
    committed: set<nat>,
    issued: seq<nat>)

  datatype Step =
    | Add(t: nat, doc: Doc, full: bool)   // full: the segment must be frozen now
    | Allocate(t: nat)
    | Register(t: nat)
    | Push(t: nat)
    | Switch(t: nat)
    | Shutdown(t: nat)
    | Take
    | FlushBegin
    | FlushWrite
    | MergeBegin
    | MergeWrite
    | Commit
    | Stop
    | Exit

  const MAX_BATCH := 3

  // n writer threads, each with an empty segment the searcher can see.
  function Init(start: nat, n: nat): State {
    var ids := Numbers(start, n);
    State(start + n,
          seq(n, i requires 0 <= i < n => Thread(ids[i], Idle, false, false)),
          map id | id in ids :: [],
          [], Waiting, map[],
          seq(n, i requires 0 <= i < n => Memory(ids[i])),
          false, [], {}, ids)
  }

  // ---------------------------------------------------------------- steps

  predicate Enabled(s: State, step: Step) {
    match step
    case Add(t, doc, _) =>
      t < |s.threads| && s.threads[t].phase == Idle && !s.threads[t].shut && doc !in s.accepted && !s.stopping
    case Allocate(t) => t < |s.threads| && s.threads[t].phase == Freezing
    case Register(t) => t < |s.threads| && s.threads[t].phase.Allocated?
    case Push(t) => t < |s.threads| && s.threads[t].phase.Registered?
    case Switch(t) => t < |s.threads| && s.threads[t].phase.Pushed?
    case Shutdown(t) => t < |s.threads| && s.threads[t].phase == Idle && !s.threads[t].shut
    case Take => s.worker == Waiting && s.queue != []
    case FlushBegin => s.worker.Flushing? && |s.worker.tmp| < |s.worker.batch|
    case FlushWrite => s.worker.Writing?
    case MergeBegin => s.worker.Flushing? && |s.worker.tmp| == |s.worker.batch|
    case MergeWrite => s.worker.Merging?
    case Commit => s.worker.Ready?
    case Stop => forall t :: 0 <= t < |s.threads| ==> s.threads[t].shut && s.threads[t].phase in {Idle, Gone}
    case Exit => s.worker == Waiting && s.stopping && s.queue == []
  }

  function DocsIn(segs: map<nat, seq<Doc>>, id: nat): seq<Doc> {
    if id in segs then segs[id] else []
  }

  // erase(remove(...)): every occurrence goes.
  function Without(readers: seq<Reader>, r: Reader): seq<Reader> {
    if readers == [] then []
    else
      var front := Without(readers[..|readers| - 1], r);
      if readers[|readers| - 1] == r then front else front + [readers[|readers| - 1]]
  }

  function WithoutAll(readers: seq<Reader>, ids: seq<nat>): seq<Reader> {
    if ids == [] then readers
    else Without(WithoutAll(readers, ids[..|ids| - 1]), Memory(ids[|ids| - 1]))
  }

  // What merging the segments `ids` yields: their documents one after the other.
  function Merged(disk: map<nat, seq<Doc>>, ids: seq<nat>): seq<Doc> {
    if ids == [] then [] else Merged(disk, ids[..|ids| - 1]) + DocsIn(disk, ids[|ids| - 1])
  }

  function WithThread(s: State, t: nat, thread: Thread): State
    requires t < |s.threads|
  {
    s.(threads := s.threads[t := thread])
  }

  // fetch_add on the shared segment counter.
  function Allocating(s: State): State {
    s.(nextId := s.nextId + 1, issued := s.issued + [s.nextId])
  }

  function Do(s: State, step: Step): State
    requires Enabled(s, step)
  {
    match step
    case Add(t, doc, full) =>
      var th := s.threads[t];
      WithThread(s, t, th.(phase := if full then Freezing else Idle))
        .(segs := s.segs[th.active := DocsIn(s.segs, th.active) + [doc]], accepted := s.accepted + [doc])
    case Allocate(t) =>
      WithThread(Allocating(s), t, s.threads[t].(phase := Allocated(s.nextId))).(segs := s.segs[s.nextId := []])
    case Register(t) =>
      var id := s.threads[t].phase.id;
      WithThread(s, t, s.threads[t].(phase := Registered(id))).(readers := s.readers + [Memory(id)])
    case Push(t) =>
      WithThread(s, t, s.threads[t].(phase := Pushed(s.threads[t].phase.id))).(queue := s.queue + [s.threads[t].active])
    case Switch(t) =>
      WithThread(s, t, s.threads[t].(active := s.threads[t].phase.id, phase := Idle))
    case Shutdown(t) =>
      var th := s.threads[t];
      if |DocsIn(s.segs, th.active)| > 0 then
        WithThread(s, t, th.(shut := true, phase := Freezing, hadDocs := true))
      else
        WithThread(s, t, th.(shut := true, phase := Gone, hadDocs := false)).(readers := Without(s.readers, Memory(th.active)))
    case Take =>
      var n := if |s.queue| < MAX_BATCH then |s.queue| else MAX_BATCH;
      s.(queue := s.queue[n..], worker := Flushing(s.queue[..n], []))
    case FlushBegin =>
      Allocating(s).(worker := Writing(s.worker.batch, s.worker.tmp, s.nextId))
    case FlushWrite =>
      var w := s.worker;
      s.(disk := s.disk[w.id := if |w.tmp| < |w.batch| then DocsIn(s.segs, w.batch[|w.tmp|]) else []],
         worker := Flushing(w.batch, w.tmp + [w.id]))
    case MergeBegin =>
      if |s.worker.tmp| == 1 then s.(worker := Ready(s.worker.batch, s.worker.tmp[0]))
      else Allocating(s).(worker := Merging(s.worker.batch, s.worker.tmp, s.nextId))
    case MergeWrite =>
      var w := s.worker;
      s.(disk := (s.disk - (set id | id in w.tmp))[w.id := Merged(s.disk, w.tmp)], worker := Ready(w.batch, w.id))
    case Commit =>
      s.(readers := WithoutAll(s.readers + [Disk(s.worker.id)], s.worker.batch),
         committed := s.committed + {s.worker.id}, worker := Waiting)
    case Stop => s.(stopping := true)
    case Exit => s.(worker := Exited)
  }

  // ---------------------------------------------------------------- what readers show

  function Content(r: Reader, segs: map<nat, seq<Doc>>, disk: map<nat, seq<Doc>>): seq<Doc> {
    match r
    case Memory(id) => DocsIn(segs, id)
    case Disk(id) => DocsIn(disk, id)
  }

  // Everything a list of readers shows, with multiplicity.
  ghost function Visible(readers: seq<Reader>, segs: map<nat, seq<Doc>>, disk: map<nat, seq<Doc>>): multiset<Doc> {
    if readers == [] then multiset{}
    else Visible(readers[..|readers| - 1], segs, disk) + multiset(Content(readers[|readers| - 1], segs, disk))
  }

  ghost function Shows(s: State, readers: seq<Reader>): multiset<Doc> {
    Visible(readers, s.segs, s.disk)
  }

  ghost function SumOf(segs: map<nat, seq<Doc>>, ids: seq<nat>): multiset<Doc> {
    if ids == [] then multiset{} else SumOf(segs, ids[..|ids| - 1]) + multiset(DocsIn(segs, ids[|ids| - 1]))
  }

  // ---------------------------------------------------------------- the invariant

  // Segment ids are given out once.
  ghost predicate IssuedOk(issued: seq<nat>, nextId: nat) {
    Distinct(issued) && forall id :: id in issued ==> id < nextId
  }

  // No two threads hold the same segment.
  ghost predicate Apart(threads: seq<Thread>) {
    && (forall t, u, id :: 0 <= t < |threads| && 0 <= u < |threads| && t != u && id in threads[t].Own() ==>
          id !in threads[u].Own())
    && (forall t :: 0 <= t < |threads| && threads[t].HasNew() ==> threads[t].phase.id != threads[t].active)
  }

  // What has been handed over is held by no thread any more, and is either in
  // the queue or with the worker, once.
  ghost predicate HandedOver(threads: seq<Thread>, queue: seq<nat>, batch: seq<nat>) {
    && (forall t, id :: 0 <= t < |threads| && id in threads[t].Own() ==> id !in queue && id !in batch)
    && Distinct(queue) && Distinct(batch)
    && (forall id :: id in queue ==> id !in batch)
  }

  ghost predicate Known(threads: seq<Thread>, queue: seq<nat>, batch: seq<nat>, nextId: nat, ids: set<nat>) {
    && (forall id :: id in ids ==> id < nextId)
    && (forall t :: 0 <= t < |threads| ==> threads[t].Own() <= ids)
    && (forall id :: id in queue || id in batch ==> id in ids)
  }

  ghost predicate IdsOk(s: State) {
    && IssuedOk(s.issued, s.nextId)
    && Apart(s.threads)
    && HandedOver(s.threads, s.queue, s.worker.Batch())
    && Known(s.threads, s.queue, s.worker.Batch(), s.nextId, s.segs.Keys)
  }

  ghost predicate ShownBy(threads: seq<Thread>, id: nat) {
    exists t :: 0 <= t < |threads| && id in threads[t].Shown()
  }

  // The searcher has exactly the readers it should have, once each.
  ghost predicate ReadersOk(s: State) {
    && Distinct(s.readers)
    && (forall id :: Memory(id) in s.readers <==> ShownBy(s.threads, id) || id in s.queue || id in s.worker.Batch())
    && (forall id :: Disk(id) in s.readers <==> id in s.committed)
  }

  // Committed segments stay on disk and are never worked on again.
  ghost predicate PendingOk(committed: set<nat>, onDisk: set<nat>, pending: seq<nat>, nextId: nat) {
    && (forall id :: id in committed ==> id < nextId && id in onDisk && id !in pending)
    && Distinct(pending) && (forall id :: id in pending ==> id < nextId)
  }

  // What the worker has on disk is what it took from the queue.
  ghost predicate TakenOk(w: Worker, segs: map<nat, seq<Doc>>, disk: map<nat, seq<Doc>>) {
    match w
    case Waiting => true
    case Exited => true
    case Flushing(batch, tmp) => 0 < |batch| && Copied(segs, disk, batch, tmp)
    case Writing(batch, tmp, _) => |tmp| < |batch| && Copied(segs, disk, batch, tmp)
    case Merging(batch, tmp, _) => 1 < |tmp| == |batch| && Copied(segs, disk, batch, tmp)
    case Ready(batch, id) => id in disk && multiset(disk[id]) == SumOf(segs, batch)
  }

  ghost predicate WorkerOk(s: State) {
    && PendingOk(s.committed, s.disk.Keys, s.worker.Pending(), s.nextId)
    && TakenOk(s.worker, s.segs, s.disk)
    && (forall id :: id in s.disk ==> id < s.nextId)
    && (s.worker.Writing? || s.worker.Merging? ==> s.worker.id !in s.disk)
    && (s.worker == Exited ==> s.stopping && s.queue == [])
  }

  ghost predicate Copied(segs: map<nat, seq<Doc>>, disk: map<nat, seq<Doc>>, batch: seq<nat>, tmp: seq<nat>) {
    |tmp| <= |batch| && forall i :: 0 <= i < |tmp| ==> tmp[i] in disk && disk[tmp[i]] == DocsIn(segs, batch[i])
  }

  // A thread that has shut down leaves nothing unflushed behind.
  ghost predicate ShutOk(s: State) {
    && (forall t :: 0 <= t < |s.threads| && s.threads[t].shut && s.threads[t].phase == Idle ==>
          DocsIn(s.segs, s.threads[t].active) == [] && s.threads[t].hadDocs)
    && (forall t :: 0 <= t < |s.threads| && s.threads[t].phase == Gone ==> s.threads[t].shut && !s.threads[t].hadDocs)
    && (forall t :: 0 <= t < |s.threads| && s.threads[t].shut && s.threads[t].phase != Gone ==> s.threads[t].hadDocs)
    && (forall t, id :: 0 <= t < |s.threads| && id in s.threads[t].Own() && id != s.threads[t].active ==> DocsIn(s.segs, id) == [])
    && (s.stopping ==> forall t :: 0 <= t < |s.threads| ==> s.threads[t].shut && s.threads[t].phase in {Idle, Gone})
  }

  // Every accepted document is shown by the readers, once.
  ghost predicate DocsOk(s: State) {
    Distinct(s.accepted) && Shows(s, s.readers) == multiset(s.accepted)
  }

  ghost predicate Inv(s: State) {
    IdsOk(s) && ReadersOk(s) && WorkerOk(s) && ShutOk(s) && DocsOk(s)
  }

  // ---------------------------------------------------------------- readers

  lemma VisibleMore(readers: seq<Reader>, r: Reader, segs: map<nat, seq<Doc>>, disk: map<nat, seq<Doc>>)
    ensures Visible(readers + [r], segs, disk) == Visible(readers, segs, disk) + multiset(Content(r, segs, disk))
  {
    assert (readers + [r])[..|readers|] == readers;
  }

  lemma {:induction false} VisibleSame(readers: seq<Reader>, segs: map<nat, seq<Doc>>, disk: map<nat, seq<Doc>>,
                                       segs': map<nat, seq<Doc>>, disk': map<nat, seq<Doc>>)
    requires forall r :: r in readers ==> Content(r, segs', disk') == Content(r, segs, disk)
    ensures Visible(readers, segs', disk') == Visible(readers, segs, disk)
  {
    if readers != [] {
      VisibleSame(readers[..|readers| - 1], segs, disk, segs', disk');
    }
  }

  // A document added to segment id shows through its one reader.
  lemma {:induction false} VisibleAdd(readers: seq<Reader>, segs: map<nat, seq<Doc>>, segs': map<nat, seq<Doc>>,
                                      disk: map<nat, seq<Doc>>, id: nat, doc: Doc)
    requires Distinct(readers) && Memory(id) in readers
    requires multiset(DocsIn(segs', id)) == multiset(DocsIn(segs, id)) + multiset{doc}
    requires forall k :: k != id ==> DocsIn(segs', k) == DocsIn(segs, k)
    ensures Visible(readers, segs', disk) == Visible(readers, segs, disk) + multiset{doc}
  {
    hide DocsIn;
    var front, last := readers[..|readers| - 1], readers[|readers| - 1];
    assert readers == front + [last];
    if last == Memory(id) {
      assert Memory(id) !in front;
      VisibleSame(front, segs, disk, segs', disk);
    } else {
      VisibleAdd(front, segs, segs', disk, id, doc);
    }
  }

  lemma {:induction false} WithoutMembers(readers: seq<Reader>, r: Reader)
    ensures forall x :: x in Without(readers, r) <==> x in readers && x != r
    ensures Distinct(readers) ==> Distinct(Without(readers, r))
  {
    if readers != [] {
      var front, last := readers[..|readers| - 1], readers[|readers| - 1];
      assert readers == front + [last];
      WithoutMembers(front, r);
      if Distinct(readers) {
        assert last !in front;
      }
    }
  }

  lemma {:induction false} WithoutNone(readers: seq<Reader>, r: Reader)
    requires r !in readers
    ensures Without(readers, r) == readers
  {
    if readers != [] {
      WithoutNone(readers[..|readers| - 1], r);
    }
  }

  lemma {:induction false} VisibleWithout(readers: seq<Reader>, r: Reader, segs: map<nat, seq<Doc>>, disk: map<nat, seq<Doc>>)
    requires Distinct(readers) && r in readers
    ensures Visible(readers, segs, disk) == Visible(Without(readers, r), segs, disk) + multiset(Content(r, segs, disk))
  {
    var front, last := readers[..|readers| - 1], readers[|readers| - 1];
    assert readers == front + [last];
    if last == r {
      assert r !in front;
      WithoutNone(front, r);
    } else {
      VisibleWithout(front, r, segs, disk);
      VisibleMore(Without(front, r), last, segs, disk);
    }
  }

  // Taking the memory readers of a batch out takes out exactly what their
  // segments hold.
  lemma {:induction false} VisibleWithoutAll(readers: seq<Reader>, ids: seq<nat>, segs: map<nat, seq<Doc>>, disk: map<nat, seq<Doc>>)
    requires Distinct(readers) && Distinct(ids) && forall id :: id in ids ==> Memory(id) in readers
    ensures Visible(readers, segs, disk) == Visible(WithoutAll(readers, ids), segs, disk) + SumOf(segs, ids)
    ensures Distinct(WithoutAll(readers, ids))
    ensures forall x :: x in WithoutAll(readers, ids) <==> x in readers && !(x.Memory? && x.id in ids)
  {
    if ids != [] {
      var front, last := ids[..|ids| - 1], ids[|ids| - 1];
      assert ids == front + [last];
      assert last !in front;
      VisibleWithoutAll(readers, front, segs, disk);
      hide Visible, Without;
      WithoutMembers(WithoutAll(readers, front), Memory(last));
      VisibleWithout(WithoutAll(readers, front), Memory(last), segs, disk);
      Regroup(Visible(WithoutAll(readers, ids), segs, disk), multiset(DocsIn(segs, last)), SumOf(segs, front));
      Swap(multiset(DocsIn(segs, last)), SumOf(segs, front));
    }
  }

  lemma Swap(a: multiset<Doc>, b: multiset<Doc>)
    ensures a + b == b + a
  {
  }

  lemma {:induction false} MergedAll(segs: map<nat, seq<Doc>>, disk: map<nat, seq<Doc>>, batch: seq<nat>, tmp: seq<nat>)
    requires |tmp| == |batch| && forall i :: 0 <= i < |tmp| ==> tmp[i] in disk && disk[tmp[i]] == DocsIn(segs, batch[i])
    ensures multiset(Merged(disk, tmp)) == SumOf(segs, batch)
  {
    if tmp != [] {
      MergedAll(segs, disk, batch[..|batch| - 1], tmp[..|tmp| - 1]);
    }
  }

  lemma {:induction false} SumSame(segs: map<nat, seq<Doc>>, segs': map<nat, seq<Doc>>, ids: seq<nat>)
    requires forall id :: id in ids ==> DocsIn(segs', id) == DocsIn(segs, id)
    ensures SumOf(segs', ids) == SumOf(segs, ids)
  {
    if ids != [] {
      SumSame(segs, segs', ids[..|ids| - 1]);
    }
  }

  // ---------------------------------------------------------------- each step keeps the invariant

  // A thread may give up segments and take fresh ones.
  lemma ApartKept(threads: seq<Thread>, t: nat, th: Thread, extra: set<nat>)
    requires Apart(threads) && t < |threads|
    requires th.Own() <= threads[t].Own() + extra
    requires forall u, id :: 0 <= u < |threads| && id in extra ==> id !in threads[u].Own()
    requires th.HasNew() ==> th.phase.id != th.active
    ensures Apart(threads[t := th])
  {
    hide Thread.Own;
  }

  lemma HandedKept(threads: seq<Thread>, t: nat, th: Thread, extra: set<nat>, queue: seq<nat>, batch: seq<nat>)
    requires HandedOver(threads, queue, batch) && t < |threads|
    requires th.Own() <= threads[t].Own() + extra
    requires forall id :: id in extra ==> id !in queue && id !in batch
    ensures HandedOver(threads[t := th], queue, batch)
  {
    hide Thread.Own;
  }

  // A step of thread t that keeps or gives up what the thread holds.
  lemma ThreadIds(s: State, t: nat, th: Thread, segs: map<nat, seq<Doc>>)
    requires IdsOk(s) && t < |s.threads| && th.Own() <= s.threads[t].Own() && s.segs.Keys == segs.Keys
    requires th.HasNew() ==> th.phase.id != th.active
    ensures IdsOk(s.(threads := s.threads[t := th], segs := segs))
  {
    hide IssuedOk, Apart, HandedOver;
    ApartKept(s.threads, t, th, {});
    HandedKept(s.threads, t, th, {}, s.queue, s.worker.Batch());
  }

  lemma IdsKeptByThread(s: State, step: Step)
    requires IdsOk(s) && Enabled(s, step) && (step.Add? || step.Register? || step.Switch? || step.Shutdown?)
    ensures IdsOk(Do(s, step))
  {
    hide IssuedOk, HandedOver;
    var th, s' := Do(s, step).threads[step.t], Do(s, step);
    assert s.threads[step.t].Own() <= s.segs.Keys;
    assert s'.segs.Keys == s.segs.Keys;
    ThreadIds(s, step.t, th, s'.segs);
  }

  lemma IssuedMore(issued: seq<nat>, nextId: nat)
    requires IssuedOk(issued, nextId)
    ensures IssuedOk(issued + [nextId], nextId + 1)
  {
    assert nextId !in issued;
  }

  lemma IdsKeptByAllocate(s: State, t: nat)
    requires IdsOk(s) && Enabled(s, Allocate(t))
    ensures IdsOk(Do(s, Allocate(t)))
  {
    hide IssuedOk, Apart, HandedOver;
    var th := Do(s, Allocate(t)).threads[t];
    IssuedMore(s.issued, s.nextId);
    assert s.nextId !in s.segs.Keys;
    assert Do(s, Allocate(t)).segs.Keys == s.segs.Keys + {s.nextId};
    ApartKept(s.threads, t, th, {s.nextId});
    HandedKept(s.threads, t, th, {s.nextId}, s.queue, s.worker.Batch());
  }

  // The thread hands its old segment over.
  lemma IdsKeptByPush(s: State, t: nat)
    requires IdsOk(s) && Enabled(s, Push(t))
    ensures IdsOk(Do(s, Push(t)))
  {
    hide IssuedOk;
    var s' := Do(s, Push(t));
    var th, active := s'.threads[t], s.threads[t].active;
    ApartKept(s.threads, t, th, {});
    assert active in s.threads[t].Own() && active !in th.Own() && s.threads[t].Own() <= s.segs.Keys;
    assert active !in s.queue && active !in s.worker.Batch();
    forall u, id | 0 <= u < |s'.threads| && id in s'.threads[u].Own()
      ensures id !in s'.queue
    {
      assert id in s.threads[u].Own();
      assert id != active;
    }
  }

  lemma IdsKeptByWorker(s: State, step: Step)
    requires IdsOk(s) && Enabled(s, step)
    requires step in {Take, FlushBegin, FlushWrite, MergeBegin, MergeWrite, Commit, Stop, Exit}
    ensures IdsOk(Do(s, step))
  {
    hide IssuedOk, Apart, HandedOver, Known, Merged, WithoutAll, DocsIn;
    IssuedMore(s.issued, s.nextId);
    var s' := Do(s, step);
    if step.Take? {
      TakeHandsOver(s.threads, s.queue, if |s.queue| < MAX_BATCH then |s.queue| else MAX_BATCH, s.nextId, s.segs.Keys);
    } else {
      BatchKept(s.threads, s.queue, s.worker.Batch(), s'.worker.Batch(), s.nextId, s'.nextId, s.segs.Keys);
    }
  }

  // The worker keeps its batch, or is done with it.
  lemma BatchKept(threads: seq<Thread>, queue: seq<nat>, batch: seq<nat>, batch': seq<nat>,
                  nextId: nat, nextId': nat, ids: set<nat>)
    requires HandedOver(threads, queue, batch) && Known(threads, queue, batch, nextId, ids)
    requires nextId <= nextId' && (batch' == batch || batch' == [])
    ensures HandedOver(threads, queue, batch') && Known(threads, queue, batch', nextId', ids)
  {
    hide Thread.Own;
  }

  lemma TakeHandsOver(threads: seq<Thread>, queue: seq<nat>, n: nat, nextId: nat, ids: set<nat>)
    requires HandedOver(threads, queue, []) && Known(threads, queue, [], nextId, ids) && n <= |queue|
    ensures HandedOver(threads, queue[n..], queue[..n]) && Known(threads, queue[n..], queue[..n], nextId, ids)
  {
    hide Thread.Own;
    TakeSplits(queue, n);
  }

  lemma TakeSplits(queue: seq<nat>, n: nat)
    requires Distinct(queue) && n <= |queue|
    ensures Distinct(queue[..n]) && Distinct(queue[n..])
    ensures forall id :: id in queue <==> id in queue[..n] || id in queue[n..]
    ensures forall id :: id in queue[n..] ==> id !in queue[..n]
  {
    assert queue == queue[..n] + queue[n..];
    forall id | id in queue[n..]
      ensures id !in queue[..n]
    {
      var i :| 0 <= i < |queue[n..]| && queue[n..][i] == id;
      assert queue[n + i] == id;
    }
  }

  lemma ShownUpdate(threads: seq<Thread>, t: nat, th: Thread)
    requires Apart(threads) && t < |threads|
    ensures forall id :: ShownBy(threads[t := th], id) <==>
              id in th.Shown() || (ShownBy(threads, id) && id !in threads[t].Shown())
  {
    hide Thread.Own, Thread.Shown;
    var threads' := threads[t := th];
    forall id
      ensures ShownBy(threads', id) <==> id in th.Shown() || (ShownBy(threads, id) && id !in threads[t].Shown())
    {
      if id in threads[t].Shown() {
        ShownOwned(threads, t, id);
      }
      if ShownBy(threads, id) && id !in threads[t].Shown() {
        var u :| 0 <= u < |threads| && id in threads[u].Shown();
        assert threads'[u] == threads[u];
      }
      if id in th.Shown() {
        assert id in threads'[t].Shown();
      }
    }
  }

  // Only thread t can show what thread t shows.
  lemma ShownOwned(threads: seq<Thread>, t: nat, id: nat)
    requires Apart(threads) && t < |threads| && id in threads[t].Shown()
    ensures forall u :: 0 <= u < |threads| && u != t ==> id !in threads[u].Shown()
  {
    assert id in threads[t].Own();
    forall u | 0 <= u < |threads| && u != t
      ensures id !in threads[u].Shown()
    {
      assert id !in threads[u].Own();
    }
  }

  lemma ReadersKeptByThread(s: State, step: Step)
    requires IdsOk(s) && ReadersOk(s) && Enabled(s, step)
    requires step.Add? || step.Allocate? || step.Push? || step.Switch?
    ensures ReadersOk(Do(s, step))
  {
    hide IssuedOk, Apart, HandedOver, Known, ShownBy, Distinct, DocsIn;
    ShownUpdate(s.threads, step.t, Do(s, step).threads[step.t]);
    ShowsOwn(s, step.t);
  }

  lemma ShowsOwn(s: State, t: nat)
    requires IdsOk(s) && t < |s.threads|
    ensures forall id :: id in s.threads[t].Shown() ==> ShownBy(s.threads, id)
    ensures forall id :: id in s.threads[t].Own() ==> id !in s.queue && id !in s.worker.Batch()
    ensures forall id :: id in s.threads[t].Own() && id !in s.threads[t].Shown() ==> !ShownBy(s.threads, id)
    ensures s.threads[t].HasNew() ==> s.threads[t].phase.id != s.threads[t].active
  {
  }

  lemma ReadersKeptByRegister(s: State, t: nat)
    requires IdsOk(s) && ReadersOk(s) && Enabled(s, Register(t))
    ensures ReadersOk(Do(s, Register(t)))
  {
    hide IssuedOk, Apart, HandedOver, Known, ShownBy;
    var s' := Do(s, Register(t));
    ShownUpdate(s.threads, t, s'.threads[t]);
    ShowsOwn(s, t);
  }

  lemma ReadersKeptByShutdown(s: State, t: nat)
    requires IdsOk(s) && ReadersOk(s) && Enabled(s, Shutdown(t))
    ensures ReadersOk(Do(s, Shutdown(t)))
  {
    hide IssuedOk, Apart, HandedOver, Known, ShownBy, Distinct, Without;
    var s' := Do(s, Shutdown(t));
    ShownUpdate(s.threads, t, s'.threads[t]);
    ShowsOwn(s, t);
    WithoutMembers(s.readers, Memory(s.threads[t].active));
  }

  lemma ReadersKeptByWorker(s: State, step: Step)
    requires IdsOk(s) && ReadersOk(s) && WorkerOk(s) && Enabled(s, step)
    requires step in {Take, FlushBegin, FlushWrite, MergeBegin, MergeWrite, Stop, Exit}
    ensures ReadersOk(Do(s, step))
  {
    hide IssuedOk, Apart, Known, ShownBy, WithoutAll, Merged, Copied, SumOf, WorkerOk, Distinct;
    if step.Take? {
      assert Distinct(s.queue);
      TakeSplits(s.queue, if |s.queue| < MAX_BATCH then |s.queue| else MAX_BATCH);
    }
  }

  lemma CommitFacts(s: State)
    requires IdsOk(s) && ReadersOk(s) && WorkerOk(s) && s.worker.Ready?
    ensures Distinct(s.worker.batch) && Distinct(s.readers + [Disk(s.worker.id)])
    ensures forall id :: id in s.worker.batch ==> Memory(id) in s.readers
    ensures forall id :: id in s.worker.batch ==> !ShownBy(s.threads, id) && id !in s.queue
  {
    hide IssuedOk, Apart, Known, TakenOk;
    assert s.worker.Pending() == [s.worker.id];
    assert Disk(s.worker.id) !in s.readers;
  }

  lemma CommitReaders(readers: seq<Reader>, id: nat, batch: seq<nat>) returns (out: seq<Reader>)
    requires Distinct(batch) && Distinct(readers + [Disk(id)]) && forall b :: b in batch ==> Memory(b) in readers
    ensures out == WithoutAll(readers + [Disk(id)], batch) && Distinct(out)
    ensures forall b :: Memory(b) in out <==> Memory(b) in readers && b !in batch
    ensures forall b :: Disk(b) in out <==> Disk(b) in readers || b == id
  {
    hide Visible, SumOf, WithoutAll, Distinct;
    out := WithoutAll(readers + [Disk(id)], batch);
    VisibleWithoutAll(readers + [Disk(id)], batch, map[], map[]);
  }

  lemma ReadersKeptByCommit(s: State)
    requires IdsOk(s) && ReadersOk(s) && WorkerOk(s) && Enabled(s, Commit)
    ensures ReadersOk(Do(s, Commit))
  {
    CommitFacts(s);
    hide IdsOk, WorkerOk, ShownBy, WithoutAll, Distinct;
    var out := CommitReaders(s.readers, s.worker.id, s.worker.batch);
    assert Do(s, Commit).readers == out && Do(s, Commit).worker.Batch() == [];
  }

  lemma WorkerKeptByThread(s: State, step: Step)
    requires IdsOk(s) && WorkerOk(s) && ShutOk(s) && Enabled(s, step)
    requires step.Add? || step.Allocate? || step.Register? || step.Push? || step.Switch? || step.Shutdown?
    ensures WorkerOk(Do(s, step))
  {
    hide IssuedOk, Apart, Without, TakenOk, PendingOk;
    var s' := Do(s, step);
    if step.Add? {
      assert s.threads[step.t].active in s.threads[step.t].Own();
    }
    forall id | id in s.worker.Batch()
      ensures DocsIn(s'.segs, id) == DocsIn(s.segs, id)
    {
      assert id in s.segs.Keys;
    }
    TakenStays(s.worker, s.segs, s'.segs, s.disk);
    PendingStays(s.committed, s.disk.Keys, s.worker.Pending(), s.nextId, s'.nextId);
  }

  lemma TakenStays(w: Worker, segs: map<nat, seq<Doc>>, segs': map<nat, seq<Doc>>, disk: map<nat, seq<Doc>>)
    requires TakenOk(w, segs, disk) && forall id :: id in w.Batch() ==> DocsIn(segs', id) == DocsIn(segs, id)
    ensures TakenOk(w, segs', disk)
  {
    SumSame(segs, segs', w.Batch());
  }

  lemma PendingStays(committed: set<nat>, onDisk: set<nat>, pending: seq<nat>, nextId: nat, nextId': nat)
    requires PendingOk(committed, onDisk, pending, nextId) && nextId <= nextId'
    ensures PendingOk(committed, onDisk, pending, nextId')
  {
  }

  lemma WorkerKeptByTakeAndStop(s: State, step: Step)
    requires WorkerOk(s) && Enabled(s, step) && step in {Take, Stop, Exit}
    ensures WorkerOk(Do(s, step))
  {
  }

  lemma PendingMore(committed: set<nat>, onDisk: set<nat>, pending: seq<nat>, nextId: nat)
    requires PendingOk(committed, onDisk, pending, nextId)
    ensures PendingOk(committed, onDisk, pending + [nextId], nextId + 1)
  {
    assert nextId !in pending;
  }

  lemma WorkerKeptByBegin(s: State, step: Step)
    requires WorkerOk(s) && Enabled(s, step) && step in {FlushBegin, MergeBegin}
    ensures WorkerOk(Do(s, step))
  {
    hide PendingOk;
    PendingMore(s.committed, s.disk.Keys, s.worker.tmp, s.nextId);
    if step.MergeBegin? && |s.worker.tmp| == 1 {
      SoleSum(s.segs, s.worker.batch);
      assert s.worker.tmp == [s.worker.tmp[0]];
    }
  }

  lemma WorkerKeptByFlushWrite(s: State)
    requires WorkerOk(s) && Enabled(s, FlushWrite)
    ensures WorkerOk(Do(s, FlushWrite))
  {
    var w, s' := s.worker, Do(s, FlushWrite);
    assert s'.disk.Keys == s.disk.Keys + {w.id};
    assert w.Pending() == s'.worker.Pending();
    assert w.Pending()[|w.tmp|] == w.id && w.id in w.Pending();
    assert forall i :: 0 <= i < |w.tmp| ==> w.Pending()[i] == w.tmp[i];
  }

  lemma PendingMerged(committed: set<nat>, onDisk: set<nat>, tmp: seq<nat>, id: nat, nextId: nat)
    requires PendingOk(committed, onDisk, tmp + [id], nextId)
    ensures PendingOk(committed, onDisk - (set t | t in tmp) + {id}, [id], nextId) && id < nextId
  {
    assert id in tmp + [id];
    assert forall t :: t in tmp ==> t in tmp + [id];
  }

  lemma WorkerKeptByMergeWrite(s: State)
    requires WorkerOk(s) && Enabled(s, MergeWrite)
    ensures WorkerOk(Do(s, MergeWrite))
  {
    hide Merged, PendingOk, SumOf;
    var w, s' := s.worker, Do(s, MergeWrite);
    MergedAll(s.segs, s.disk, w.batch, w.tmp);
    PendingMerged(s.committed, s.disk.Keys, w.tmp, w.id, s.nextId);
    assert s'.disk.Keys == s.disk.Keys - (set t | t in w.tmp) + {w.id};
  }

  lemma SoleSum(segs: map<nat, seq<Doc>>, ids: seq<nat>)
    requires |ids| == 1
    ensures SumOf(segs, ids) == multiset(DocsIn(segs, ids[0]))
  {
    assert ids[..0] == [];
  }

  lemma WorkerKeptByCommit(s: State)
    requires WorkerOk(s) && Enabled(s, Commit)
    ensures WorkerOk(Do(s, Commit))
  {
    hide WithoutAll;
    assert s.worker.Pending() == [s.worker.id];
    assert s.worker.id in s.worker.Pending();
  }

  lemma ShutKeptByAdd(s: State, step: Step)
    requires IdsOk(s) && ShutOk(s) && Enabled(s, step) && step.Add?
    ensures ShutOk(Do(s, step))
  {
    hide IssuedOk, HandedOver, Known;
    var t, s' := step.t, Do(s, step);
    assert s.threads[t].active in s.threads[t].Own();
    forall u, id | 0 <= u < |s'.threads| && id in s'.threads[u].Own() && (u != t || id != s.threads[t].active)
      ensures DocsIn(s'.segs, id) == DocsIn(s.segs, id) && id in s.threads[u].Own()
    {
    }
    forall u | 0 <= u < |s.threads| && u != t && s.threads[u].phase == Idle
      ensures s.threads[u].active in s'.threads[u].Own()
    {
    }
  }

  // A thread step that leaves the documents alone.
  lemma ShutKeptByThread(s: State, t: nat, th: Thread, segs: map<nat, seq<Doc>>)
    requires ShutOk(s) && t < |s.threads| && !s.stopping
    requires forall id :: DocsIn(segs, id) == DocsIn(s.segs, id)
    requires th.shut && th.phase == Idle ==> DocsIn(s.segs, th.active) == []
    requires th.shut ==> th.hadDocs == (th.phase != Gone)
    requires th.phase == Gone ==> th.shut
    requires forall id :: id in th.Own() && id != th.active ==> DocsIn(s.segs, id) == []
    ensures ShutOk(s.(threads := s.threads[t := th], segs := segs))
  {
    hide Thread.Own;
  }

  lemma NotStopping(s: State, t: nat)
    requires ShutOk(s) && t < |s.threads| && (!s.threads[t].shut || s.threads[t].phase !in {Idle, Gone})
    ensures !s.stopping
  {
  }

  lemma ShutKept(s: State, step: Step)
    requires IdsOk(s) && ShutOk(s) && Enabled(s, step)
    requires step.Allocate? || step.Register? || step.Push? || step.Switch? || step.Shutdown?
    ensures ShutOk(Do(s, step))
  {
    hide IssuedOk, HandedOver, Without;
    var s' := Do(s, step);
    NotStopping(s, step.t);
    assert s.threads[step.t].shut ==> s.threads[step.t].hadDocs == (s.threads[step.t].phase != Gone);
    if step.Allocate? {
      assert s.nextId !in s.segs.Keys;
    }
    if step.Switch? {
      assert s.threads[step.t].phase.id in s.threads[step.t].Own();
    }
    ShutKeptByThread(s, step.t, s'.threads[step.t], s'.segs);
  }

  lemma ShutKeptByWorker(s: State, step: Step)
    requires ShutOk(s) && Enabled(s, step)
    requires step in {Take, FlushBegin, FlushWrite, MergeBegin, MergeWrite, Commit, Stop, Exit}
    ensures ShutOk(Do(s, step))
  {
    hide Merged, WithoutAll, Thread.Own;
  }

  // ---------------------------------------------------------------- documents

  // A list of readers onto committed disk segments and known memory segments.
  ghost predicate Steady(s: State, readers: seq<Reader>) {
    && Distinct(readers)
    && (forall id :: Memory(id) in readers ==> id in s.segs)
    && (forall id :: Disk(id) in readers ==> id in s.committed)
  }

  // Whatever step is taken, such readers keep showing what they showed, and
  // an added document appears through the reader of its segment only.
  lemma StepShows(s: State, step: Step, readers: seq<Reader>)
    requires IdsOk(s) && WorkerOk(s) && Enabled(s, step) && Steady(s, readers)
    ensures Steady(Do(s, step), readers)
    ensures Shows(Do(s, step), readers) ==
            if step.Add? && Memory(s.threads[step.t].active) in readers then Shows(s, readers) + multiset{step.doc}
            else Shows(s, readers)
  {
    hide Apart, HandedOver, TakenOk, Merged, WithoutAll, Without, Visible, Distinct;
    var s' := Do(s, step);
    if step.Add? && Memory(s.threads[step.t].active) in readers {
      AddShows(s, step, readers);
    } else {
      forall r | r in readers
        ensures Content(r, s'.segs, s'.disk) == Content(r, s.segs, s.disk)
      {
        SameContent(s, step, r);
      }
      VisibleSame(readers, s.segs, s.disk, s'.segs, s'.disk);
    }
  }

  lemma AddShows(s: State, step: Step, readers: seq<Reader>)
    requires step.Add? && Enabled(s, step) && Distinct(readers) && Memory(s.threads[step.t].active) in readers
    ensures Shows(Do(s, step), readers) == Shows(s, readers) + multiset{step.doc}
  {
    hide Visible, Distinct;
    var id, s' := s.threads[step.t].active, Do(s, step);
    assert multiset(DocsIn(s.segs, id) + [step.doc]) == multiset(DocsIn(s.segs, id)) + multiset{step.doc};
    VisibleAdd(readers, s.segs, s'.segs, s.disk, id, step.doc);
  }

  lemma SameContent(s: State, step: Step, r: Reader)
    requires IdsOk(s) && WorkerOk(s) && Enabled(s, step)
    requires if r.Memory? then r.id in s.segs else r.id in s.committed
    requires step.Add? ==> r != Memory(s.threads[step.t].active)
    ensures Content(r, Do(s, step).segs, Do(s, step).disk) == Content(r, s.segs, s.disk)
    ensures if r.Memory? then r.id in Do(s, step).segs else r.id in Do(s, step).committed
  {
    hide Apart, HandedOver, TakenOk, Merged, WithoutAll, Without;
    if step.MergeWrite? && r.Disk? {
      assert s.worker.id in s.worker.Pending();
      assert forall id :: id in s.worker.tmp ==> id in s.worker.Pending();
    }
    if step.FlushWrite? && r.Disk? {
      assert s.worker.id in s.worker.Pending();
    }
  }

  lemma ReadersSteady(s: State)
    requires IdsOk(s) && ReadersOk(s)
    ensures Steady(s, s.readers)
  {
    forall id | Memory(id) in s.readers
      ensures id in s.segs
    {
      if ShownBy(s.threads, id) {
        var t :| 0 <= t < |s.threads| && id in s.threads[t].Shown();
        assert id in s.threads[t].Own() && s.threads[t].Own() <= s.segs.Keys;
      }
    }
  }

  lemma DocsKept(s: State, step: Step)
    requires Inv(s) && Enabled(s, step)
    ensures DocsOk(Do(s, step))
  {
    hide IdsOk, ReadersOk, WorkerOk, ShutOk, Steady, Visible, WithoutAll, Without, Merged, Distinct;
    ReadersSteady(s);
    StepShows(s, step, s.readers);
    if step.Add? {
      ActiveShown(s, step.t);
      AddDistinct(s.accepted, step.doc);
      assert multiset(s.accepted + [step.doc]) == multiset(s.accepted) + multiset{step.doc};
    } else if step.Register? {
      NewIsEmpty(s, step.t);
      VisibleMore(s.readers, Memory(s.threads[step.t].phase.id), s.segs, s.disk);
    } else if step.Shutdown? {
      ShutdownShows(s, step.t);
    } else if step.Commit? {
      CommitFacts(s);
      CommitShows(s);
    }
  }

  lemma AddDistinct(accepted: seq<Doc>, doc: Doc)
    requires Distinct(accepted) && doc !in accepted
    ensures Distinct(accepted + [doc])
  {
  }

  // Only an empty segment's reader is dropped.
  lemma ShutdownShows(s: State, t: nat)
    requires IdsOk(s) && ReadersOk(s) && Enabled(s, Shutdown(t))
    ensures Shows(s, Do(s, Shutdown(t)).readers) == Shows(s, s.readers)
  {
    hide IdsOk, ReadersOk, Visible, Without, Distinct;
    ActiveShown(s, t);
    VisibleWithout(s.readers, Memory(s.threads[t].active), s.segs, s.disk);
  }

  lemma ActiveShown(s: State, t: nat)
    requires IdsOk(s) && ReadersOk(s) && t < |s.threads| && s.threads[t].phase == Idle
    ensures Memory(s.threads[t].active) in s.readers && Distinct(s.readers)
  {
    assert s.threads[t].active in s.threads[t].Shown();
    assert ShownBy(s.threads, s.threads[t].active);
  }

  lemma NewIsEmpty(s: State, t: nat)
    requires IdsOk(s) && ShutOk(s) && t < |s.threads| && s.threads[t].phase.Allocated?
    ensures DocsIn(s.segs, s.threads[t].phase.id) == []
  {
    assert s.threads[t].phase.id in s.threads[t].Own();
    assert s.threads[t].HasNew();
  }

  // The disk segment shows what its batch showed from memory.
  lemma CommitShows(s: State)
    requires WorkerOk(s) && s.worker.Ready?
    requires Distinct(s.worker.batch) && Distinct(s.readers + [Disk(s.worker.id)])
    requires forall id :: id in s.worker.batch ==> Memory(id) in s.readers
    ensures Shows(s, WithoutAll(s.readers + [Disk(s.worker.id)], s.worker.batch)) == Shows(s, s.readers)
  {
    hide PendingOk, Distinct, WithoutAll, Visible;
    VisibleMore(s.readers, Disk(s.worker.id), s.segs, s.disk);
    VisibleWithoutAll(s.readers + [Disk(s.worker.id)], s.worker.batch, s.segs, s.disk);
    Cancel(Shows(s, WithoutAll(s.readers + [Disk(s.worker.id)], s.worker.batch)), Shows(s, s.readers), SumOf(s.segs, s.worker.batch));
  }

  // ---------------------------------------------------------------- runs

  lemma StepKeeps(s: State, step: Step)
    requires Inv(s) && Enabled(s, step)
    ensures Inv(Do(s, step))
  {
    hide IdsOk, ReadersOk, WorkerOk, ShutOk, DocsOk, Do, Enabled;
    DocsKept(s, step);
    if step.Add? {
      IdsKeptByThread(s, step);
      ReadersKeptByThread(s, step);
      WorkerKeptByThread(s, step);
      ShutKeptByAdd(s, step);
    } else if step.Allocate? || step.Register? || step.Push? || step.Switch? || step.Shutdown? {
      FreezeKeeps(s, step);
    } else {
      WorkerStepKeeps(s, step);
    }
  }

  lemma FreezeKeeps(s: State, step: Step)
    requires Inv(s) && Enabled(s, step)
    requires step.Allocate? || step.Register? || step.Push? || step.Switch? || step.Shutdown?
    ensures IdsOk(Do(s, step)) && ReadersOk(Do(s, step)) && WorkerOk(Do(s, step)) && ShutOk(Do(s, step))
  {
    hide IdsOk, ReadersOk, WorkerOk, ShutOk, DocsOk, Do, Enabled;
    WorkerKeptByThread(s, step);
    ShutKept(s, step);
    match step {
      case Allocate(t) => IdsKeptByAllocate(s, t); ReadersKeptByThread(s, step);
      case Register(t) => IdsKeptByThread(s, step); ReadersKeptByRegister(s, t);
      case Push(t) => IdsKeptByPush(s, t); ReadersKeptByThread(s, step);
      case Switch(t) => IdsKeptByThread(s, step); ReadersKeptByThread(s, step);
      case Shutdown(t) => IdsKeptByThread(s, step); ReadersKeptByShutdown(s, t);
    }
  }

  lemma WorkerStepKeeps(s: State, step: Step)
    requires Inv(s) && Enabled(s, step)
    requires step in {Take, FlushBegin, FlushWrite, MergeBegin, MergeWrite, Commit, Stop, Exit}
    ensures IdsOk(Do(s, step)) && ReadersOk(Do(s, step)) && WorkerOk(Do(s, step)) && ShutOk(Do(s, step))
  {
    hide IdsOk, ReadersOk, WorkerOk, ShutOk, DocsOk, Do, Enabled;
    IdsKeptByWorker(s, step);
    ShutKeptByWorker(s, step);
    match step {
      case FlushBegin => WorkerKeptByBegin(s, step); ReadersKeptByWorker(s, step);
      case MergeBegin => WorkerKeptByBegin(s, step); ReadersKeptByWorker(s, step);
      case FlushWrite => WorkerKeptByFlushWrite(s); ReadersKeptByWorker(s, step);
      case MergeWrite => WorkerKeptByMergeWrite(s); ReadersKeptByWorker(s, step);
      case Commit => WorkerKeptByCommit(s); ReadersKeptByCommit(s);
      case _ => WorkerKeptByTakeAndStop(s, step); ReadersKeptByWorker(s, step);
    }
  }

  lemma InitOk(start: nat, n: nat)
    ensures Inv(Init(start, n))
  {
    hide Visible, ReadersOk, IdsOk;
    var s := Init(start, n);
    EmptyShow(s.readers, s.segs, s.disk);
    InitIds(start, n);
    InitReaders(start, n);
  }

  lemma InitIds(start: nat, n: nat)
    ensures IdsOk(Init(start, n))
  {
  }

  lemma InitReaders(start: nat, n: nat)
    ensures ReadersOk(Init(start, n))
  {
    var s := Init(start, n);
    forall id
      ensures Memory(id) in s.readers <==> ShownBy(s.threads, id)
    {
      if Memory(id) in s.readers {
        var i :| 0 <= i < n && s.readers[i] == Memory(id);
        assert id in s.threads[i].Shown();
      }
      if ShownBy(s.threads, id) {
        var t :| 0 <= t < n && id in s.threads[t].Shown();
        assert s.readers[t] == Memory(id);
      }
    }
  }

  lemma {:induction false} EmptyShow(readers: seq<Reader>, segs: map<nat, seq<Doc>>, disk: map<nat, seq<Doc>>)
    requires forall r :: r in readers ==> Content(r, segs, disk) == []
    ensures Visible(readers, segs, disk) == multiset{}
  {
    if readers != [] {
      EmptyShow(readers[..|readers| - 1], segs, disk);
    }
  }

  // The states a schedule of steps passes through.
  ghost predicate IsRun(states: seq<State>, steps: seq<Step>) {
    && |states| == |steps| + 1
    && forall i :: 0 <= i < |steps| ==> Enabled(states[i], steps[i]) && states[i + 1] == Do(states[i], steps[i])
  }

  lemma {:induction false} RunKeeps(start: nat, n: nat, states: seq<State>, steps: seq<Step>, k: nat)
    requires IsRun(states, steps) && states[0] == Init(start, n) && k < |states|
    ensures Inv(states[k])
  {
    hide Inv, Do, Enabled, Init;
    if k == 0 {
      InitOk(start, n);
    } else {
      RunKeeps(start, n, states, steps, k - 1);
      assert states[k] == Do(states[k - 1], steps[k - 1]);
      StepKeeps(states[k - 1], steps[k - 1]);
    }
  }

  // ---------------------------------------------------------------- what it means

  ghost predicate ShownOnlyBy(s: State, doc: Doc, r: Reader) {
    && r in s.readers && multiset(Content(r, s.segs, s.disk))[doc] == 1
    && forall q :: q in s.readers && q != r ==> doc !in Content(q, s.segs, s.disk)
  }

  lemma {:induction false} FindReader(readers: seq<Reader>, segs: map<nat, seq<Doc>>, disk: map<nat, seq<Doc>>, doc: Doc) returns (r: Reader)
    requires Distinct(readers) && Visible(readers, segs, disk)[doc] == 1
    ensures r in readers && multiset(Content(r, segs, disk))[doc] == 1
    ensures forall q :: q in readers && q != r ==> doc !in Content(q, segs, disk)
  {
    var front, last := readers[..|readers| - 1], readers[|readers| - 1];
    assert readers == front + [last];
    if Visible(front, segs, disk)[doc] == 1 {
      r := FindReader(front, segs, disk, doc);
    } else {
      r := last;
      NotShown(front, segs, disk, doc);
    }
  }

  lemma {:induction false} NotShown(readers: seq<Reader>, segs: map<nat, seq<Doc>>, disk: map<nat, seq<Doc>>, doc: Doc)
    requires Visible(readers, segs, disk)[doc] == 0
    ensures forall q :: q in readers ==> doc !in Content(q, segs, disk)
  {
    if readers != [] {
      var front, last := readers[..|readers| - 1], readers[|readers| - 1];
      assert readers == front + [last];
      NotShown(front, segs, disk, doc);
      assert doc !in multiset(Content(last, segs, disk));
    }
  }

  lemma {:induction false} OnceAccepted(accepted: seq<Doc>, doc: Doc)
    requires Distinct(accepted) && doc in accepted
    ensures multiset(accepted)[doc] == 1
  {
    DistinctOnce(accepted, doc);
  }

  // In every state of every run a snapshot of the readers shows each accepted
  // document through exactly one reader, once, and shows nothing else.
  lemma ExactlyOnce(start: nat, n: nat, states: seq<State>, steps: seq<Step>, k: nat, doc: Doc) returns (r: Reader)
    requires IsRun(states, steps) && states[0] == Init(start, n) && k < |states|
    ensures doc in states[k].accepted ==> ShownOnlyBy(states[k], doc, r)
    ensures doc !in states[k].accepted ==> forall q :: q in states[k].readers ==> doc !in Content(q, states[k].segs, states[k].disk)
  {
    RunKeeps(start, n, states, steps, k);
    hide IdsOk, WorkerOk, ShutOk, IsRun, Visible, Init, Distinct;
    var s := states[k];
    if doc in s.accepted {
      OnceAccepted(s.accepted, doc);
      r := FindReader(s.readers, s.segs, s.disk, doc);
    } else {
      r := Memory(0);
      assert doc !in multiset(s.accepted);
      NotShown(s.readers, s.segs, s.disk, doc);
    }
  }

  // A search keeps the readers it copied. However far indexing runs on, they
  // go on showing every document that was accepted when they were copied, and
  // never a document twice.
  lemma {:induction false} SnapshotHolds(start: nat, n: nat, states: seq<State>, steps: seq<Step>, i: nat, k: nat)
    requires IsRun(states, steps) && states[0] == Init(start, n) && i <= k < |states|
    ensures Steady(states[k], states[i].readers)
    ensures multiset(states[i].accepted) <= Shows(states[k], states[i].readers) <= multiset(states[k].accepted)
    ensures Distinct(states[k].accepted)
    decreases k
  {
    hide Steady, Do, Enabled, Init, Shows, IdsOk, WorkerOk, ReadersOk, ShutOk, Distinct;
    RunKeeps(start, n, states, steps, k);
    if k == i {
      ReadersSteady(states[i]);
    } else {
      SnapshotHolds(start, n, states, steps, i, k - 1);
      RunKeeps(start, n, states, steps, k - 1);
      var s, step := states[k - 1], steps[k - 1];
      assert states[k] == Do(s, step);
      StepShows(s, step, states[i].readers);
      AcceptedGrow(s, step);
    }
  }

  lemma AcceptedGrow(s: State, step: Step)
    requires Enabled(s, step)
    ensures multiset(Do(s, step).accepted) == if step.Add? then multiset(s.accepted) + multiset{step.doc} else multiset(s.accepted)
  {
    hide WithoutAll, Without, Merged;
  }

  // Flushes and merges write under ids no one else was given, onto nothing.
  lemma NeverOverwrites(start: nat, n: nat, states: seq<State>, steps: seq<Step>, k: nat)
    requires IsRun(states, steps) && states[0] == Init(start, n) && k < |steps|
    ensures Distinct(states[k].issued)
    ensures steps[k] in {FlushWrite, MergeWrite} ==> states[k].worker.id !in states[k].disk && states[k].worker.id !in states[k].committed
    ensures steps[k] == Commit ==> states[k].worker.id in states[k].disk && Disk(states[k].worker.id) !in states[k].readers
  {
    RunKeeps(start, n, states, steps, k);
    hide Init, ShutOk, DocsOk, TakenOk, Apart, HandedOver, Known;
    if steps[k] == Commit {
      CommitFacts(states[k]);
      InDisk(states[k]);
    }
  }

  lemma InDisk(s: State)
    requires WorkerOk(s) && s.worker.Ready?
    ensures s.worker.id in s.disk
  {
  }

  // Once stop() has returned, the queue is empty and every accepted document
  // is on disk. A memory reader stays behind exactly for each thread whose
  // last segment held documents, and it shows nothing.
  lemma AfterStop(start: nat, n: nat, states: seq<State>, steps: seq<Step>, k: nat)
    requires IsRun(states, steps) && states[0] == Init(start, n) && k < |states| && states[k].worker == Exited
    ensures states[k].queue == []
    ensures forall doc :: doc in states[k].accepted ==> exists id :: ShownOnlyBy(states[k], doc, Disk(id))
    ensures forall id :: Memory(id) in states[k].readers <==>
              exists t :: 0 <= t < |states[k].threads| && states[k].threads[t].active == id && states[k].threads[t].hadDocs
    ensures forall id :: Memory(id) in states[k].readers ==> DocsIn(states[k].segs, id) == []
  {
    RunKeeps(start, n, states, steps, k);
    var s := states[k];
    LeftBehind(s);
    forall doc | doc in s.accepted
      ensures exists id :: ShownOnlyBy(s, doc, Disk(id))
    {
      var r := ExactlyOnce(start, n, states, steps, k, doc);
      assert r.Memory? ==> Content(r, s.segs, s.disk) == [];
      assert ShownOnlyBy(s, doc, Disk(r.id));
    }
  }

  lemma LeftBehind(s: State)
    requires IdsOk(s) && ReadersOk(s) && WorkerOk(s) && ShutOk(s) && s.worker == Exited
    ensures s.queue == [] && s.worker.Batch() == []
    ensures forall id :: Memory(id) in s.readers <==>
              exists t :: 0 <= t < |s.threads| && s.threads[t].active == id && s.threads[t].hadDocs
    ensures forall id :: Memory(id) in s.readers ==> DocsIn(s.segs, id) == []
  {
    hide IdsOk, PendingOk, TakenOk;
    forall id
      ensures ShownBy(s.threads, id) <==> exists t :: 0 <= t < |s.threads| && s.threads[t].active == id && s.threads[t].hadDocs
      ensures ShownBy(s.threads, id) ==> DocsIn(s.segs, id) == []
    {
      if ShownBy(s.threads, id) {
        var t :| 0 <= t < |s.threads| && id in s.threads[t].Shown();
        assert s.threads[t].active == id && s.threads[t].hadDocs;
      }
      if t :| 0 <= t < |s.threads| && s.threads[t].active == id && s.threads[t].hadDocs {
        assert s.threads[t].phase == Idle;
        assert id in s.threads[t].Shown();
      }
    }
  }

  // One thread, one document: after stop() the empty segment created by the
  // last freeze is still among the readers.
  lemma LeftoverExample() returns (states: seq<State>, steps: seq<Step>)
    ensures IsRun(states, steps) && states[0] == Init(1000, 1)
    ensures states[|steps|].worker == Exited && states[|steps|].readers == [Memory(1001), Disk(1002)]
  {
    hide IsRun, Do, Enabled, Init, WithoutAll;
    states, steps := LeftoverFreeze();
    states, steps := LeftoverFlush(states, steps);
    states, steps := LeftoverCommit(states, steps);
  }

  // A run can take one step more.
  lemma OneMore(states: seq<State>, steps: seq<Step>, step: Step) returns (states': seq<State>, steps': seq<Step>)
    requires IsRun(states, steps) && Enabled(states[|steps|], step)
    ensures states' == states + [Do(states[|steps|], step)] && steps' == steps + [step] && IsRun(states', steps')
    ensures states'[0] == states[0] && states'[|steps'|] == Do(states[|steps|], step)
  {
    hide Do, Enabled;
    states', steps' := states + [Do(states[|steps|], step)], steps + [step];
  }

  const FROZEN := State(1002, [Thread(1001, Idle, true, true)], map[1000 := [7], 1001 := []], [1000], Waiting, map[],
                        [Memory(1000), Memory(1001)], false, [7], {}, [1000, 1001])

  const FLUSHED := FROZEN.(nextId := 1003, issued := [1000, 1001, 1002], queue := [], worker := Ready([1000], 1002),
                           disk := map[1002 := [7]])

  const WRITING := FROZEN.(nextId := 1003, issued := [1000, 1001, 1002], queue := [], worker := Writing([1000], [], 1002))

  const ADDED := FROZEN.(nextId := 1001, threads := [Thread(1000, Freezing, true, true)], segs := map[1000 := [7]], queue := [],
                         readers := [Memory(1000)], issued := [1000])

  lemma LeftoverFreeze() returns (states: seq<State>, steps: seq<Step>)
    ensures IsRun(states, steps) && states[0] == Init(1000, 1) && states[|steps|] == FROZEN
  {
    hide IsRun, Init, Do, Enabled;
    states, steps := LeftoverAdd();
    states, steps := LeftoverSwap(states, steps);
  }

  lemma LeftoverAdd() returns (states: seq<State>, steps: seq<Step>)
    ensures IsRun(states, steps) && states[0] == Init(1000, 1) && states[|steps|] == ADDED
  {
    hide IsRun;
    var s0 := Init(1000, 1);
    assert Numbers(1000, 1) == [1000];
    assert s0.threads == [Thread(1000, Idle, false, false)] && s0.readers == [Memory(1000)] && s0.segs == map[1000 := []];
    states, steps := [s0], [];
    assert IsRun(states, steps) by { JustStarted(s0); }
    states, steps := OneMore(states, steps, Add(0, 7, false));
    assert s0.accepted + [7] == [7] && s0.segs[1000] + [7] == [7] && s0.segs[1000 := [7]] == map[1000 := [7]];
    states, steps := OneMore(states, steps, Shutdown(0));
  }

  lemma LeftoverSwap(states0: seq<State>, steps0: seq<Step>) returns (states: seq<State>, steps: seq<Step>)
    requires IsRun(states0, steps0) && states0[|steps0|] == ADDED
    ensures IsRun(states, steps) && states[0] == states0[0] && states[|steps|] == FROZEN
  {
    hide IsRun;
    states, steps := OneMore(states0, steps0, Allocate(0));
    states, steps := OneMore(states, steps, Register(0));
    states, steps := OneMore(states, steps, Push(0));
    states, steps := OneMore(states, steps, Switch(0));
  }

  lemma JustStarted(s: State)
    ensures IsRun([s], [])
  {
  }

  lemma LeftoverFlush(states0: seq<State>, steps0: seq<Step>) returns (states: seq<State>, steps: seq<Step>)
    requires IsRun(states0, steps0) && states0[|steps0|] == FROZEN
    ensures IsRun(states, steps) && states[0] == states0[0] && states[|steps|] == FLUSHED
  {
    hide IsRun;
    states, steps := LeftoverTake(states0, steps0);
    states, steps := OneMore(states, steps, FlushWrite);
    states, steps := OneMore(states, steps, MergeBegin);
  }

  lemma LeftoverTake(states0: seq<State>, steps0: seq<Step>) returns (states: seq<State>, steps: seq<Step>)
    requires IsRun(states0, steps0) && states0[|steps0|] == FROZEN
    ensures IsRun(states, steps) && states[0] == states0[0] && states[|steps|] == WRITING
  {
    hide IsRun;
    assert [1000][..1] == [1000] && [1000][1..] == [];
    states, steps := OneMore(states0, steps0, Take);
    states, steps := OneMore(states, steps, FlushBegin);
  }

  lemma LeftoverCommit(states0: seq<State>, steps0: seq<Step>) returns (states: seq<State>, steps: seq<Step>)
    requires IsRun(states0, steps0) && states0[|steps0|] == FLUSHED
    ensures IsRun(states, steps) && states[0] == states0[0]
    ensures states[|steps|].worker == Exited && states[|steps|].readers == [Memory(1001), Disk(1002)]
  {
    hide IsRun, WithoutAll;
    CommitOne([Memory(1000), Memory(1001)]);
    states, steps := OneMore(states0, steps0, Commit);
    states, steps := OneMore(states, steps, Stop);
    states, steps := OneMore(states, steps, Exit);
  }

  lemma CommitOne(readers: seq<Reader>)
    requires readers == [Memory(1000), Memory(1001)]
    ensures WithoutAll(readers + [Disk(1002)], [1000]) == [Memory(1001), Disk(1002)]
  {
    var all := readers + [Disk(1002)];
    assert [1000][..0] == [];
    assert all[..2] == [Memory(1000), Memory(1001)] && all[..2][..1] == [Memory(1000)] && all[..2][..1][..0] == [];
    assert Without([Memory(1000)], Memory(1000)) == [];
    assert Without([Memory(1000), Memory(1001)], Memory(1000)) == [Memory(1001)];
  }

  // ---------------------------------------------------------------- stop() returns

  ghost function Cost(w: Worker): int {
    match w
    case Exited => 0
    case Waiting => 1
    case Ready(_, _) => 2
    case Merging(_, _, _) => 3
    case Writing(batch, tmp, _) => 3 + 2 * (|batch| - |tmp|)
    case Flushing(batch, tmp) => 4 + 2 * (|batch| - |tmp|)
  }

  // From the moment of stop() on the worker can always take a step until it
  // exits, and each one brings it nearer to its exit.
  lemma StopDrains(s: State) returns (step: Step)
    requires Inv(s) && s.stopping && s.worker != Exited
    ensures Enabled(s, step) && Do(s, step).stopping
    ensures 0 <= 6 * |Do(s, step).queue| + Cost(Do(s, step).worker) < 6 * |s.queue| + Cost(s.worker)
  {
    hide IdsOk, ReadersOk, ShutOk, DocsOk, PendingOk, Merged, WithoutAll;
    match s.worker
    case Waiting => step := if s.queue == [] then Exit else Take;
    case Flushing(batch, tmp) => step := if |tmp| < |batch| then FlushBegin else MergeBegin;
    case Writing(_, _, _) => step := FlushWrite;
    case Merging(_, _, _) => step := MergeWrite;
    case Ready(_, _) => step := Commit;
  }
}
