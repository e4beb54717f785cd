// The order in which the real-time index hands segments on: first frozen,
// first flushed, at most three at a time, and every disk segment with the
// documents of its batch one segment after the other.
module RealtimeOrders {
  import opened Realtime

  // ---------------------------------------------------------------- merged documents

  // How many documents the first k segments have.
  function DocsBefore(segs: map<nat, seq<Doc>>, ids: seq<nat>, k: nat): nat
    requires k <= |ids|
  {
    if k == 0 then 0 else DocsBefore(segs, ids, k - 1) + |DocsIn(segs, ids[k - 1])|
  }

  lemma {:induction false} BeforeInFront(segs: map<nat, seq<Doc>>, ids: seq<nat>, n: nat, k: nat)
    requires k <= n <= |ids|
    ensures DocsBefore(segs, ids[..n], k) == DocsBefore(segs, ids, k)
  {
    hide DocsIn;
    if k > 0 {
      BeforeInFront(segs, ids, n, k - 1);
    }
  }

  lemma {:induction false} MergedLength(segs: map<nat, seq<Doc>>, ids: seq<nat>)
    ensures |Merged(segs, ids)| == DocsBefore(segs, ids, |ids|)
  {
    hide DocsIn;
    if ids != [] {
      MergedLength(segs, ids[..|ids| - 1]);
      BeforeInFront(segs, ids, |ids| - 1, |ids| - 1);
    }
  }

  // A merge keeps the order of its inputs, and of the documents in each.
  lemma {:induction false} MergedInOrder(segs: map<nat, seq<Doc>>, ids: seq<nat>, k: nat, j: nat)
    requires k < |ids| && j < |DocsIn(segs, ids[k])|
    ensures DocsBefore(segs, ids, k) + j < |Merged(segs, ids)|
    ensures Merged(segs, ids)[DocsBefore(segs, ids, k) + j] == DocsIn(segs, ids[k])[j]
    decreases |ids|
  {
    hide DocsIn;
    var n := |ids| - 1;
    MergedLength(segs, ids[..n]);
    BeforeInFront(segs, ids, n, n);
    BeforeInFront(segs, ids, n, k);
    if k < n {
      MergedInOrder(segs, ids[..n], k, j);
    }
  }

  lemma {:induction false} MergedSame(a: map<nat, seq<Doc>>, xs: seq<nat>, b: map<nat, seq<Doc>>, ys: seq<nat>)
    requires |xs| == |ys| && forall i :: 0 <= i < |xs| ==> DocsIn(a, xs[i]) == DocsIn(b, ys[i])
    ensures Merged(a, xs) == Merged(b, ys)
  {
    hide DocsIn;
    if xs != [] {
      MergedSame(a, xs[..|xs| - 1], b, ys[..|ys| - 1]);
    }
  }

  lemma MergedOne(segs: map<nat, seq<Doc>>, id: nat)
    ensures Merged(segs, [id]) == DocsIn(segs, id)
  {
    assert [id][..0] == [];
  }

  // ---------------------------------------------------------------- what is on disk

  // The disk segments of the worker that are written already.
  function WrittenBy(w: Worker): seq<nat> {
    match w
    case Waiting => []
    case Flushing(_, tmp) => tmp
    case Writing(_, tmp, _) => tmp
    case Merging(_, tmp, _) => tmp
    case Ready(_, id) => [id]
    case Exited => []
  }

  // On disk are the committed segments and what the worker is at, no more: a
  // merge leaves none of its inputs behind. A segment that is ready has the
  // documents of its batch in order.
  ghost predicate DiskRight(s: State) {
    && (forall id :: id in s.disk <==> id in s.committed || id in WrittenBy(s.worker))
    && (s.worker.Ready? ==> s.worker.id in s.disk && s.disk[s.worker.id] == Merged(s.segs, s.worker.batch))
  }

  lemma DiskRightKept(s: State, step: Step)
    requires Inv(s) && DiskRight(s) && Enabled(s, step)
    ensures DiskRight(Do(s, step))
  {
    hide Inv, DiskRight, Do, Enabled;
    if step in {FlushWrite, MergeBegin, MergeWrite, Commit} {
      match step {
        case FlushWrite => FlushRight(s);
        case MergeBegin => BeginRight(s);
        case MergeWrite => MergeRight(s);
        case Commit => CommitRight(s);
      }
    } else {
      OtherRight(s, step);
    }
  }

  lemma FlushRight(s: State)
    requires Inv(s) && DiskRight(s) && Enabled(s, FlushWrite)
    ensures DiskRight(Do(s, FlushWrite))
  {
    hide IdsOk, ReadersOk, ShutOk, DocsOk, Merged, PendingOk, TakenOk;
  }

  lemma BeginRight(s: State)
    requires Inv(s) && DiskRight(s) && Enabled(s, MergeBegin)
    ensures DiskRight(Do(s, MergeBegin))
  {
    hide IdsOk, ReadersOk, ShutOk, DocsOk, Merged, PendingOk;
    var w := s.worker;
    if |w.tmp| == 1 {
      assert w.batch == [w.batch[0]];
      MergedOne(s.segs, w.batch[0]);
    }
  }

  lemma MergeRight(s: State)
    requires Inv(s) && DiskRight(s) && Enabled(s, MergeWrite)
    ensures DiskRight(Do(s, MergeWrite))
  {
    hide IdsOk, ReadersOk, ShutOk, DocsOk, Merged;
    var w := s.worker;
    forall i | 0 <= i < |w.tmp|
      ensures DocsIn(s.disk, w.tmp[i]) == DocsIn(s.segs, w.batch[i])
    {
    }
    MergedSame(s.disk, w.tmp, s.segs, w.batch);
    forall id | id in w.tmp
      ensures id !in s.committed && id != w.id
    {
      assert id in w.Pending();
    }
  }

  lemma CommitRight(s: State)
    requires Inv(s) && DiskRight(s) && Enabled(s, Commit)
    ensures DiskRight(Do(s, Commit))
  {
    hide Inv, Merged, WithoutAll;
  }

  lemma OtherRight(s: State, step: Step)
    requires Inv(s) && DiskRight(s) && Enabled(s, step) && step !in {FlushWrite, MergeBegin, MergeWrite, Commit}
    ensures DiskRight(Do(s, step))
  {
    hide ReadersOk, WorkerOk, ShutOk, DocsOk, Merged, Without, Apart;
    var s' := Do(s, step);
    if s.worker.Ready? {
      forall i | 0 <= i < |s.worker.batch|
        ensures DocsIn(s'.segs, s.worker.batch[i]) == DocsIn(s.segs, s.worker.batch[i])
      {
        BatchFrozen(s, step, s.worker.batch[i]);
      }
      MergedSame(s.segs, s.worker.batch, s'.segs, s.worker.batch);
    }
  }

  // Nobody writes to a segment the worker has taken.
  lemma BatchFrozen(s: State, step: Step, id: nat)
    requires IdsOk(s) && Enabled(s, step) && id in s.worker.Batch()
    ensures DocsIn(Do(s, step).segs, id) == DocsIn(s.segs, id)
  {
    hide Apart, Without, WithoutAll, Merged;
    if step.Add? {
      assert s.threads[step.t].active in s.threads[step.t].Own();
    }
  }

  // ---------------------------------------------------------------- first in, first out

  // The segments pushed in the first k steps, and those the worker has taken.
  ghost function Handed(states: seq<State>, steps: seq<Step>, k: nat): seq<nat>
    requires k <= |steps| <= |states|
  {
    if k == 0 then []
    else
      Handed(states, steps, k - 1)
      + (if steps[k - 1].Push? && steps[k - 1].t < |states[k - 1].threads| then [states[k - 1].threads[steps[k - 1].t].active] else [])
  }

  ghost function TakenOff(states: seq<State>, steps: seq<Step>, k: nat): seq<nat>
    requires k <= |steps| < |states|
  {
    if k == 0 then [] else TakenOff(states, steps, k - 1) + (if steps[k - 1].Take? then states[k].worker.Batch() else [])
  }

  // The worker takes three segments, or all there are if they are fewer.
  lemma TakesThree(s: State)
    requires Enabled(s, Take)
    ensures var batch := Do(s, Take).worker.Batch();
            && |batch| == (if |s.queue| < 3 then |s.queue| else 3)
            && batch + Do(s, Take).queue == s.queue
  {
  }

  // Segments are taken in the order they were pushed.
  lemma {:induction false} QueueInOrder(start: nat, n: nat, states: seq<State>, steps: seq<Step>, k: nat)
    requires IsRun(states, steps) && states[0] == Init(start, n) && k <= |steps|
    ensures Handed(states, steps, k) == TakenOff(states, steps, k) + states[k].queue
  {
    hide Do, Enabled, Init, Worker.Batch;
    if k > 0 {
      QueueInOrder(start, n, states, steps, k - 1);
      var s, step := states[k - 1], steps[k - 1];
      assert Enabled(s, step) && states[k] == Do(s, step);
      QueueStep(s, step);
    } else {
      assert states[0].queue == [] by { StartsEmpty(start, n); }
    }
  }

  lemma StartsEmpty(start: nat, n: nat)
    ensures Init(start, n).queue == []
  {
  }

  // Only a push adds to the queue, at its end, and only the worker takes away,
  // from its front.
  lemma QueueStep(s: State, step: Step)
    requires Enabled(s, step)
    ensures if step.Push? then step.t < |s.threads| && Do(s, step).queue == s.queue + [s.threads[step.t].active]
            else if step.Take? then s.queue == Do(s, step).worker.Batch() + Do(s, step).queue
            else Do(s, step).queue == s.queue
  {
    hide Merged, WithoutAll, Without;
  }

  // In every state of every run: the disk holds what it should, in order, and
  // nothing else; batches are non-empty and at most three.
  lemma {:induction false} InOrder(start: nat, n: nat, states: seq<State>, steps: seq<Step>, k: nat)
    requires IsRun(states, steps) && states[0] == Init(start, n) && k < |states|
    ensures DiskRight(states[k])
    ensures |states[k].worker.Batch()| <= 3
  {
    hide Inv, Do, Enabled, Init, DiskRight;
    if k == 0 {
      Begins(start, n);
    } else {
      InOrder(start, n, states, steps, k - 1);
      RunKeeps(start, n, states, steps, k - 1);
      assert Enabled(states[k - 1], steps[k - 1]) && states[k] == Do(states[k - 1], steps[k - 1]);
      DiskRightKept(states[k - 1], steps[k - 1]);
      BatchSize(states[k - 1], steps[k - 1]);
    }
  }

  lemma Begins(start: nat, n: nat)
    ensures DiskRight(Init(start, n)) && Init(start, n).worker.Batch() == []
  {
  }

  lemma BatchSize(s: State, step: Step)
    requires Enabled(s, step) && |s.worker.Batch()| <= 3
    ensures |Do(s, step).worker.Batch()| <= 3
  {
    hide Merged, WithoutAll, Without;
  }

  // ---------------------------------------------------------------- segments

  // Segments only grow, at their end: a document keeps its place.
  lemma SegmentGrows(s: State, step: Step, id: nat)
    requires IdsOk(s) && Enabled(s, step)
    ensures DocsIn(s.segs, id) <= DocsIn(Do(s, step).segs, id)
  {
    hide Merged, WithoutAll, Without, Apart, HandedOver, IssuedOk;
  }

  lemma {:induction false} PlacesStay(start: nat, n: nat, states: seq<State>, steps: seq<Step>, i: nat, j: nat, id: nat)
    requires IsRun(states, steps) && states[0] == Init(start, n) && i <= j < |states|
    ensures DocsIn(states[i].segs, id) <= DocsIn(states[j].segs, id)
  {
    hide Do, Enabled, Init, DocsIn, IdsOk;
    if i < j {
      PlacesStay(start, n, states, steps, i, j - 1, id);
      RunKeeps(start, n, states, steps, j - 1);
      assert Inv(states[j - 1]) && Enabled(states[j - 1], steps[j - 1]) && states[j] == Do(states[j - 1], steps[j - 1]);
      SegmentGrows(states[j - 1], steps[j - 1], id);
    }
  }

  // A segment that is full takes no more documents: its thread first switches
  // to another one.
  lemma FullIsFrozen(states: seq<State>, steps: seq<Step>, i: nat, j: nat)
    requires IsRun(states, steps) && i < j < |steps|
    requires steps[i].Add? && steps[i].full && steps[j].Add? && steps[j].t == steps[i].t
    ensures exists k :: i < k < j && steps[k] == Switch(steps[i].t)
  {
    hide Do, Enabled;
    if forall k :: i < k < j ==> steps[k] != Switch(steps[i].t) {
      StaysFrozen(states, steps, i, j);
      assert Enabled(states[j], steps[j]);
      NotIdle(states[j], steps[j]);
    }
  }

  lemma NotIdle(s: State, step: Step)
    requires step.Add? && Enabled(s, step)
    ensures step.t < |s.threads| && s.threads[step.t].phase == Idle
  {
  }

  predicate InFreeze(s: State, t: nat) {
    t < |s.threads| && s.threads[t].phase != Idle && s.threads[t].phase != Gone
  }

  lemma {:induction false} StaysFrozen(states: seq<State>, steps: seq<Step>, i: nat, j: nat)
    requires IsRun(states, steps) && i < j <= |steps| && steps[i].Add? && steps[i].full
    requires forall k :: i < k < j ==> steps[k] != Switch(steps[i].t)
    ensures InFreeze(states[j], steps[i].t)
  {
    hide Do, Enabled, InFreeze;
    assert Enabled(states[j - 1], steps[j - 1]) && states[j] == Do(states[j - 1], steps[j - 1]);
    if i < j - 1 {
      StaysFrozen(states, steps, i, j - 1);
    }
    FreezeStep(states[j - 1], steps[j - 1], steps[i].t);
  }

  lemma FreezeStep(s: State, step: Step, t: nat)
    requires Enabled(s, step) && ((InFreeze(s, t) && step != Switch(t)) || (step.Add? && step.t == t && step.full))
    ensures InFreeze(Do(s, step), t)
  {
    hide Merged, WithoutAll, Without, DocsIn;
  }

  // Nothing empty is frozen, queued, flushed or on disk.
  ghost predicate NoneEmpty(s: State) {
    && (forall id :: id in s.queue || id in s.worker.Batch() ==> DocsIn(s.segs, id) != [])
    && (forall t :: 0 <= t < |s.threads| && ToPush(s.threads[t]) ==> DocsIn(s.segs, s.threads[t].active) != [])
    && (forall id :: id in s.disk ==> s.disk[id] != [])
  }

  predicate ToPush(th: Thread) {
    th.phase == Freezing || th.phase.Allocated? || th.phase.Registered?
  }

  lemma NoneEmptyKept(s: State, step: Step)
    requires Inv(s) && NoneEmpty(s) && Enabled(s, step)
    ensures NoneEmpty(Do(s, step))
  {
    hide Inv, NoneEmpty, Do, Enabled;
    if step in {FlushWrite, MergeWrite} {
      DiskFilled(s, step);
    } else if step.Add? || step.Allocate? {
      SegmentsFilled(s, step);
    } else if step in {Take, FlushBegin, MergeBegin, Commit, Stop, Exit} {
      WorkerFilled(s, step);
    } else {
      ThreadsFilled(s, step);
    }
  }

  lemma DiskFilled(s: State, step: Step)
    requires Inv(s) && NoneEmpty(s) && Enabled(s, step) && step in {FlushWrite, MergeWrite}
    ensures NoneEmpty(Do(s, step))
  {
    hide IdsOk, ReadersOk, ShutOk, DocsOk, PendingOk;
    var w := s.worker;
    if step == MergeWrite {
      assert w.tmp[|w.tmp| - 1] in s.disk;
    }
  }

  lemma ThreadsFilled(s: State, step: Step)
    requires NoneEmpty(s) && Enabled(s, step) && (step.Register? || step.Push? || step.Switch? || step.Shutdown?)
    ensures NoneEmpty(Do(s, step))
  {
    hide DocsIn, Merged, WithoutAll, Without;
  }

  lemma WorkerFilled(s: State, step: Step)
    requires NoneEmpty(s) && Enabled(s, step) && step in {Take, FlushBegin, MergeBegin, Commit, Stop, Exit}
    ensures NoneEmpty(Do(s, step))
  {
    hide DocsIn, Merged, WithoutAll, Without;
  }

  lemma SegmentsFilled(s: State, step: Step)
    requires Inv(s) && NoneEmpty(s) && Enabled(s, step) && (step.Add? || step.Allocate?)
    ensures NoneEmpty(Do(s, step))
  {
    hide ReadersOk, ShutOk, DocsOk, WorkerOk, Apart, IssuedOk;
  }

  lemma {:induction false} NothingEmpty(start: nat, n: nat, states: seq<State>, steps: seq<Step>, k: nat)
    requires IsRun(states, steps) && states[0] == Init(start, n) && k < |states|
    ensures NoneEmpty(states[k])
  {
    hide Inv, Do, Enabled, Init, NoneEmpty;
    if k == 0 {
      StartsFilled(start, n);
    } else {
      NothingEmpty(start, n, states, steps, k - 1);
      RunKeeps(start, n, states, steps, k - 1);
      assert Enabled(states[k - 1], steps[k - 1]) && states[k] == Do(states[k - 1], steps[k - 1]);
      NoneEmptyKept(states[k - 1], steps[k - 1]);
    }
  }

  lemma StartsFilled(start: nat, n: nat)
    ensures NoneEmpty(Init(start, n))
  {
  }
}
