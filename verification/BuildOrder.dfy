// The order of documents in the temporary segments of a parallel build.
module BuildOrders {
  import opened ParallelBuild

  ghost predicate IdsRise(xs: seq<Numbered>) {
    forall i, j :: 0 <= i < j < |xs| ==> xs[i].id < xs[j].id
  }

  // Buffers and temporary segments have their documents in the order of their
  // ids, and no id is given out ahead of time.
  ghost predicate OrderOk(s: State) {
    && (forall w :: 0 <= w < |s.workers| ==> BufferOk(s.workers[w].buffer, s.nextDoc))
    && (forall w, id :: 0 <= w < |s.workers| && id in s.workers[w].flushed ==> IdsRise(Segment(s.disk, id)))
  }

  ghost predicate BufferOk(xs: seq<Numbered>, next: nat) {
    IdsRise(xs) && forall x :: x in xs ==> x.id < next
  }

  lemma OrderKept(s: State, step: Step)
    requires Inv(s) && OrderOk(s) && Enabled(s, step)
    ensures OrderOk(Do(s, step))
  {
    hide Inv, OrderOk, Do, Enabled;
    match step {
      case Process(w) => OrderProcess(s, w);
      case WriteFlush(w) => OrderWrite(s, w);
      case Merge(g) => OrderMerge(s, g);
      case _ => OrderOther(s, step);
    }
  }

  lemma OrderProcess(s: State, w: nat)
    requires OrderOk(s) && Enabled(s, Process(w))
    ensures OrderOk(Do(s, Process(w)))
  {
    hide IdsRise, Segment;
    var s' := Do(s, Process(w));
    BufferMore(s.workers[w].buffer, s.nextDoc, s.workers[w].phase.doc);
    forall v | 0 <= v < |s'.workers|
      ensures BufferOk(s'.workers[v].buffer, s'.nextDoc)
    {
      assert BufferOk(s.workers[v].buffer, s.nextDoc);
    }
  }

  lemma BufferMore(xs: seq<Numbered>, next: nat, doc: Doc)
    requires BufferOk(xs, next)
    ensures BufferOk(xs + [Numbered(next, doc)], next + 1)
  {
    forall i | 0 <= i < |xs|
      ensures xs[i].id < next
    {
      assert xs[i] in xs;
    }
  }

  lemma OrderWrite(s: State, w: nat)
    requires Inv(s) && OrderOk(s) && Enabled(s, WriteFlush(w))
    ensures OrderOk(Do(s, WriteFlush(w)))
  {
    hide NumberedOk, DocsKept, EntriesKept, ExitsOk, MergeOk, Sum, IdsRise;
    var s', seg := Do(s, WriteFlush(w)), s.workers[w].phase.seg;
    assert BufferOk(s.workers[w].buffer, s.nextDoc);
    NothingBuffered(s.nextDoc);
    forall v, id | 0 <= v < |s'.workers| && id in s'.workers[v].flushed
      ensures IdsRise(Segment(s'.disk, id))
    {
      if id == seg {
        assert Segment(s'.disk, id) == s.workers[w].buffer;
      } else {
        assert id in s.workers[v].flushed && Segment(s'.disk, id) == Segment(s.disk, id);
      }
    }
  }

  lemma NothingBuffered(next: nat)
    ensures BufferOk([], next)
  {
  }

  lemma OrderMerge(s: State, g: nat)
    requires Inv(s) && OrderOk(s) && Enabled(s, Merge(g))
    ensures OrderOk(Do(s, Merge(g)))
  {
    hide NumberedOk, DocsKept, EntriesKept, ExitsOk, SegsOk, Sum, IdsRise, MergedDocs, IdsOf, OnDisk;
    var s', out := Do(s, Merge(g)), s.stage.outs[g];
    forall v, id | 0 <= v < |s'.workers| && id in s'.workers[v].flushed
      ensures IdsRise(Segment(s'.disk, id))
    {
      SumHas(Segs, s.workers, v);
      assert id in Segs(s.workers[v]);
      assert Segment(s'.disk, id) == Segment(s.disk, id);
    }
  }

  lemma OrderOther(s: State, step: Step)
    requires OrderOk(s) && Enabled(s, step) && !step.Process? && !step.WriteFlush? && !step.Merge?
    ensures OrderOk(Do(s, step))
  {
    hide BufferOk, IdsRise, Segment, Split, AnyTerms, Temps;
  }

  // In every state of every run the buffers and the temporary segments are in
  // the order of their ids.
  lemma {:induction false} InOrder(capacity: nat, n: nat, states: seq<State>, steps: seq<Step>, k: nat)
    requires IsRun(states, steps) && states[0] == Init(capacity, n) && k < |states|
    ensures OrderOk(states[k])
  {
    hide Inv, Do, Enabled, Init, OrderOk;
    if k == 0 {
      assert OrderOk(Init(capacity, n)) by { Begins(capacity, n); }
    } else {
      InOrder(capacity, n, states, steps, k - 1);
      RunKeeps(capacity, n, states, steps, k - 1);
      assert Enabled(states[k - 1], steps[k - 1]) && states[k] == Do(states[k - 1], steps[k - 1]);
      OrderKept(states[k - 1], steps[k - 1]);
    }
  }

  lemma Begins(capacity: nat, n: nat)
    ensures OrderOk(Init(capacity, n))
  {
  }
}
