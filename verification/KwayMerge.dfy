// The generic k-way merge: one waiting element per source in a heap, refilled
// from the source the last element came from.
module KwayMerges {
  import opened Prelude

  datatype Entry<T> = Entry(value: T, idx: nat)

  datatype Pulled<T> = Exhausted | Element(value: T, src: nat)

  ghost predicate InOrder<T>(xs: seq<T>, key: T -> int) {
    forall i, j :: 0 <= i < j < |xs| ==> key(xs[i]) <= key(xs[j])
  }

  ghost function All<T>(xss: seq<seq<T>>): multiset<T> {
    if xss == [] then multiset{} else All(xss[..|xss| - 1]) + multiset(xss[|xss| - 1])
  }

  ghost function Values<T>(heap: seq<Entry<T>>): seq<T> {
    seq(|heap|, i requires 0 <= i < |heap| => heap[i].value)
  }

  lemma {:induction false} AllHas<T>(xss: seq<seq<T>>, x: T)
    ensures x in All(xss) <==> exists i :: 0 <= i < |xss| && x in xss[i]
  {
    if xss != [] {
      AllHas(xss[..|xss| - 1], x);
    }
  }

  // Taking the first element of one source takes it from the whole.
  lemma {:induction false} AllPop<T>(xss: seq<seq<T>>, i: nat)
    requires i < |xss| && xss[i] != []
    ensures All(xss) == All(xss[i := xss[i][1..]]) + multiset{xss[i][0]}
  {
    var n := |xss| - 1;
    var popped := xss[i := xss[i][1..]];
    if i == n {
      assert popped[..n] == xss[..n];
      assert xss[i] == [xss[i][0]] + xss[i][1..];
    } else {
      AllPop(xss[..n], i);
      assert popped[..n] == xss[..n][i := xss[i][1..]];
      Exchange(All(popped[..n]), multiset{xss[i][0]}, multiset(xss[n]));
    }
  }

  // Each source has at most one element waiting, and none only when it has
  // nothing left.
  ghost predicate Waiting<T>(heap: seq<Entry<T>>, sources: seq<seq<T>>) {
    && (forall e :: e in heap ==> e.idx < |sources|)
    && (forall i, j :: 0 <= i < j < |heap| ==> heap[i].idx != heap[j].idx)
    && (forall i :: 0 <= i < |sources| && sources[i] != [] ==> exists e :: e in heap && e.idx == i)
  }

  // Sources are in order, and what waits comes before the rest of its source.
  ghost predicate InTurn<T>(heap: seq<Entry<T>>, sources: seq<seq<T>>, key: T -> int) {
    && (forall i :: 0 <= i < |sources| ==> InOrder(sources[i], key))
    && (forall e :: e in heap ==> e.idx < |sources| && forall x :: x in sources[e.idx] ==> key(e.value) <= key(x))
  }

  lemma TakeOut<T>(heap: seq<Entry<T>>, top: nat)
    requires top < |heap| && forall i, j :: 0 <= i < j < |heap| ==> heap[i].idx != heap[j].idx
    ensures var rest := heap[..top] + heap[top + 1..];
            && (forall e :: e in rest <==> e in heap && e.idx != heap[top].idx)
            && (forall i, j :: 0 <= i < j < |rest| ==> rest[i].idx != rest[j].idx)
  {
  }

  // What a source gives when it is asked.
  ghost predicate Asked<T>(heap0: seq<Entry<T>>, sources0: seq<seq<T>>, i: nat, heap: seq<Entry<T>>, sources: seq<seq<T>>) {
    && i < |sources0|
    && if sources0[i] == [] then heap == heap0 && sources == sources0
       else heap == heap0 + [Entry(sources0[i][0], i)] && sources == sources0[i := sources0[i][1..]]
  }

  lemma AskedInTurn<T>(heap0: seq<Entry<T>>, sources0: seq<seq<T>>, i: nat, heap: seq<Entry<T>>, sources: seq<seq<T>>, key: T -> int)
    requires Asked(heap0, sources0, i, heap, sources) && InTurn(heap0, sources0, key) && forall e :: e in heap0 ==> e.idx != i
    ensures InTurn(heap, sources, key)
  {
    hide InOrder;
    if sources0[i] != [] {
      PopOrder(sources0[i], key);
    }
  }

  // After an element has left and its source has been asked again.
  lemma Refilled<T>(heap0: seq<Entry<T>>, sources0: seq<seq<T>>, top: nat, heap: seq<Entry<T>>, sources: seq<seq<T>>, key: T -> int)
    requires Waiting(heap0, sources0) && top < |heap0|
    requires Asked(heap0[..top] + heap0[top + 1..], sources0, heap0[top].idx, heap, sources)
    ensures Waiting(heap, sources) && (InTurn(heap0, sources0, key) ==> InTurn(heap, sources, key))
  {
    hide InOrder;
    TakeOut(heap0, top);
    var at := heap0[top].idx;
    forall i | 0 <= i < |sources| && sources[i] != []
      ensures exists e :: e in heap && e.idx == i
    {
      if i == at {
        assert Entry(sources0[at][0], at) in heap;
      } else {
        var e :| e in heap0 && e.idx == i;
        assert e in heap;
      }
    }
    if InTurn(heap0, sources0, key) {
      AskedInTurn(heap0[..top] + heap0[top + 1..], sources0, at, heap, sources, key);
    }
  }

  lemma {:induction false} AllEmpty<T>(xss: seq<seq<T>>)
    requires forall i :: 0 <= i < |xss| ==> xss[i] == []
    ensures All(xss) == multiset{}
  {
    if xss != [] {
      AllEmpty(xss[..|xss| - 1]);
    }
  }

  class KwayMerge<T> {
    const key: T -> int
    var sources: seq<seq<T>>        // what each source still has to give
    var heap: seq<Entry<T>>         // the waiting elements, in no particular order

    ghost predicate Valid()
      reads this
    {
      Waiting(heap, sources)
    }

    ghost predicate Ordered()
      reads this
    {
      InTurn(heap, sources, key)
    }

    // Everything still to come.
    ghost function Left(): multiset<T>
      reads this
    {
      multiset(Values(heap)) + All(sources)
    }

    // init(): pull the first element of every source.
    constructor (sources: seq<seq<T>>, key: T -> int)
      ensures Valid() && Left() == All(sources) && this.key == key
      ensures (forall i :: 0 <= i < |sources| ==> InOrder(sources[i], key)) ==> Ordered()
    {
      this.key, this.sources, this.heap := key, sources, [];
      new;
      hide InOrder, InTurn, All, Values;
      ghost var ordered := forall i :: 0 <= i < |sources| ==> InOrder(sources[i], key);
      NoneWaiting(sources, key);
      for i := 0 to |this.sources|
        invariant |this.sources| == |sources| && (ordered ==> Ordered())
        invariant forall e :: e in heap ==> e.idx < i
        invariant forall k, l :: 0 <= k < l < |heap| ==> heap[k].idx != heap[l].idx
        invariant forall k :: 0 <= k < i && this.sources[k] != [] ==> exists e :: e in heap && e.idx == k
        invariant Left() == All(sources)
      {
        ghost var heap0, sources0 := heap, this.sources;
        Pull(i);
        if ordered {
          AskedInTurn(heap0, sources0, i, heap, this.sources, key);
        }
        assert this.sources[i] != [] ==> heap[|heap| - 1].idx == i;
        assert forall e :: e in heap0 ==> e in heap;
      }
    }

    // Move the next element of source i, if there is one, into the heap.
    method Pull(i: nat)
      requires i < |sources|
      modifies this
      ensures Asked(old(heap), old(sources), i, heap, sources)
      ensures Left() == old(Left())
    {
      if sources[i] == [] { return; }
      var x := sources[i][0];
      AllPop(sources, i);
      PushValues(heap, Entry(x, i));
      heap := heap + [Entry(x, i)];
      sources := sources[i := sources[i][1..]];
    }

    // The least waiting element leaves, and its source refills the heap. With
    // sources in order it is the least of everything still to come.
    method Next() returns (r: Pulled<T>)
      requires Valid()
      modifies this
      ensures Valid() && (old(Ordered()) ==> Ordered())
      ensures r == Exhausted <==> old(Left()) == multiset{}
      ensures r == Exhausted ==> Left() == multiset{}
      ensures r.Element? ==> r.value in old(Left()) && Left() == old(Left()) - multiset{r.value}
      ensures r.Element? && old(Ordered()) ==> forall x :: x in old(Left()) ==> key(r.value) <= key(x)
    {
      if heap == [] {
        NothingLeft();
        return Exhausted;
      }
      hide InTurn, Waiting, All, Values, Asked;
      var top := Least();
      IsLeft(top);
      if Ordered() {
        LeastOfAll(top);
      }
      TakeValues(heap, top);
      var e := heap[top];
      ghost var heap0, sources0 := heap, sources;
      Removed(multiset(Values(heap)), All(sources), e.value);
      heap := heap[..top] + heap[top + 1..];
      SourceOf(heap0, sources0, top);
      Pull(e.idx);
      Refilled(heap0, sources0, top, heap, sources, key);
      return Element(e.value, e.idx);
    }

    lemma IsLeft(top: nat)
      requires top < |heap|
      ensures heap[top].value in Left() && heap[top].value in multiset(Values(heap))
    {
      assert Values(heap)[top] == heap[top].value;
    }

    lemma NothingLeft()
      requires Valid() && heap == []
      ensures Left() == multiset{}
    {
      AllEmpty(sources);
    }

    method Least() returns (top: nat)
      requires heap != []
      ensures top < |heap| && forall i :: 0 <= i < |heap| ==> key(heap[top].value) <= key(heap[i].value)
    {
      top := 0;
      for i := 1 to |heap|
        invariant top < i && forall j :: 0 <= j < i ==> key(heap[top].value) <= key(heap[j].value)
      {
        if key(heap[i].value) < key(heap[top].value) {
          top := i;
        }
      }
    }

    lemma LeastOfAll(top: nat)
      requires Valid() && Ordered() && top < |heap|
      requires forall i :: 0 <= i < |heap| ==> key(heap[top].value) <= key(heap[i].value)
      ensures forall x :: x in Left() ==> key(heap[top].value) <= key(x)
    {
      forall x | x in Left()
        ensures key(heap[top].value) <= key(x)
      {
        if x in Values(heap) {
          var i :| 0 <= i < |heap| && Values(heap)[i] == x;
        } else {
          AllHas(sources, x);
          var i :| 0 <= i < |sources| && x in sources[i];
          var e :| e in heap && e.idx == i;
        }
      }
    }
  }

  lemma NoneWaiting<T>(sources: seq<seq<T>>, key: T -> int)
    ensures (forall i :: 0 <= i < |sources| ==> InOrder(sources[i], key)) ==> InTurn([], sources, key)
    ensures Values<T>([]) == []
  {
  }

  lemma SourceOf<T>(heap: seq<Entry<T>>, sources: seq<seq<T>>, top: nat)
    requires Waiting(heap, sources) && top < |heap|
    ensures heap[top].idx < |sources|
  {
  }

  lemma Removed<T>(a: multiset<T>, b: multiset<T>, x: T)
    requires x in a
    ensures (a - multiset{x}) + b == (a + b) - multiset{x}
  {
  }

  lemma PopOrder<T>(xs: seq<T>, key: T -> int)
    requires xs != [] && InOrder(xs, key)
    ensures InOrder(xs[1..], key) && forall x :: x in xs[1..] ==> key(xs[0]) <= key(x)
  {
  }

  lemma PushValues<T>(heap: seq<Entry<T>>, e: Entry<T>)
    ensures multiset(Values(heap + [e])) == multiset(Values(heap)) + multiset{e.value}
  {
    assert Values(heap + [e]) == Values(heap) + [e.value];
  }

  lemma TakeValues<T>(heap: seq<Entry<T>>, i: nat)
    requires i < |heap|
    ensures multiset(Values(heap[..i] + heap[i + 1..])) == multiset(Values(heap)) - multiset{heap[i].value}
  {
    var v := Values(heap);
    assert Values(heap[..i] + heap[i + 1..]) == v[..i] + v[i + 1..];
    assert v == v[..i] + [v[i]] + v[i + 1..];
  }

  // Draining the merge loses and repeats nothing, and of sources in order
  // gives a sorted interleaving.
  method MergeAll<T>(sources: seq<seq<T>>, key: T -> int) returns (out: seq<T>)
    ensures multiset(out) == All(sources)
    ensures (forall i :: 0 <= i < |sources| ==> InOrder(sources[i], key)) ==> InOrder(out, key)
  {
    hide KwayMerge.Valid, KwayMerge.Ordered, KwayMerge.Left, InOrder, Below;
    var merge := new KwayMerge(sources, key);
    out := [];
    ghost var ordered := merge.Ordered();
    NoneOut(merge.Left(), key);
    while true
      invariant merge.Valid() && merge.key == key && fresh(merge)
      invariant ordered ==> merge.Ordered() && InOrder(out, key) && Below(out, merge.Left(), key)
      invariant multiset(out) + merge.Left() == All(sources)
      decreases |merge.Left()|
    {
      ghost var left := merge.Left();
      var r := merge.Next();
      if r == Exhausted { return; }
      OneOut(out, r.value, left, merge.Left());
      if ordered {
        Emit(out, r.value, left, merge.Left(), key);
      }
      out := out + [r.value];
    }
  }

  // Nothing that has come out is greater than anything still to come.
  ghost predicate Below<T>(out: seq<T>, left: multiset<T>, key: T -> int) {
    forall x, y :: x in out && y in left ==> key(x) <= key(y)
  }

  lemma NoneOut<T>(left: multiset<T>, key: T -> int)
    ensures InOrder([], key) && Below([], left, key)
  {
  }

  lemma OneOut<T>(out: seq<T>, x: T, left: multiset<T>, rest: multiset<T>)
    requires x in left && rest == left - multiset{x}
    ensures multiset(out + [x]) + rest == multiset(out) + left && |rest| < |left|
  {
    assert left == rest + multiset{x};
  }

  lemma Emit<T>(out: seq<T>, x: T, left: multiset<T>, rest: multiset<T>, key: T -> int)
    requires InOrder(out, key) && Below(out, left, key) && x in left && rest == left - multiset{x}
    requires forall y :: y in left ==> key(x) <= key(y)
    ensures InOrder(out + [x], key) && Below(out + [x], rest, key)
  {
  }
}
