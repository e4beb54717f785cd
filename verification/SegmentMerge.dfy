// Merging segments: live documents are renumbered from 1, and each term's
// posting lists are renumbered and merged.
module SegmentMerge {
  import opened Bits
  import opened KwayMerges

  datatype Posting = Posting(doc: nat, tf: nat, positions: seq<nat>)

  // An input segment: its id, the document ids it stores in order, which of
  // them (by place, from 1) are alive, and its posting lists.
  datatype Segment = Segment(id: nat, docIds: seq<nat>, alive: nat -> bool, postings: map<string, seq<Posting>>)
  {
    ghost predicate Ok() {
      && (forall i, j :: 0 <= i < j < |docIds| ==> docIds[i] < docIds[j])
      && (forall t :: t in postings ==> PostingsOk(postings[t]))
    }

    ghost predicate PostingsOk(ps: seq<Posting>) {
      && (forall i, j :: 0 <= i < j < |ps| ==> ps[i].doc < ps[j].doc)
      && (forall i :: 0 <= i < |ps| ==> ps[i].doc in docIds)
    }

    function List(term: string): seq<Posting> {
      if term in postings then postings[term] else []
    }

    ghost predicate Lives(d: nat) {
      exists l: nat :: l < |docIds| && docIds[l] == d && alive(l + 1)
    }
  }

  // ---------------------------------------------------------------- keys

  // Bitwise or.
  function Or(a: nat, b: nat): nat {
    if a == 0 then b else if b == 0 then a
    else 2 * Or(a / 2, b / 2) + if a % 2 == 1 || b % 2 == 1 then 1 else 0
  }

  // A bit is set when it is set on either side.
  lemma {:induction false} OrBits(a: nat, b: nat, i: nat)
    ensures Bit(Or(a, b), i) <==> Bit(a, i) || Bit(b, i)
  {
    if a == 0 {
      ZeroBits(i);
    } else if b == 0 {
      ZeroBits(i);
    } else if i > 0 {
      OrBits(a / 2, b / 2, i - 1);
    }
  }

  const SHIFT := 0x10_0000

  // (sid << 20) | doc
  function RemapKey(sid: nat, doc: nat): nat {
    SHIFT * Or(sid, doc / SHIFT) + doc % SHIFT
  }

  // Bit by bit: the low 20 bits are the document's, those above are set when
  // the document or the segment id sets them.
  lemma KeyBits(sid: nat, doc: nat, i: nat)
    ensures i < 20 ==> (Bit(RemapKey(sid, doc), i) <==> Bit(doc, i))
    ensures Bit(RemapKey(sid, doc), i + 20) <==> Bit(sid, i) || Bit(doc, i + 20)
  {
    hide Bit, Or;
    var high, low := Or(sid, doc / SHIFT), doc % SHIFT;
    assert Pow2(20) == SHIFT by { Pow2Twenty(); }
    assert RemapKey(sid, doc) / SHIFT == high && RemapKey(sid, doc) % SHIFT == low;
    if i < 20 {
      LowBits(RemapKey(sid, doc), i, 20);
      LowBits(doc, i, 20);
    }
    Halvings(RemapKey(sid, doc), 20, high, i);
    Halvings(doc, 20, doc / SHIFT, i);
    OrBits(sid, doc / SHIFT, i);
  }

  lemma Pow2Twenty()
    ensures Pow2(20) == 1048576
  {
    assert Pow2(4) == 16;
    assert Pow2(8) == 256;
    assert Pow2(12) == 4096;
    assert Pow2(16) == 0x1_0000;
  }

  lemma KeysEqual(sid: nat, doc: nat, sid': nat, doc': nat)
    ensures RemapKey(sid, doc) == RemapKey(sid', doc') <==>
            doc % SHIFT == doc' % SHIFT && Or(sid, doc / SHIFT) == Or(sid', doc' / SHIFT)
  {
  }

  // Below 2^20 the key tells segment and document apart.
  lemma SmallKeys(sid: nat, doc: nat, sid': nat, doc': nat)
    requires doc < SHIFT && doc' < SHIFT && RemapKey(sid, doc) == RemapKey(sid', doc')
    ensures sid == sid' && doc == doc'
  {
  }

  // From 2^20 on it does not: in a segment with an odd id, a document and the
  // one 2^20 further on get the same key.
  lemma {:induction false} LargeKeysClash(sid: nat, doc: nat)
    requires sid % 2 == 1 && doc < SHIFT
    ensures RemapKey(sid, doc) == RemapKey(sid, doc + SHIFT)
  {
    assert (doc + SHIFT) / SHIFT == 1 && doc / SHIFT == 0;
    assert Or(sid, 1) == 2 * Or(sid / 2, 0) + 1;
  }

  // ---------------------------------------------------------------- renumbering

  datatype GlobalDoc = GlobalDoc(segId: nat, origDocId: nat, localPos: nat, newDocId: nat)

  // The live documents among the first n of a segment, with their segment.
  ghost function LiveOf(s: Segment, n: nat): seq<(nat, nat)>
    requires n <= |s.docIds|
  {
    if n == 0 then [] else LiveOf(s, n - 1) + if s.alive(n) then [(s.id, s.docIds[n - 1])] else []
  }

  ghost function Live(segs: seq<Segment>): seq<(nat, nat)> {
    if segs == [] then [] else Live(segs[..|segs| - 1]) + LiveOf(segs[|segs| - 1], |segs[|segs| - 1].docIds|)
  }

  // remap[key] = new id, in the order of the live documents.
  ghost function RemapOf(live: seq<(nat, nat)>): map<nat, nat> {
    if live == [] then map[]
    else
      var last := live[|live| - 1];
      RemapOf(live[..|live| - 1])[RemapKey(last.0, last.1) := |live|]
  }

  ghost predicate KeysDistinct(live: seq<(nat, nat)>) {
    forall i, j :: 0 <= i < j < |live| ==> RemapKey(live[i].0, live[i].1) != RemapKey(live[j].0, live[j].1)
  }

  ghost predicate Numbered(docs: seq<GlobalDoc>, live: seq<(nat, nat)>) {
    |docs| == |live| && forall i :: 0 <= i < |docs| ==> (docs[i].segId, docs[i].origDocId) == live[i] && docs[i].newDocId == i + 1
  }

  // The numbering so far: a table and a list for the live documents met.
  ghost predicate Tracks(remap: map<nat, nat>, docs: seq<GlobalDoc>, live: seq<(nat, nat)>) {
    remap == RemapOf(live) && Numbered(docs, live)
  }

  lemma TracksMore(remap: map<nat, nat>, docs: seq<GlobalDoc>, live: seq<(nat, nat)>, sid: nat, doc: nat, local: nat)
    requires Tracks(remap, docs, live)
    ensures Tracks(remap[RemapKey(sid, doc) := |docs| + 1], docs + [GlobalDoc(sid, doc, local, |docs| + 1)], live + [(sid, doc)])
  {
  }

  // ---- where the documents come from

  // Place l of segment k holds a live document.
  ghost predicate LivePlace(segs: seq<Segment>, k: nat, l: nat) {
    k < |segs| && 1 <= l <= |segs[k].docIds| && segs[k].alive(l)
  }

  ghost predicate Precedes(a: (nat, nat), b: (nat, nat)) {
    a.0 < b.0 || (a.0 == b.0 && a.1 < b.1)
  }

  // Entry n of the list is about the document at this place.
  ghost predicate EntryIs(segs: seq<Segment>, d: GlobalDoc, at: (nat, nat), n: nat) {
    LivePlace(segs, at.0, at.1) && d == GlobalDoc(segs[at.0].id, segs[at.0].docIds[at.1 - 1], at.1, n)
  }

  // The list goes through all live places of the first `done` segments, and
  // the first `upTo` places of the next, in order, each once.
  ghost predicate Placed(segs: seq<Segment>, docs: seq<GlobalDoc>, places: seq<(nat, nat)>, done: nat, upTo: nat) {
    && |places| == |docs|
    && (forall n :: 0 <= n < |docs| ==> EntryIs(segs, docs[n], places[n], n + 1))
    && (forall m, n :: 0 <= m < n < |places| ==> Precedes(places[m], places[n]))
    && (forall k: nat, l: nat :: (k, l) in places <==> LivePlace(segs, k, l) && (k < done || (k == done && l <= upTo)))
  }

  lemma PlacedMore(segs: seq<Segment>, docs: seq<GlobalDoc>, places: seq<(nat, nat)>, k: nat, l: nat)
    requires Placed(segs, docs, places, k, l) && k < |segs| && l < |segs[k].docIds|
    ensures if segs[k].alive(l + 1) then
              Placed(segs, docs + [GlobalDoc(segs[k].id, segs[k].docIds[l], l + 1, |docs| + 1)], places + [(k, l + 1)], k, l + 1)
            else Placed(segs, docs, places, k, l + 1)
  {
    if segs[k].alive(l + 1) {
      var docs', places' := docs + [GlobalDoc(segs[k].id, segs[k].docIds[l], l + 1, |docs| + 1)], places + [(k, l + 1)];
      EntriesKept(segs, docs, places, docs', places');
      assert EntryIs(segs, docs'[|docs|], places'[|docs|], |docs| + 1);
      forall m | 0 <= m < |places|
        ensures Precedes(places[m], (k, l + 1))
      {
        assert places[m] in places && (places[m].0, places[m].1) == places[m];
      }
    }
  }

  lemma EntriesKept(segs: seq<Segment>, docs: seq<GlobalDoc>, places: seq<(nat, nat)>, docs': seq<GlobalDoc>, places': seq<(nat, nat)>)
    requires |places| == |docs| && |places'| == |docs'| == |docs| + 1 && docs'[..|docs|] == docs && places'[..|docs|] == places
    requires forall n :: 0 <= n < |docs| ==> EntryIs(segs, docs[n], places[n], n + 1)
    ensures forall n :: 0 <= n < |docs| ==> EntryIs(segs, docs'[n], places'[n], n + 1)
  {
    forall n | 0 <= n < |docs|
      ensures EntryIs(segs, docs'[n], places'[n], n + 1)
    {
      assert docs'[..|docs|][n] == docs[n] && places'[..|docs|][n] == places[n];
    }
  }

  lemma SegmentPlaced(segs: seq<Segment>, docs: seq<GlobalDoc>, places: seq<(nat, nat)>, k: nat)
    requires k < |segs| && Placed(segs, docs, places, k, |segs[k].docIds|)
    ensures Placed(segs, docs, places, k + 1, 0)
  {
  }

  method BuildRemap(segs: seq<Segment>) returns (remap: map<nat, nat>, aliveDocs: seq<GlobalDoc>, ghost places: seq<(nat, nat)>)
    ensures remap == RemapOf(Live(segs)) && Numbered(aliveDocs, Live(segs))
    ensures Placed(segs, aliveDocs, places, |segs|, 0)
  {
    hide RemapOf, Numbered, Placed;
    remap, aliveDocs, places := map[], [], [];
    assert Tracks(remap, aliveDocs, Live(segs[..0])) by { NothingTracked(segs); }
    assert Placed(segs, [], [], 0, 0) by { NothingPlaced(segs); }
    for i := 0 to |segs|
      invariant Tracks(remap, aliveDocs, Live(segs[..i])) && Placed(segs, aliveDocs, places, i, 0)
    {
      remap, aliveDocs, places := NumberSegment(segs, i, remap, aliveDocs, places, Live(segs[..i]));
      SegmentPlaced(segs, aliveDocs, places, i);
      assert segs[..i + 1][..i] == segs[..i];
    }
    assert segs[..|segs|] == segs;
  }

  lemma NothingTracked(segs: seq<Segment>)
    ensures Tracks(map[], [], Live(segs[..0]))
  {
  }

  lemma NothingPlaced(segs: seq<Segment>)
    ensures Placed(segs, [], [], 0, 0)
  {
  }

  method NumberSegment(segs: seq<Segment>, k: nat, remap0: map<nat, nat>, docs0: seq<GlobalDoc>, ghost places0: seq<(nat, nat)>,
                       ghost before: seq<(nat, nat)>)
    returns (remap: map<nat, nat>, docs: seq<GlobalDoc>, ghost places: seq<(nat, nat)>)
    requires k < |segs| && Tracks(remap0, docs0, before) && Placed(segs, docs0, places0, k, 0)
    ensures Tracks(remap, docs, before + LiveOf(segs[k], |segs[k].docIds|)) && Placed(segs, docs, places, k, |segs[k].docIds|)
  {
    hide Tracks, RemapKey, Placed;
    var s := segs[k];
    remap, docs, places := remap0, docs0, places0;
    assert before + LiveOf(s, 0) == before;
    for local := 0 to |s.docIds|
      invariant Tracks(remap, docs, before + LiveOf(s, local)) && Placed(segs, docs, places, k, local)
    {
      ghost var now := before + LiveOf(s, local);
      PlacedMore(segs, docs, places, k, local);
      if s.alive(local + 1) {
        TracksMore(remap, docs, now, s.id, s.docIds[local], local + 1);
        assert before + LiveOf(s, local + 1) == now + [(s.id, s.docIds[local])];
        remap := remap[RemapKey(s.id, s.docIds[local]) := |docs| + 1];
        docs := docs + [GlobalDoc(s.id, s.docIds[local], local + 1, |docs| + 1)];
        places := places + [(k, local + 1)];
      } else {
        assert before + LiveOf(s, local + 1) == now;
      }
    }
  }

  // A fast-field column of the merged segment: for each document the entry at
  // its place in the column of its own segment, 0 where there is none.
  method MergeColumn(segs: seq<Segment>, columns: seq<seq<int>>, aliveDocs: seq<GlobalDoc>, ghost places: seq<(nat, nat)>)
    returns (merged: seq<int>)
    requires |columns| == |segs| && Placed(segs, aliveDocs, places, |segs|, 0)
    requires forall i, j :: 0 <= i < j < |segs| ==> segs[i].id != segs[j].id
    ensures |merged| == |places|
    ensures forall n :: 0 <= n < |places| ==>
              var (k, l) := places[n];
              LivePlace(segs, k, l) && merged[n] == if l <= |columns[k]| then columns[k][l - 1] else 0
  {
    hide Placed;
    PlacesFacts(segs, aliveDocs, places);
    merged := [];
    for i := 0 to |aliveDocs|
      invariant |merged| == i
      invariant forall n :: 0 <= n < i ==>
                  var (k, l) := places[n];
                  LivePlace(segs, k, l) && merged[n] == if l <= |columns[k]| then columns[k][l - 1] else 0
    {
      assert EntryIs(segs, aliveDocs[i], places[i], i + 1);
      var k := FindReader(segs, aliveDocs[i].segId, places[i].0);
      var idx := aliveDocs[i].localPos - 1;
      merged := merged + [if idx < |columns[k]| then columns[k][idx] else 0];
    }
  }

  lemma PlacesFacts(segs: seq<Segment>, docs: seq<GlobalDoc>, places: seq<(nat, nat)>)
    requires Placed(segs, docs, places, |segs|, 0)
    ensures |places| == |docs| && forall n :: 0 <= n < |docs| ==> EntryIs(segs, docs[n], places[n], n + 1)
  {
  }

  // The first reader with this segment id.
  method FindReader(segs: seq<Segment>, id: nat, ghost k0: nat) returns (k: nat)
    requires k0 < |segs| && segs[k0].id == id
    requires forall i, j :: 0 <= i < j < |segs| ==> segs[i].id != segs[j].id
    ensures k == k0
  {
    k := 0;
    while segs[k].id != id
      invariant k <= k0
      decreases k0 - k
    {
      k := k + 1;
    }
  }

  lemma {:induction false} RemapKeys(live: seq<(nat, nat)>)
    ensures forall k :: k in RemapOf(live) <==> exists i :: 0 <= i < |live| && RemapKey(live[i].0, live[i].1) == k
  {
    hide RemapKey;
    if live != [] {
      var front := live[..|live| - 1];
      RemapKeys(front);
      forall k
        ensures k in RemapOf(live) <==> exists i :: 0 <= i < |live| && RemapKey(live[i].0, live[i].1) == k
      {
        if i :| 0 <= i < |front| && RemapKey(front[i].0, front[i].1) == k {
          assert live[i] == front[i];
        }
        if i :| 0 <= i < |live| && RemapKey(live[i].0, live[i].1) == k {
          assert i < |front| ==> front[i] == live[i];
        }
      }
    }
  }

  lemma {:induction false} RemapExact(live: seq<(nat, nat)>)
    requires KeysDistinct(live)
    ensures forall i :: 0 <= i < |live| ==>
              RemapKey(live[i].0, live[i].1) in RemapOf(live) && RemapOf(live)[RemapKey(live[i].0, live[i].1)] == i + 1
  {
    hide RemapKey;
    if live != [] {
      var front := live[..|live| - 1];
      RemapExact(front);
      assert forall i :: 0 <= i < |front| ==> front[i] == live[i];
    }
  }

  // The table numbers the live documents one to one exactly when no two of
  // them share a key.
  lemma RemapIff(live: seq<(nat, nat)>)
    ensures KeysDistinct(live) <==>
            forall i :: 0 <= i < |live| ==>
              RemapKey(live[i].0, live[i].1) in RemapOf(live) && RemapOf(live)[RemapKey(live[i].0, live[i].1)] == i + 1
  {
    hide RemapKey;
    if KeysDistinct(live) {
      RemapExact(live);
    }
  }

  // ---------------------------------------------------------------- posting lists

  datatype MergeDoc = MergeDoc(newDocId: nat, tf: nat, positions: seq<nat>)

  const ByNewId: MergeDoc -> int := (d: MergeDoc) => d.newDocId

  // The renumbered postings of live documents.
  ghost function Renumber(sid: nat, remap: map<nat, nat>, ps: seq<Posting>): seq<MergeDoc> {
    if ps == [] then []
    else
      var front, p := Renumber(sid, remap, ps[..|ps| - 1]), ps[|ps| - 1];
      if RemapKey(sid, p.doc) in remap then front + [MergeDoc(remap[RemapKey(sid, p.doc)], p.tf, p.positions)] else front
  }

  ghost function Renumbered(segs: seq<Segment>, remap: map<nat, nat>, term: string): seq<MergeDoc> {
    if segs == [] then []
    else
      var last := segs[|segs| - 1];
      Renumbered(segs[..|segs| - 1], remap, term) + Renumber(last.id, remap, last.List(term))
  }

  // No document of the inputs, live or not, shares a key with the live
  // document of another place.
  ghost predicate NoClash(segs: seq<Segment>) {
    forall i, j, d, e ::
      (0 <= i < |segs| && 0 <= j < |segs| && d in segs[i].docIds && segs[j].Lives(e)
       && RemapKey(segs[i].id, d) == RemapKey(segs[j].id, e)) ==> i == j && d == e
  }

  lemma SmallNoClash(segs: seq<Segment>)
    requires forall i, j :: 0 <= i < j < |segs| ==> segs[i].id != segs[j].id
    requires forall i, d :: 0 <= i < |segs| && d in segs[i].docIds ==> d < SHIFT
    ensures NoClash(segs)
  {
    hide RemapKey;
    forall i, j, d, e | 0 <= i < |segs| && 0 <= j < |segs| && d in segs[i].docIds && segs[j].Lives(e)
                        && RemapKey(segs[i].id, d) == RemapKey(segs[j].id, e)
      ensures i == j && d == e
    {
      assert e in segs[j].docIds;
      SmallKeys(segs[i].id, d, segs[j].id, e);
    }
  }

  lemma {:induction false} LiveOfFrom(s: Segment, n: nat)
    requires n <= |s.docIds|
    ensures forall x :: x in LiveOf(s, n) <==> x.0 == s.id && exists l: nat :: l < n && s.docIds[l] == x.1 && s.alive(l + 1)
  {
    if n > 0 {
      LiveOfFrom(s, n - 1);
      forall x
        ensures x in LiveOf(s, n) <==> x.0 == s.id && exists l: nat :: l < n && s.docIds[l] == x.1 && s.alive(l + 1)
      {
        assert x in LiveOf(s, n) <==> x in LiveOf(s, n - 1) || (s.alive(n) && x == (s.id, s.docIds[n - 1]));
      }
    }
  }

  lemma {:induction false} LiveOfRises(s: Segment, n: nat)
    requires n <= |s.docIds| && forall i, j :: 0 <= i < j < |s.docIds| ==> s.docIds[i] < s.docIds[j]
    ensures forall i, j :: 0 <= i < j < |LiveOf(s, n)| ==> LiveOf(s, n)[i].1 < LiveOf(s, n)[j].1
  {
    if n > 0 {
      LiveOfRises(s, n - 1);
      LiveOfFrom(s, n - 1);
      var front := LiveOf(s, n - 1);
      assert forall i :: 0 <= i < |front| ==> front[i] in front && front[i].1 < s.docIds[n - 1];
    }
  }

  // Where segment k's live documents stand among all of them.
  lemma {:induction false} LiveSplit(segs: seq<Segment>, k: nat)
    requires k < |segs|
    ensures var base, mine := Live(segs[..k]), LiveOf(segs[k], |segs[k].docIds|);
            |base| + |mine| <= |Live(segs)| && Live(segs)[..|base|] == base && Live(segs)[|base|..|base| + |mine|] == mine
  {
    hide LiveOf;
    var base, mine := Live(segs[..k]), LiveOf(segs[k], |segs[k].docIds|);
    var n := |segs| - 1;
    if k < n {
      LiveSplit(segs[..n], k);
      assert segs[..n][..k] == segs[..k];
      var front, rest := Live(segs[..n]), LiveOf(segs[n], |segs[n].docIds|);
      SliceKept(front, rest, 0, |base|);
      SliceKept(front, rest, |base|, |base| + |mine|);
    } else {
      SliceKept(base, mine, 0, |base|);
    }
  }

  lemma SliceKept<T>(front: seq<T>, rest: seq<T>, i: nat, j: nat)
    requires i <= j <= |front|
    ensures (front + rest)[i..j] == front[i..j] && (front + rest)[|front|..|front| + |rest|] == rest && front[0..j] == front[..j]
    ensures (front + rest)[0..j] == (front + rest)[..j] && front[..|front|] == front
  {
  }

  ghost predicate AllOk(segs: seq<Segment>) {
    forall i :: 0 <= i < |segs| ==> segs[i].Ok()
  }

  // The table a merge works with.
  ghost function Table(segs: seq<Segment>): map<nat, nat> {
    RemapOf(Live(segs))
  }

  ghost predicate Origin(segs: seq<Segment>, x: (nat, nat), i: nat) {
    i < |segs| && x.0 == segs[i].id && segs[i].Lives(x.1)
  }

  lemma {:induction false} LiveFrom(segs: seq<Segment>, x: (nat, nat))
    ensures x in Live(segs) <==> exists i: nat :: Origin(segs, x, i)
  {
    hide Segment.Lives, LiveOf, Origin;
    if segs != [] {
      var front, last := segs[..|segs| - 1], segs[|segs| - 1];
      LiveFrom(front, x);
      LiveOfMember(last, x);
      forall i: nat
        ensures Origin(segs, x, i) <==> Origin(front, x, i) || (i == |front| && x in LiveOf(last, |last.docIds|))
      {
        OriginMore(segs, x, i);
      }
      assert x in LiveOf(last, |last.docIds|) ==> Origin(segs, x, |front|);
    } else {
      NoOrigin(x);
    }
  }

  lemma OriginMore(segs: seq<Segment>, x: (nat, nat), i: nat)
    requires segs != []
    ensures var n := |segs| - 1;
            Origin(segs, x, i) <==> Origin(segs[..n], x, i) || (i == n && x.0 == segs[n].id && segs[n].Lives(x.1))
  {
    hide Segment.Lives;
  }

  lemma NoOrigin(x: (nat, nat))
    ensures forall i: nat :: !Origin([], x, i)
  {
  }

  lemma LiveOfMember(s: Segment, x: (nat, nat))
    ensures x in LiveOf(s, |s.docIds|) <==> x.0 == s.id && s.Lives(x.1)
  {
    LiveOfFrom(s, |s.docIds|);
  }

  // A live document of an earlier segment and one of segment k.
  lemma ApartAcross(segs: seq<Segment>, k: nat, x: (nat, nat), y: (nat, nat))
    requires NoClash(segs) && k < |segs| && x in Live(segs[..k]) && y in LiveOf(segs[k], |segs[k].docIds|)
    ensures RemapKey(x.0, x.1) != RemapKey(y.0, y.1)
  {
    hide RemapKey, Live, LiveOf;
    LiveFrom(segs[..k], x);
    LiveOfMember(segs[k], y);
    var h: nat :| Origin(segs[..k], x, h);
    assert x.1 in segs[h].docIds;
  }

  // Two live documents of segment k.
  lemma ApartWithin(segs: seq<Segment>, k: nat)
    requires AllOk(segs) && NoClash(segs) && k < |segs|
    ensures KeysDistinct(LiveOf(segs[k], |segs[k].docIds|))
  {
    hide RemapKey, LiveOf;
    var mine := LiveOf(segs[k], |segs[k].docIds|);
    LiveOfRises(segs[k], |segs[k].docIds|);
    forall i, j | 0 <= i < j < |mine|
      ensures RemapKey(mine[i].0, mine[i].1) != RemapKey(mine[j].0, mine[j].1)
    {
      LiveOfMember(segs[k], mine[i]);
      LiveOfMember(segs[k], mine[j]);
      assert mine[i].1 in segs[k].docIds && mine[j].1 in segs[k].docIds;
    }
  }

  lemma {:induction false} LiveKeysDistinct(segs: seq<Segment>, k: nat)
    requires AllOk(segs) && NoClash(segs) && k <= |segs|
    ensures KeysDistinct(Live(segs[..k]))
  {
    hide RemapKey, NoClash, AllOk, LiveOf;
    if k > 0 {
      LiveKeysDistinct(segs, k - 1);
      ApartWithin(segs, k - 1);
      var front, mine := Live(segs[..k - 1]), LiveOf(segs[k - 1], |segs[k - 1].docIds|);
      assert segs[..k][..k - 1] == segs[..k - 1];
      forall i, j | 0 <= i < |front| && 0 <= j < |mine|
        ensures RemapKey(front[i].0, front[i].1) != RemapKey(mine[j].0, mine[j].1)
      {
        ApartAcross(segs, k - 1, front[i], mine[j]);
      }
      assert Live(segs[..k]) == front + mine;
    }
  }

  // Of a segment's documents the live ones, and no others, are in the table.
  lemma InTable(segs: seq<Segment>, k: nat, d: nat)
    requires AllOk(segs) && NoClash(segs) && k < |segs| && d in segs[k].docIds
    ensures RemapKey(segs[k].id, d) in Table(segs) <==> segs[k].Lives(d)
  {
    hide RemapKey, RemapOf;
    var live, key := Live(segs), RemapKey(segs[k].id, d);
    RemapKeys(live);
    if key in Table(segs) {
      var i :| 0 <= i < |live| && RemapKey(live[i].0, live[i].1) == key;
      LiveFrom(segs, live[i]);
      var h: nat :| Origin(segs, live[i], h);
      assert h == k && live[i].1 == d;
    }
    if segs[k].Lives(d) {
      LiveFrom(segs, (segs[k].id, d));
      assert Origin(segs, (segs[k].id, d), k);
      var i :| 0 <= i < |live| && live[i] == (segs[k].id, d);
    }
  }

  // The new number of a segment's l-th live document.
  lemma NewNumber(segs: seq<Segment>, k: nat, l: nat)
    requires AllOk(segs) && NoClash(segs) && k < |segs| && l < |LiveOf(segs[k], |segs[k].docIds|)|
    ensures var x, n := LiveOf(segs[k], |segs[k].docIds|)[l], |Live(segs[..k])| + l + 1;
            n <= |Live(segs)| && Live(segs)[n - 1] == x && RemapKey(x.0, x.1) in Table(segs) && Table(segs)[RemapKey(x.0, x.1)] == n
  {
    hide RemapKey, RemapOf;
    LiveSplit(segs, k);
    var mine, base := LiveOf(segs[k], |segs[k].docIds|), |Live(segs[..k])|;
    assert Live(segs)[base..base + |mine|][l] == mine[l];
    assert segs[..|segs|] == segs;
    LiveKeysDistinct(segs, |segs|);
    RemapExact(Live(segs));
  }

  // Which of its segment's live documents d is, and the number that gives it.
  lemma NumberOf(segs: seq<Segment>, k: nat, d: nat) returns (l: nat)
    requires AllOk(segs) && NoClash(segs) && k < |segs| && segs[k].Lives(d)
    ensures var mine, n := LiveOf(segs[k], |segs[k].docIds|), |Live(segs[..k])| + l + 1;
            && l < |mine| && mine[l] == (segs[k].id, d)
            && n <= |Live(segs)| && Live(segs)[n - 1] == (segs[k].id, d)
            && RemapKey(segs[k].id, d) in Table(segs) && Table(segs)[RemapKey(segs[k].id, d)] == n
  {
    hide RemapKey, RemapOf, Live, NoClash, AllOk, Segment.Lives;
    LiveOfMember(segs[k], (segs[k].id, d));
    var mine := LiveOf(segs[k], |segs[k].docIds|);
    l :| 0 <= l < |mine| && mine[l] == (segs[k].id, d);
    NewNumber(segs, k, l);
  }

  // Renumbering follows the order of the inputs: by segment, and within a
  // segment by document.
  lemma Monotone(segs: seq<Segment>, k: nat, d: nat, e: nat)
    requires AllOk(segs) && NoClash(segs) && k < |segs| && segs[k].Lives(d) && segs[k].Lives(e) && d < e
    ensures var kd, ke := RemapKey(segs[k].id, d), RemapKey(segs[k].id, e);
            kd in Table(segs) && ke in Table(segs) && Table(segs)[kd] < Table(segs)[ke]
  {
    hide RemapKey, Table, Live, NoClash, Segment.Lives, LiveOf;
    assert segs[k].Ok();
    LiveOfRises(segs[k], |segs[k].docIds|);
    var i := NumberOf(segs, k, d);
    var j := NumberOf(segs, k, e);
  }

  // Each segment has its own range of numbers.
  lemma InRange(segs: seq<Segment>, k: nat, d: nat)
    requires AllOk(segs) && NoClash(segs) && k < |segs| && segs[k].Lives(d)
    ensures var key := RemapKey(segs[k].id, d);
            && key in Table(segs) && |Live(segs[..k])| < Table(segs)[key] <= |Live(segs[..k + 1])| <= |Live(segs)|
            && Live(segs)[Table(segs)[key] - 1] == (segs[k].id, d)
  {
    hide RemapKey, Table, NoClash, Segment.Lives, LiveOf;
    var l := NumberOf(segs, k, d);
    LiveSplit(segs, k);
    assert segs[..k + 1][..k] == segs[..k];
  }

  // The table knows the stored document d of segment k: under its own number
  // if it is alive, and not at all otherwise.
  ghost predicate TableKnows(segs: seq<Segment>, k: nat, d: nat)
    requires k < |segs|
  {
    var key := RemapKey(segs[k].id, d);
    if segs[k].Lives(d) then
      && key in Table(segs) && |Live(segs[..k])| < Table(segs)[key] <= |Live(segs[..k + 1])| <= |Live(segs)|
      && Live(segs)[Table(segs)[key] - 1] == (segs[k].id, d)
    else key !in Table(segs)
  }

  ghost predicate TableRight(segs: seq<Segment>) {
    forall k, d :: 0 <= k < |segs| && d in segs[k].docIds ==> TableKnows(segs, k, d)
  }

  lemma {:induction false} LiveGrows(segs: seq<Segment>, i: nat, j: nat)
    requires i <= j <= |segs|
    ensures |Live(segs[..i])| <= |Live(segs[..j])|
  {
    if i < j {
      LiveGrows(segs, i, j - 1);
      assert segs[..j][..j - 1] == segs[..j - 1];
    }
  }

  // The numbers of two documents tell them apart.
  lemma KnownApart(segs: seq<Segment>, i: nat, d: nat, j: nat, e: nat)
    requires i < |segs| && j < |segs| && TableKnows(segs, i, d) && TableKnows(segs, j, e)
    requires segs[i].Lives(d) && segs[j].Lives(e) && RemapKey(segs[i].id, d) == RemapKey(segs[j].id, e)
    ensures i == j && d == e
  {
    hide RemapKey, Table, Live, Segment.Lives;
    if i < j {
      LiveGrows(segs, i + 1, j);
    } else if j < i {
      LiveGrows(segs, j + 1, i);
    }
  }

  // The table is right about every stored document exactly when there is no
  // clash.
  lemma TableRightIff(segs: seq<Segment>)
    requires AllOk(segs)
    ensures TableRight(segs) <==> NoClash(segs)
  {
    hide RemapKey, Table, Live, TableKnows;
    if NoClash(segs) {
      forall k, d | 0 <= k < |segs| && d in segs[k].docIds
        ensures TableKnows(segs, k, d)
      {
        Knows(segs, k, d);
      }
    }
    if TableRight(segs) {
      forall i, j, d, e | 0 <= i < |segs| && 0 <= j < |segs| && d in segs[i].docIds && segs[j].Lives(e)
                          && RemapKey(segs[i].id, d) == RemapKey(segs[j].id, e)
        ensures i == j && d == e
      {
        assert e in segs[j].docIds;
        SameKeyLives(segs, i, d, j, e);
        KnownApart(segs, i, d, j, e);
      }
    }
  }

  lemma Knows(segs: seq<Segment>, k: nat, d: nat)
    requires AllOk(segs) && NoClash(segs) && k < |segs| && d in segs[k].docIds
    ensures TableKnows(segs, k, d)
  {
    hide RemapKey, Table, Live, NoClash, AllOk;
    InTable(segs, k, d);
    if segs[k].Lives(d) {
      InRange(segs, k, d);
    }
  }

  lemma SameKeyLives(segs: seq<Segment>, i: nat, d: nat, j: nat, e: nat)
    requires i < |segs| && j < |segs| && TableKnows(segs, i, d) && TableKnows(segs, j, e)
    requires segs[j].Lives(e) && RemapKey(segs[i].id, d) == RemapKey(segs[j].id, e)
    ensures segs[i].Lives(d)
  {
    hide RemapKey, Table, Live, Segment.Lives;
  }

  ghost predicate Rising(ds: seq<MergeDoc>) {
    forall i, j :: 0 <= i < j < |ds| ==> ds[i].newDocId < ds[j].newDocId
  }

  // A merged entry and the live posting it comes from.
  ghost predicate ComesFrom(segs: seq<Segment>, k: nat, p: Posting, m: MergeDoc) {
    && k < |segs| && segs[k].Lives(p.doc)
    && 1 <= m.newDocId <= |Live(segs)| && Live(segs)[m.newDocId - 1] == (segs[k].id, p.doc)
    && m.tf == p.tf && m.positions == p.positions
  }

  // How many of the postings are of live documents.
  ghost function LivePostings(s: Segment, ps: seq<Posting>): nat {
    if ps == [] then 0 else LivePostings(s, ps[..|ps| - 1]) + if s.Lives(ps[|ps| - 1].doc) then 1 else 0
  }

  ghost predicate FromSome(segs: seq<Segment>, k: nat, ps: seq<Posting>, m: MergeDoc) {
    exists p :: p in ps && ComesFrom(segs, k, p, m)
  }

  ghost predicate HasEntry(segs: seq<Segment>, k: nat, r: seq<MergeDoc>, p: Posting) {
    exists m :: m in r && ComesFrom(segs, k, p, m)
  }

  // r is the live postings of segment k among ps, renumbered, in order, and
  // in the range of numbers that belongs to segment k.
  ghost predicate Faithful(segs: seq<Segment>, k: nat, ps: seq<Posting>, r: seq<MergeDoc>)
    requires k < |segs|
  {
    && Rising(r)
    && (forall m :: m in r ==> |Live(segs[..k])| < m.newDocId <= |Live(segs[..k + 1])| && FromSome(segs, k, ps, m))
    && (forall p :: p in ps && segs[k].Lives(p.doc) ==> HasEntry(segs, k, r, p))
    && |r| == LivePostings(segs[k], ps)
  }

  lemma FaithfulSkip(segs: seq<Segment>, k: nat, ps: seq<Posting>, p: Posting, r: seq<MergeDoc>)
    requires k < |segs| && Faithful(segs, k, ps, r) && !segs[k].Lives(p.doc)
    ensures Faithful(segs, k, ps + [p], r)
  {
    hide ComesFrom, Live, Segment.Lives;
    assert (ps + [p])[..|ps|] == ps;
    forall m | m in r
      ensures FromSome(segs, k, ps + [p], m)
    {
      var q :| q in ps && ComesFrom(segs, k, q, m);
      assert q in ps + [p];
    }
  }

  lemma FaithfulMore(segs: seq<Segment>, k: nat, ps: seq<Posting>, p: Posting, r: seq<MergeDoc>, m: MergeDoc)
    requires k < |segs| && Faithful(segs, k, ps, r) && segs[k].Lives(p.doc) && ComesFrom(segs, k, p, m)
    requires |Live(segs[..k])| < m.newDocId <= |Live(segs[..k + 1])| && forall x :: x in r ==> x.newDocId < m.newDocId
    ensures Faithful(segs, k, ps + [p], r + [m])
  {
    hide ComesFrom, Live, Segment.Lives;
    assert (ps + [p])[..|ps|] == ps;
    forall x | x in r + [m]
      ensures FromSome(segs, k, ps + [p], x)
    {
      if x in r {
        var q :| q in ps && ComesFrom(segs, k, q, x);
        assert q in ps + [p];
      } else {
        assert p in ps + [p];
      }
    }
    forall q | q in ps + [p] && segs[k].Lives(q.doc)
      ensures HasEntry(segs, k, r + [m], q)
    {
      if q in ps {
        var x :| x in r && ComesFrom(segs, k, q, x);
        assert x in r + [m];
      } else {
        assert m in r + [m];
      }
    }
  }

  lemma {:induction false} SegmentRenumbered(segs: seq<Segment>, k: nat, term: string, n: nat)
    requires AllOk(segs) && NoClash(segs) && k < |segs| && n <= |segs[k].List(term)|
    ensures Faithful(segs, k, segs[k].List(term)[..n], Renumber(segs[k].id, Table(segs), segs[k].List(term)[..n]))
  {
    hide RemapKey, Table, Faithful, ComesFrom, AllOk, NoClash, Renumber, Live, Segment.Lives;
    var s, ps := segs[k], segs[k].List(term);
    RenumberUpTo(s.id, Table(segs), ps, n);
    if n == 0 {
      NoneFaithful(segs, k);
    } else {
      SegmentRenumbered(segs, k, term, n - 1);
      var r, p := Renumber(s.id, Table(segs), ps[..n - 1]), ps[n - 1];
      IsStored(segs, k, term, n - 1);
      InTable(segs, k, p.doc);
      if s.Lives(p.doc) {
        InRange(segs, k, p.doc);
        var m := MergeDoc(Table(segs)[RemapKey(s.id, p.doc)], p.tf, p.positions);
        Produced(segs, k, p, m);
        Earlier(segs, k, term, n - 1, r, p, m);
        FaithfulMore(segs, k, ps[..n - 1], p, r, m);
      } else {
        FaithfulSkip(segs, k, ps[..n - 1], p, r);
      }
    }
  }

  lemma RenumberUpTo(sid: nat, remap: map<nat, nat>, ps: seq<Posting>, n: nat)
    requires n <= |ps|
    ensures if n == 0 then ps[..n] == [] && Renumber(sid, remap, ps[..n]) == [] else
              var p, front := ps[n - 1], Renumber(sid, remap, ps[..n - 1]);
              && ps[..n] == ps[..n - 1] + [p]
              && Renumber(sid, remap, ps[..n]) ==
                 if RemapKey(sid, p.doc) in remap then front + [MergeDoc(remap[RemapKey(sid, p.doc)], p.tf, p.positions)] else front
  {
    hide RemapKey;
    if n > 0 {
      assert ps[..n][..n - 1] == ps[..n - 1];
    }
  }

  lemma IsStored(segs: seq<Segment>, k: nat, term: string, i: nat)
    requires AllOk(segs) && k < |segs| && i < |segs[k].List(term)|
    ensures segs[k].List(term)[i].doc in segs[k].docIds
  {
    assert segs[k].Ok();
  }

  lemma NoneFaithful(segs: seq<Segment>, k: nat)
    requires k < |segs|
    ensures Faithful(segs, k, [], [])
  {
  }

  lemma Produced(segs: seq<Segment>, k: nat, p: Posting, m: MergeDoc)
    requires AllOk(segs) && NoClash(segs) && k < |segs| && segs[k].Lives(p.doc)
    requires RemapKey(segs[k].id, p.doc) in Table(segs) && m == MergeDoc(Table(segs)[RemapKey(segs[k].id, p.doc)], p.tf, p.positions)
    ensures ComesFrom(segs, k, p, m)
  {
    hide RemapKey, Table, Live, NoClash, AllOk, Segment.Lives;
    InRange(segs, k, p.doc);
  }

  // What was renumbered before has smaller numbers.
  lemma Earlier(segs: seq<Segment>, k: nat, term: string, n: nat, r: seq<MergeDoc>, p: Posting, m: MergeDoc)
    requires AllOk(segs) && NoClash(segs) && k < |segs| && n < |segs[k].List(term)| && p == segs[k].List(term)[n]
    requires Faithful(segs, k, segs[k].List(term)[..n], r) && segs[k].Lives(p.doc)
    requires RemapKey(segs[k].id, p.doc) in Table(segs) && m.newDocId == Table(segs)[RemapKey(segs[k].id, p.doc)]
    ensures forall x :: x in r ==> x.newDocId < m.newDocId
  {
    hide RemapKey, Table, Live, NoClash, Segment.Lives, ComesFrom, Rising, AllOk;
    var list := segs[k].List(term);
    assert segs[k].Ok() by { OkAt(segs, k); }
    EarlierDocs(segs[k], term, n);
    forall x | x in r
      ensures x.newDocId < m.newDocId
    {
      assert FromSome(segs, k, list[..n], x);
      var q :| q in list[..n] && ComesFrom(segs, k, q, x);
      EarlierOne(segs, k, q, x, p, m);
    }
  }

  lemma OkAt(segs: seq<Segment>, k: nat)
    requires AllOk(segs) && k < |segs|
    ensures segs[k].Ok()
  {
  }

  lemma EarlierOne(segs: seq<Segment>, k: nat, q: Posting, x: MergeDoc, p: Posting, m: MergeDoc)
    requires AllOk(segs) && NoClash(segs) && ComesFrom(segs, k, q, x) && segs[k].Lives(p.doc) && q.doc < p.doc
    requires RemapKey(segs[k].id, p.doc) in Table(segs) && m.newDocId == Table(segs)[RemapKey(segs[k].id, p.doc)]
    ensures x.newDocId < m.newDocId
  {
    hide RemapKey, Table, Live, NoClash, Segment.Lives, AllOk;
    Monotone(segs, k, q.doc, p.doc);
    SameNumber(segs, k, q.doc, x.newDocId);
  }

  lemma EarlierDocs(s: Segment, term: string, n: nat)
    requires s.Ok() && n < |s.List(term)|
    ensures forall q :: q in s.List(term)[..n] ==> q.doc < s.List(term)[n].doc
  {
  }

  // A live document has one number only.
  lemma SameNumber(segs: seq<Segment>, k: nat, d: nat, n: nat)
    requires AllOk(segs) && NoClash(segs) && k < |segs| && segs[k].Lives(d)
    requires 1 <= n <= |Live(segs)| && Live(segs)[n - 1] == (segs[k].id, d)
    ensures RemapKey(segs[k].id, d) in Table(segs) && Table(segs)[RemapKey(segs[k].id, d)] == n
  {
    hide RemapKey, RemapOf;
    assert segs[..|segs|] == segs;
    LiveKeysDistinct(segs, |segs|);
    RemapExact(Live(segs));
  }

  // ---------------------------------------------------------------- the merged list

  ghost predicate HasOrigin(segs: seq<Segment>, term: string, m: MergeDoc) {
    exists k: nat :: k < |segs| && FromSome(segs, k, segs[k].List(term), m)
  }

  lemma LiveCounts(segs: seq<Segment>, k: nat)
    requires k < |segs|
    ensures |Live(segs[..k])| <= |Live(segs[..k + 1])|
  {
    assert segs[..k + 1][..k] == segs[..k];
  }

  // r is the merged list of the first k segments.
  ghost predicate PrefixMerged(segs: seq<Segment>, term: string, k: nat, r: seq<MergeDoc>)
    requires k <= |segs|
  {
    && Rising(r) && (forall m :: m in r ==> m.newDocId <= |Live(segs[..k])| && HasOrigin(segs, term, m))
    && (forall j, p :: 0 <= j < k && p in segs[j].List(term) && segs[j].Lives(p.doc) ==> HasEntry(segs, j, r, p))
  }

  lemma PrefixMore(segs: seq<Segment>, term: string, k: nat, front: seq<MergeDoc>, mine: seq<MergeDoc>)
    requires k < |segs| && PrefixMerged(segs, term, k, front) && Faithful(segs, k, segs[k].List(term), mine)
    ensures PrefixMerged(segs, term, k + 1, front + mine)
  {
    hide ComesFrom, Live, Segment.Lives, Segment.List, FromSome, LivePostings;
    LiveCounts(segs, k);
    forall m: MergeDoc | m in front + mine
      ensures m.newDocId <= |Live(segs[..k + 1])| && HasOrigin(segs, term, m)
    {
      if m !in front {
        assert m in mine && FromSome(segs, k, segs[k].List(term), m);
      }
    }
    forall j, p | 0 <= j < k + 1 && p in segs[j].List(term) && segs[j].Lives(p.doc)
      ensures HasEntry(segs, j, front + mine, p)
    {
      var m :| (m in front || m in mine) && ComesFrom(segs, j, p, m);
      assert m in front + mine;
    }
  }

  lemma {:induction false} PrefixRising(segs: seq<Segment>, term: string, k: nat)
    requires AllOk(segs) && NoClash(segs) && k <= |segs|
    ensures PrefixMerged(segs, term, k, Renumbered(segs[..k], Table(segs), term))
  {
    hide Table, PrefixMerged, Faithful, Renumber;
    if k == 0 {
      NoPrefix(segs, term);
    } else {
      PrefixRising(segs, term, k - 1);
      var s := segs[k - 1];
      SegmentRenumbered(segs, k - 1, term, |s.List(term)|);
      assert s.List(term)[..|s.List(term)|] == s.List(term);
      assert segs[..k][..k - 1] == segs[..k - 1];
      PrefixMore(segs, term, k - 1, Renumbered(segs[..k - 1], Table(segs), term), Renumber(s.id, Table(segs), s.List(term)));
    }
  }

  lemma NoPrefix(segs: seq<Segment>, term: string)
    ensures PrefixMerged(segs, term, 0, [])
  {
  }

  lemma {:induction false} RisingUnique(xs: seq<MergeDoc>, ys: seq<MergeDoc>)
    requires InOrder(xs, ByNewId) && Rising(ys) && multiset(xs) == multiset(ys)
    ensures xs == ys
    decreases |xs|
  {
    assert |multiset(xs)| == |multiset(ys)|;
    if xs != [] {
      var x, y, fx, fy := xs[|xs| - 1], ys[|ys| - 1], xs[..|xs| - 1], ys[..|ys| - 1];
      FrontsInOrder(xs, ys);
      LastIsMost(xs, ys);
      hide InOrder, Rising;
      LastOff(xs);
      LastOff(ys);
      SameRest(multiset(fx), multiset(fy), x);
      RisingUnique(fx, fy);
    }
  }

  lemma FrontsInOrder(xs: seq<MergeDoc>, ys: seq<MergeDoc>)
    requires InOrder(xs, ByNewId) && Rising(ys) && xs != [] && ys != []
    ensures InOrder(xs[..|xs| - 1], ByNewId) && Rising(ys[..|ys| - 1])
  {
  }

  lemma LastOff(xs: seq<MergeDoc>)
    requires xs != []
    ensures multiset(xs) == multiset(xs[..|xs| - 1]) + multiset{xs[|xs| - 1]}
  {
    assert xs == xs[..|xs| - 1] + [xs[|xs| - 1]];
  }

  lemma SameRest(a: multiset<MergeDoc>, b: multiset<MergeDoc>, x: MergeDoc)
    requires a + multiset{x} == b + multiset{x}
    ensures a == b
  {
    assert a == (a + multiset{x}) - multiset{x};
    assert b == (b + multiset{x}) - multiset{x};
  }

  lemma LastIsMost(xs: seq<MergeDoc>, ys: seq<MergeDoc>)
    requires InOrder(xs, ByNewId) && Rising(ys) && multiset(xs) == multiset(ys) && xs != [] && ys != []
    ensures xs[|xs| - 1] == ys[|ys| - 1]
  {
    var x, y := xs[|xs| - 1], ys[|ys| - 1];
    assert x in multiset(ys) && y in multiset(xs);
    var i :| 0 <= i < |ys| && ys[i] == x;
    var j :| 0 <= j < |xs| && xs[j] == y;
    assert ByNewId(xs[j]) <= ByNewId(x);
    assert i < |ys| - 1 ==> x.newDocId < y.newDocId;
  }

  lemma RisingInOrder(ds: seq<MergeDoc>)
    requires Rising(ds)
    ensures InOrder(ds, ByNewId)
  {
  }

  // One source: a reader's postings, renumbered; dead documents are skipped.
  method RenumberList(sid: nat, remap: map<nat, nat>, ps: seq<Posting>) returns (out: seq<MergeDoc>)
    ensures out == Renumber(sid, remap, ps)
  {
    hide RemapKey;
    out := [];
    for i := 0 to |ps|
      invariant out == Renumber(sid, remap, ps[..i])
    {
      assert ps[..i + 1][..i] == ps[..i];
      var key := RemapKey(sid, ps[i].doc);
      if key in remap {
        out := out + [MergeDoc(remap[key], ps[i].tf, ps[i].positions)];
      }
    }
    assert ps[..|ps|] == ps;
  }

  // A term's merged posting list holds what the table makes of the postings
  // of all inputs. Without a clash it is, in document order, exactly the live
  // ones under their new numbers.
  method MergePostings(segs: seq<Segment>, remap: map<nat, nat>, term: string) returns (merged: seq<MergeDoc>)
    requires AllOk(segs) && remap == Table(segs)
    ensures multiset(merged) == multiset(Renumbered(segs, remap, term))
    ensures NoClash(segs) ==> merged == Renumbered(segs, remap, term)
    ensures NoClash(segs) ==> Rising(merged) && forall m :: m in merged ==> HasOrigin(segs, term, m)
    ensures NoClash(segs) ==> forall k, p :: 0 <= k < |segs| && p in segs[k].List(term) && segs[k].Lives(p.doc) ==> HasEntry(segs, k, merged, p)
  {
    hide RemapKey, Table, InOrder, NoClash, AllOk, PrefixMerged;
    var sources := GatherSources(segs, remap, term);
    merged := MergeAll(sources, ByNewId);
    if NoClash(segs) {
      PrefixRising(segs, term, |segs|);
      assert segs[..|segs|] == segs;
      MergedFacts(segs, term, Renumbered(segs, remap, term));
      RisingUnique(merged, Renumbered(segs, remap, term));
    }
  }

  lemma MergedFacts(segs: seq<Segment>, term: string, r: seq<MergeDoc>)
    requires PrefixMerged(segs, term, |segs|, r)
    ensures Rising(r) && forall m :: m in r ==> HasOrigin(segs, term, m)
    ensures forall k, p :: 0 <= k < |segs| && p in segs[k].List(term) && segs[k].Lives(p.doc) ==> HasEntry(segs, k, r, p)
  {
  }

  // The sources of the merge; readers without the term are left out.
  method GatherSources(segs: seq<Segment>, remap: map<nat, nat>, term: string) returns (sources: seq<seq<MergeDoc>>)
    requires AllOk(segs) && remap == Table(segs)
    ensures NoClash(segs) ==> forall j :: 0 <= j < |sources| ==> InOrder(sources[j], ByNewId)
    ensures All(sources) == multiset(Renumbered(segs, remap, term))
  {
    hide RemapKey, Table, InOrder, NoClash, AllOk, Renumber, All, Renumbered;
    sources := [];
    NoSources(segs, remap, term);
    for i := 0 to |segs|
      invariant NoClash(segs) ==> forall j :: 0 <= j < |sources| ==> InOrder(sources[j], ByNewId)
      invariant All(sources) == multiset(Renumbered(segs[..i], remap, term))
    {
      var list := segs[i].List(term);
      OneMoreSegment(segs, remap, term, i, sources);
      if list != [] {
        var source := RenumberList(segs[i].id, remap, list);
        if NoClash(segs) {
          SourceInOrder(segs, i, term, source);
        }
        sources := sources + [source];
      }
    }
    assert segs[..|segs|] == segs;
  }

  lemma NoSources(segs: seq<Segment>, remap: map<nat, nat>, term: string)
    ensures All<MergeDoc>([]) == multiset(Renumbered(segs[..0], remap, term))
  {
  }

  // One more segment, as a source of its own unless it has none of the term.
  lemma OneMoreSegment(segs: seq<Segment>, remap: map<nat, nat>, term: string, i: nat, sources: seq<seq<MergeDoc>>)
    requires i < |segs| && All(sources) == multiset(Renumbered(segs[..i], remap, term))
    ensures var list := segs[i].List(term);
            multiset(Renumbered(segs[..i + 1], remap, term)) ==
            if list == [] then All(sources) else All(sources + [Renumber(segs[i].id, remap, list)])
  {
    var source := Renumber(segs[i].id, remap, segs[i].List(term));
    assert segs[..i + 1][..i] == segs[..i];
    assert (sources + [source])[..|sources|] == sources;
  }

  lemma SourceInOrder(segs: seq<Segment>, k: nat, term: string, source: seq<MergeDoc>)
    requires AllOk(segs) && NoClash(segs) && k < |segs| && source == Renumber(segs[k].id, Table(segs), segs[k].List(term))
    ensures InOrder(source, ByNewId)
  {
    hide RemapKey, Table, NoClash, AllOk, Renumber;
    var list := segs[k].List(term);
    SegmentRenumbered(segs, k, term, |list|);
    assert list[..|list|] == list;
    RisingInOrder(source);
  }
}
