// The formats in plain numbers: where every field of the files and pages
// stands.
module Layouts {
  import opened Bits
  import opened PForDelta
  import opened SkipLists
  import opened MemoryPages
  import F = StoredFields
  import P = PosFiles
  import T = TimFiles

  // A field that stands in one part of a sequence of bytes.
  lemma PartAt(pre: seq<byte>, part: seq<byte>, post: seq<byte>)
    ensures (pre + part + post)[|pre|..|pre| + |part|] == part
    ensures |part| == 4 ==> Get32(pre + part + post, |pre|) == Get32(part, 0)
    ensures |part| == 8 ==> Get64(pre + part + post, |pre|) == Get64(part, 0)
  {
    var s := pre + part + post;
    assert forall k :: 0 <= k < |part| ==> s[|pre| + k] == part[k];
  }

  lemma WordBack(pre: seq<byte>, v: nat, post: seq<byte>)
    requires v <= MAX_U32
    ensures Get32(pre + Le32(v) + post, |pre|) == v
  {
    hide Le32, Get32;
    FieldsBack(v);
    PartAt(pre, Le32(v), post);
  }

  lemma LongBack(pre: seq<byte>, v: nat, post: seq<byte>)
    requires v < 0x1_0000_0000_0000_0000
    ensures Get64(pre + Le64(v) + post, |pre|) == v
  {
    hide Le32, Get32;
    var low, high := v % 0x1_0000_0000, v / 0x1_0000_0000;
    FieldsBack(low);
    FieldsBack(high);
    PartAt(pre, Le64(v), post);
    PartAt([], Le32(low), Le32(high));
    PartAt(Le32(low), Le32(high), []);
    assert Le64(v) == [] + Le32(low) + Le32(high) == Le32(low) + Le32(high) + [];
  }

  // ---------------------------------------------------------------- skip lists

  // A skip node takes 24 bytes: largest document, four bytes of padding, the
  // offset, the score, the count.
  lemma SkipNodeLayout(n: SkipNode)
    requires InFields(n)
    ensures var s := NodeBytes(n);
            && |s| == 24 && Get32(s, 0) == n.maxDocId && s[4..8] == [0, 0, 0, 0] && Get64(s, 8) == n.byteOffset
            && Get32(s, 16) == n.maxScore && Get32(s, 20) == n.docCount
  {
    hide Le32, Get32, Le64, Get64;
    var a, pad, b, c, d := Le32(n.maxDocId), [0, 0, 0, 0], Le64(n.byteOffset), Le32(n.maxScore), Le32(n.docCount);
    var s := NodeBytes(n);
    assert s == [] + a + (pad + b + c + d) == a + pad + (b + c + d) == (a + pad) + b + (c + d) == (a + pad + b) + c + d == (a + pad + b + c) + d + [];
    WordBack([], n.maxDocId, pad + b + c + d);
    PartAt(a, pad, b + c + d);
    LongBack(a + pad, n.byteOffset, c + d);
    WordBack(a + pad + b, n.maxScore, d);
    WordBack(a + pad + b + c, n.docCount, []);
  }

  lemma {:induction false} NodesLayout(ns: seq<SkipNode>, i: nat)
    requires (forall n :: n in ns ==> InFields(n)) && i < |ns|
    ensures 24 * i + 24 <= |NodesBytes(ns)| && InFields(ns[i]) && NodesBytes(ns)[24 * i..24 * i + 24] == NodeBytes(ns[i])
  {
    hide NodeBytes, InFields;
    if i > 0 {
      NodesLayout(ns[1..], i - 1);
      var head, rest := NodeBytes(ns[0]), NodesBytes(ns[1..]);
      Shifted(head, rest, 24 * (i - 1));
    } else {
      PartAt([], NodeBytes(ns[0]), NodesBytes(ns[1..]));
      assert NodesBytes(ns) == [] + NodeBytes(ns[0]) + NodesBytes(ns[1..]);
    }
  }

  lemma Shifted(head: seq<byte>, rest: seq<byte>, at: nat)
    requires at + 24 <= |rest|
    ensures (head + rest)[|head| + at..|head| + at + 24] == rest[at..at + 24]
  {
  }

  // Two counts, then level 0, then level 1.
  lemma SkipListLayout(sl: SkipList, i: nat)
    requires sl.Writable()
    ensures var s := sl.Bytes();
            && Get32(s, 0) == |sl.level0| && Get32(s, 4) == |sl.level1| && |s| == 8 + 24 * (|sl.level0| + |sl.level1|)
            && (i < |sl.level0| ==> InFields(sl.level0[i]) && s[8 + 24 * i..32 + 24 * i] == NodeBytes(sl.level0[i]))
            && (i < |sl.level1| ==>
                  InFields(sl.level1[i])
                  && s[8 + 24 * (|sl.level0| + i)..32 + 24 * (|sl.level0| + i)] == NodeBytes(sl.level1[i]))
  {
    hide Le32, Get32, NodesBytes, NodeBytes, InFields;
    var c0, c1, n0, n1 := Le32(|sl.level0|), Le32(|sl.level1|), NodesBytes(sl.level0), NodesBytes(sl.level1);
    CountsBack(|sl.level0|, |sl.level1|, n0 + n1);
    assert sl.Bytes() == c0 + c1 + (n0 + n1);
    assert sl.Bytes() == (c0 + c1) + n0 + n1;
    if i < |sl.level0| {
      NodesLayout(sl.level0, i);
      SliceOf(c0 + c1, n0, n1, 24 * i);
    }
    if i < |sl.level1| {
      NodesLayout(sl.level1, i);
      SliceOf(c0 + c1 + n0, n1, [], 24 * i);
      assert sl.Bytes() == (c0 + c1 + n0) + n1 + [];
    }
  }

  lemma SliceOf(pre: seq<byte>, part: seq<byte>, post: seq<byte>, at: nat)
    requires at + 24 <= |part|
    ensures (pre + part + post)[|pre| + at..|pre| + at + 24] == part[at..at + 24]
  {
  }

  // Node g of level 1 stands for nodes 128 g to 128 g + 127 of level 0.
  lemma Level1Layout(sl: SkipList, g: nat)
    requires sl.Valid() && g < |sl.level1|
    ensures var last := Min(128 * g + 127, |sl.level0| - 1);
            && |sl.level0| > 128 && 128 * g <= last < |sl.level0|
            && sl.level1[g].maxDocId == sl.level0[last].maxDocId && sl.level1[g].byteOffset == sl.level0[128 * g].byteOffset
            && (forall i :: 128 * g <= i <= last ==> sl.level0[i].maxScore <= sl.level1[g].maxScore)
            && (sl.level1[g].maxScore == 0 || exists i :: 128 * g <= i <= last && sl.level0[i].maxScore == sl.level1[g].maxScore)
  {
    hide MaxScore;
    assert IsGroup(sl.level0, g, sl.level1[g]);
    var last := Min(128 * g + 127, |sl.level0| - 1);
    var part := sl.level0[128 * g..last + 1];
    BestScore(part);
    forall i | 128 * g <= i <= last
      ensures sl.level0[i].maxScore <= sl.level1[g].maxScore
    {
      assert part[i - 128 * g] == sl.level0[i];
    }
    if MaxScore(part) != 0 {
      var i :| 0 <= i < |part| && part[i].maxScore == MaxScore(part);
      assert sl.level0[128 * g + i] == part[i];
    }
  }

  lemma {:induction false} BestScore(nodes: seq<SkipNode>)
    ensures forall i :: 0 <= i < |nodes| ==> nodes[i].maxScore <= MaxScore(nodes)
    ensures MaxScore(nodes) == 0 || exists i :: 0 <= i < |nodes| && nodes[i].maxScore == MaxScore(nodes)
  {
    if nodes != [] {
      var front := nodes[..|nodes| - 1];
      BestScore(front);
      assert forall i :: 0 <= i < |front| ==> front[i] == nodes[i];
    }
  }

  // ---------------------------------------------------------------- positions

  // How many words the first i postings take.
  function WordsBefore(ps: seq<Posting>, i: nat): nat
    requires i <= |ps|
  {
    if i == 0 then 0 else WordsBefore(ps, i - 1) + 2 + |ps[i - 1].positions|
  }

  // Posting i of a .pos list: its document, how many positions, the positions.
  lemma {:induction false} PosLayout(ps: seq<Posting>, i: nat)
    requires i < |ps|
    ensures var ws, at := P.ListWords(ps), WordsBefore(ps, i);
            && at + 2 + |ps[i].positions| <= |ws| && ws[at] == ps[i].doc && ws[at + 1] == |ps[i].positions|
            && forall j :: 0 <= j < |ps[i].positions| ==> ws[at + 2 + j] == ps[i].positions[j]
    decreases |ps|
  {
    var n := |ps| - 1;
    WordsLength(ps[..n]);
    WordsInFront(ps, n, i);
    WordsInFront(ps, n, n);
    if i < n {
      PosLayout(ps[..n], i);
    }
  }

  lemma {:induction false} WordsLength(ps: seq<Posting>)
    ensures |P.ListWords(ps)| == WordsBefore(ps, |ps|)
  {
    if ps != [] {
      var front := ps[..|ps| - 1];
      WordsLength(front);
      WordsInFront(ps, |front|, |front|);
    }
  }

  lemma {:induction false} WordsInFront(ps: seq<Posting>, n: nat, i: nat)
    requires i <= n <= |ps|
    ensures WordsBefore(ps[..n], i) == WordsBefore(ps, i)
  {
    if i > 0 {
      WordsInFront(ps, n, i - 1);
    }
  }

  // ---------------------------------------------------------------- dictionaries

  // Where entry i of a .tim file starts.
  function EntryStart(entries: seq<T.Entry>, i: nat): nat
    requires i <= |entries|
  {
    if i == 0 then 4 else EntryStart(entries, i - 1) + 48 + |entries[i - 1].term|
  }

  lemma {:induction false} StartIs(entries: seq<T.Entry>, i: nat)
    requires T.EntriesFit(entries) && i <= |entries|
    ensures EntryStart(entries, i) == 4 + |T.Body(entries[..i])|
  {
    hide T.Entry.Fits, T.Entry.Head, T.Entry.Patched;
    if i > 0 {
      StartIs(entries, i - 1);
      T.BodyStep(entries, i - 1);
    }
  }

  // The term with its length in front, counts, offsets, bound, one more
  // offset; the count of all terms stands at the start of the file.
  lemma TimLayout(entries: seq<T.Entry>, i: nat)
    requires T.EntriesFit(entries) && i < |entries|
    ensures var s, at, e := T.TimBytes(entries), EntryStart(entries, i), entries[i];
            && at + 48 + |e.term| <= |s| && Get32(s, 0) == |entries|
            && Get32(s, at) == |e.term| && s[at + 4..at + 4 + |e.term|] == e.term
            && var here := at + 4 + |e.term|;
               && Get32(s, here) == e.docFreq && Get32(s, here + 4) == e.totalTf
               && Get64(s, here + 8) == e.offsets.posting && Get64(s, here + 16) == e.offsets.skip
               && Get64(s, here + 24) == e.offsets.pos && Get32(s, here + 32) == e.upperBound
               && Get64(s, here + 36) == e.offsets.tfData
  {
    hide T.Entry.Fits, T.Body, T.TimBytes, T.Entry.Head, T.Entry.Patched, Le32, Get32, Get64, Holds, EntryStart;
    var s := T.TimBytes(entries);
    StartIs(entries, i);
    T.HoldsEntry(entries, i);
    T.HoldsCount(entries);
    WordAt(s, 0, |entries|);
    HeadLayout(s, EntryStart(entries, i), entries[i]);
  }

  lemma WordAt(s: seq<byte>, at: nat, v: nat)
    requires v <= MAX_U32 && Holds(s, at, Le32(v))
    ensures at + 4 <= |s| && Get32(s, at) == v
  {
    hide Le32, Get32;
    assert s == s[..at] + Le32(v) + s[at + 4..];
    WordBack(s[..at], v, s[at + 4..]);
  }

  lemma LongAt(s: seq<byte>, at: nat, v: nat)
    requires v < 0x1_0000_0000_0000_0000 && Holds(s, at, Le64(v))
    ensures at + 8 <= |s| && Get64(s, at) == v
  {
    hide Le64, Get64;
    assert s == s[..at] + Le64(v) + s[at + 8..];
    LongBack(s[..at], v, s[at + 8..]);
  }

  lemma HeadLayout(s: seq<byte>, at: nat, e: T.Entry)
    requires e.Fits() && Holds(s, at, e.Head() + e.Patched())
    ensures at + 48 + |e.term| <= |s| && Get32(s, at) == |e.term| && s[at + 4..at + 4 + |e.term|] == e.term
    ensures var here := at + 4 + |e.term|;
            && Get32(s, here) == e.docFreq && Get32(s, here + 4) == e.totalTf
            && Get64(s, here + 8) == e.offsets.posting && Get64(s, here + 16) == e.offsets.skip
            && Get64(s, here + 24) == e.offsets.pos && Get32(s, here + 32) == e.upperBound
            && Get64(s, here + 36) == e.offsets.tfData
  {
    hide Le32, Le64, Get32, Get64, Holds;
    T.HoldsBoth(s, at, e.Head(), e.Patched());
    T.HoldsBoth(s, at, Le32(|e.term|) + e.term, Le32(e.docFreq) + Le32(e.totalTf));
    T.HoldsBoth(s, at, Le32(|e.term|), e.term);
    var here, o := at + 4 + |e.term|, e.offsets;
    T.HoldsBoth(s, here, Le32(e.docFreq), Le32(e.totalTf));
    T.HoldsBoth(s, here + 8, Le64(o.posting) + Le64(o.skip), Le64(o.pos) + Le32(e.upperBound) + Le64(o.tfData));
    T.HoldsBoth(s, here + 8, Le64(o.posting), Le64(o.skip));
    T.HoldsBoth(s, here + 24, Le64(o.pos) + Le32(e.upperBound), Le64(o.tfData));
    T.HoldsBoth(s, here + 24, Le64(o.pos), Le32(e.upperBound));
    WordAt(s, at, |e.term|);
    WordAt(s, here, e.docFreq);
    WordAt(s, here + 4, e.totalTf);
    LongAt(s, here + 8, o.posting);
    LongAt(s, here + 16, o.skip);
    LongAt(s, here + 24, o.pos);
    WordAt(s, here + 32, e.upperBound);
    LongAt(s, here + 36, o.tfData);
    SliceThere(s, at + 4, e.term);
  }

  lemma SliceThere(s: seq<byte>, at: nat, part: seq<byte>)
    requires Holds(s, at, part)
    ensures at + |part| <= |s| && s[at..at + |part|] == part
  {
  }

  // ---------------------------------------------------------------- the arena

  // A posting takes a page of 24 bytes, and one of 32 bytes for every seven
  // positions if there are more than three.
  lemma PostingSize(n: nat, pages: nat)
    requires 7 * pages < n + 7 && n <= 7 * pages
    ensures PostingBytes(n) == if n <= 3 then 24 else 24 + 32 * pages
  {
  }

  // Position j of a long posting stands in page j / 7, as word j % 7; the last
  // word of a page leads to the next.
  lemma PositionPage(mem: seq<byte>, pages: seq<nat>, ps: seq<nat>, j: nat)
    requires PosPages(mem, pages, ps) && j < |ps|
    ensures var at := j / 7;
            && at < |pages| && pages[at] + 32 <= |mem| && Get32(mem, pages[at] + 4 * (j % 7)) == ps[j]
            && Get32(mem, pages[at] + 28) == if at + 1 < |pages| then pages[at + 1] else 0xFFFF_FFFF
  {
    hide Get32, Run;
    var at, i := j / 7, j % 7;
    OnPage(ps, j);
    WordOnPage(ps, j);
    var part := Run(ps, at);
    assert PosPageAt(mem, pages[at], part, NextOf(pages, at));
    assert Get32(mem, pages[at] + 4 * i) == part[i] == ps[j];
  }

  lemma WordOnPage(ps: seq<nat>, j: nat)
    requires j < |ps|
    ensures 7 * (j / 7) <= |ps| && j % 7 < |Run(ps, j / 7)| && Run(ps, j / 7)[j % 7] == ps[j]
  {
    assert j == 7 * (j / 7) + j % 7;
  }

  // A stored payload takes a page of 4096 bytes for every 4084 of its own;
  // byte j of it stands 12 bytes into page j / 4084.
  lemma StoredByte(mem: seq<byte>, pages: seq<nat>, doc: nat, payload: seq<byte>, j: nat)
    requires F.StoredPages(mem, pages, doc, payload) && j < |payload|
    ensures 4084 * |pages| < |payload| + 4084 && |payload| <= 4084 * |pages|
    ensures var at := j / 4084;
            at < |pages| && pages[at] + 4096 <= |mem| && mem[pages[at] + 12 + j % 4084] == payload[j]
  {
    hide Get32, WordsAt, F.Piece;
    var at, i := j / 4084, j % 4084;
    PieceAt(payload, j);
    var part := F.Piece(payload, at);
    assert F.StoredPageAt(mem, pages[at], doc, part, NextOf(pages, at));
    ByteInside(mem, pages[at] + 12, part, i);
  }

  lemma PieceAt(payload: seq<byte>, j: nat)
    requires j < |payload|
    ensures var n, at := F.PagesNeeded(|payload|), j / 4084;
            && 4084 * n < |payload| + 4084 && |payload| <= 4084 * n && at < n
            && 4084 * at <= |payload| && j % 4084 < |F.Piece(payload, at)| && F.Piece(payload, at)[j % 4084] == payload[j]
  {
    assert j == 4084 * (j / 4084) + j % 4084;
  }

  lemma ByteInside(mem: seq<byte>, at: nat, part: seq<byte>, i: nat)
    requires at + |part| <= |mem| && mem[at..at + |part|] == part && i < |part|
    ensures mem[at + i] == part[i]
  {
    assert mem[at..at + |part|][i] == mem[at + i];
  }

  // Where field i of a payload starts.
  function FieldStart(fs: seq<F.Field>, i: nat): nat
    requires i <= |fs|
  {
    if i == 0 then 4 else FieldStart(fs, i - 1) + 8 + |fs[i - 1].name| + |fs[i - 1].value|
  }

  lemma {:induction false} FieldsLength(fs: seq<F.Field>, i: nat)
    requires i <= |fs| && forall f :: f in fs ==> F.FieldFits(f)
    ensures FieldStart(fs, i) == 4 + |F.FieldsBytes(fs[..i])|
  {
    hide F.FieldBytes, F.FieldFits;
    if i > 0 {
      FieldsLength(fs, i - 1);
      assert fs[..i][..i - 1] == fs[..i - 1];
    }
  }

  lemma {:induction false} FieldHolds(fs: seq<F.Field>, i: nat)
    requires i < |fs| && forall f :: f in fs ==> F.FieldFits(f)
    ensures F.FieldFits(fs[i]) && Holds(F.FieldsBytes(fs), |F.FieldsBytes(fs[..i])|, F.FieldBytes(fs[i]))
    decreases |fs|
  {
    hide F.FieldBytes, F.FieldFits;
    var n := |fs| - 1;
    if i < n {
      FieldHolds(fs[..n], i);
      assert fs[..n][..i] == fs[..i];
      HoldsOn(F.FieldsBytes(fs[..n]), F.FieldBytes(fs[n]), |F.FieldsBytes(fs[..i])|, F.FieldBytes(fs[i]));
    }
  }

  lemma HoldsOn(s: seq<byte>, more: seq<byte>, at: nat, part: seq<byte>)
    requires Holds(s, at, part)
    ensures Holds(s + more, at, part)
  {
    assert (s + more)[at..at + |part|] == s[at..at + |part|];
  }

  // The count of fields, then name and value of each behind their lengths.
  lemma PayloadLayout(fs: seq<F.Field>, i: nat)
    requires 0 < |fs| <= MAX_U32 && (forall f :: f in fs ==> F.FieldFits(f)) && i < |fs|
    ensures var s, at, f := F.Payload(fs), FieldStart(fs, i), fs[i];
            && Get32(s, 0) == |fs| && at + 8 + |f.name| + |f.value| <= |s|
            && Get32(s, at) == |f.name| && s[at + 4..at + 4 + |f.name|] == f.name
            && Get32(s, at + 4 + |f.name|) == |f.value| && s[at + 8 + |f.name|..at + 8 + |f.name| + |f.value|] == f.value
  {
    hide F.FieldsBytes, F.FieldBytes, F.FieldFits, Le32, Get32, Holds, FieldStart;
    var s, body := F.Payload(fs), F.FieldsBytes(fs);
    FieldHolds(fs, i);
    FieldsLength(fs, i);
    HoldsBehind(Le32(|fs|), body, |F.FieldsBytes(fs[..i])|, F.FieldBytes(fs[i]));
    assert s == Le32(|fs|) + body == [] + Le32(|fs|) + body;
    WordBack([], |fs|, body);
    FieldLayout(s, FieldStart(fs, i), fs[i]);
  }

  lemma FieldLayout(s: seq<byte>, at: nat, f: F.Field)
    requires F.FieldFits(f) && Holds(s, at, F.FieldBytes(f))
    ensures at + 8 + |f.name| + |f.value| <= |s| && Get32(s, at) == |f.name| && s[at + 4..at + 4 + |f.name|] == f.name
    ensures Get32(s, at + 4 + |f.name|) == |f.value| && s[at + 8 + |f.name|..at + 8 + |f.name| + |f.value|] == f.value
  {
    hide Le32, Get32, Holds;
    T.HoldsBoth(s, at, Le32(|f.name|) + f.name + Le32(|f.value|), f.value);
    T.HoldsBoth(s, at, Le32(|f.name|) + f.name, Le32(|f.value|));
    T.HoldsBoth(s, at, Le32(|f.name|), f.name);
    WordAt(s, at, |f.name|);
    WordAt(s, at + 4 + |f.name|, |f.value|);
    SliceThere(s, at + 4, f.name);
    SliceThere(s, at + 8 + |f.name|, f.value);
  }

  lemma HoldsBehind(pre: seq<byte>, s: seq<byte>, at: nat, part: seq<byte>)
    requires Holds(s, at, part)
    ensures Holds(pre + s, |pre| + at, part)
  {
    assert (pre + s)[|pre| + at..|pre| + at + |part|] == s[at..at + |part|];
  }
}
