// A field's term dictionary on disk: written with blanks for what is not
// known yet, patched in place, and read back when the segment is opened.
module TimFiles {
  import opened Bits

  const MAX_U64: nat := 0xFFFF_FFFF_FFFF_FFFF

  // Where a term's postings, skip list, positions and frequencies start.
  datatype Offsets = Offsets(posting: nat, skip: nat, pos: nat, tfData: nat)

  datatype Entry = Entry(term: seq<byte>, docFreq: nat, totalTf: nat, upperBound: nat, offsets: Offsets)
  {
    ghost predicate Fits() {
      && |term| <= MAX_U32 && docFreq <= MAX_U32 && totalTf <= MAX_U32 && upperBound <= MAX_U32
      && offsets.posting <= MAX_U64 && offsets.skip <= MAX_U64 && offsets.pos <= MAX_U64 && offsets.tfData <= MAX_U64
    }

    // What stands in the file before the places that get patched.
    ghost function Head(): (bytes: seq<byte>)
      requires Fits()
      ensures |bytes| == |term| + 12
    {
      Le32(|term|) + term + (Le32(docFreq) + Le32(totalTf))
    }

    ghost function Patched(): (bytes: seq<byte>)
      requires Fits()
      ensures |bytes| == 36
    {
      Le64(offsets.posting) + Le64(offsets.skip) + (Le64(offsets.pos) + Le32(upperBound) + Le64(offsets.tfData))
    }
  }

  ghost predicate EntriesFit(entries: seq<Entry>) {
    |entries| <= MAX_U32 && forall e :: e in entries ==> e.Fits()
  }

  ghost function Body(entries: seq<Entry>): seq<byte>
    requires forall e :: e in entries ==> e.Fits()
  {
    if entries == [] then []
    else
      var last := entries[|entries| - 1];
      Body(entries[..|entries| - 1]) + (last.Head() + last.Patched())
  }

  // The whole file: how many terms, and their entries.
  ghost function TimBytes(entries: seq<Entry>): seq<byte>
    requires EntriesFit(entries)
  {
    Le32(|entries|) + Body(entries)
  }

  // Where the patched part of entry i starts.
  ghost function PatchAt(entries: seq<Entry>, i: nat): nat
    requires i < |entries| && forall e :: e in entries ==> e.Fits()
  {
    4 + |Body(entries[..i])| + |entries[i].Head()|
  }

  // ---------------------------------------------------------------- writing

  // The entries while the offsets of the first i for the .doc file and of the
  // first j for the .pos file have been filled in.
  ghost function Filled(entries: seq<Entry>, i: nat, j: nat): (es: seq<Entry>)
    ensures |es| == |entries|
  {
    seq(|entries|, k requires 0 <= k < |entries| => Partly(entries[k], k < i, k < j))
  }

  ghost function Partly(e: Entry, doc: bool, pos: bool): (s: Entry)
    ensures e.Fits() ==> s.Fits() && s.Head() == e.Head()
  {
    var o := e.offsets;
    e.(offsets := Offsets(if doc then o.posting else 0, if doc then o.skip else 0, if pos then o.pos else 0, if doc then o.tfData else 0))
  }

  lemma FilledFit(entries: seq<Entry>, i: nat, j: nat)
    requires EntriesFit(entries)
    ensures EntriesFit(Filled(entries, i, j))
  {
  }

  method AppendBlank(file: seq<byte>, e: Entry) returns (file': seq<byte>, at: nat)
    requires e.Fits()
    ensures file' == file + (Partly(e, false, false).Head() + Partly(e, false, false).Patched())
    ensures at == |file| + |e.Head()|
  {
    hide Le32, Le64;
    var head := Le32(|e.term|) + e.term + (Le32(e.docFreq) + Le32(e.totalTf));
    var rest := Le64(0) + Le64(0) + (Le64(0) + Le32(e.upperBound) + Le64(0));
    file', at := file + (head + rest), |file| + |head|;
  }

  // Entries with blank offsets, and where to patch each.
  method WriteTim(entries: seq<Entry>) returns (file: seq<byte>, patch: seq<nat>)
    requires EntriesFit(entries)
    ensures EntriesFit(Filled(entries, 0, 0)) && file == TimBytes(Filled(entries, 0, 0))
    ensures |patch| == |entries| && forall i :: 0 <= i < |entries| ==> patch[i] == PatchAt(entries, i)
  {
    hide Entry.Fits, Entry.Head, Entry.Patched, Body, Le32, Partly;
    FilledFit(entries, 0, 0);
    ghost var es := Filled(entries, 0, 0);
    file, patch := Le32(|entries|), [];
    NoBody(es, entries);
    for i := 0 to |entries|
      invariant file == Le32(|entries|) + Body(es[..i])
      invariant |patch| == i && |Body(es[..i])| == |Body(entries[..i])|
      invariant forall k :: 0 <= k < i ==> patch[k] == PatchAt(entries, k)
    {
      var at;
      assert entries[i].Fits();
      file, at := AppendBlank(file, entries[i]);
      patch := patch + [at];
      BodyStep(es, i);
      BodyStep(entries, i);
      assert es[i] == Partly(entries[i], false, false);
      MoreBody(Le32(|entries|), Body(es[..i]), es[i].Head() + es[i].Patched());
    }
    assert es[..|es|] == es;
  }

  lemma NoBody(es: seq<Entry>, entries: seq<Entry>)
    requires EntriesFit(es) && EntriesFit(entries)
    ensures Body(es[..0]) == [] == Body(entries[..0])
  {
  }

  lemma BodyStep(es: seq<Entry>, i: nat)
    requires EntriesFit(es) && i < |es|
    ensures es[i].Fits() && Body(es[..i + 1]) == Body(es[..i]) + (es[i].Head() + es[i].Patched())
  {
    hide Entry.Fits, Entry.Head, Entry.Patched;
    assert es[..i + 1][..i] == es[..i];
  }

  lemma MoreBody(n: seq<byte>, body: seq<byte>, more: seq<byte>)
    ensures (n + body) + more == n + (body + more)
  {
  }

  // Bytes written over others.
  function Over(file: seq<byte>, at: nat, part: seq<byte>): (file': seq<byte>)
    requires at + |part| <= |file|
    ensures |file'| == |file|
  {
    file[..at] + part + file[at + |part|..]
  }

  lemma OverInside(a: seq<byte>, b: seq<byte>, c: seq<byte>, k: nat, part: seq<byte>)
    requires k + |part| <= |b|
    ensures Over(a + b + c, |a| + k, part) == a + Over(b, k, part) + c
  {
  }

  lemma {:induction false} BodyConcat(a: seq<Entry>, b: seq<Entry>)
    requires forall e :: e in a + b ==> e.Fits()
    ensures (forall e :: e in a ==> e.Fits()) && (forall e :: e in b ==> e.Fits()) && Body(a + b) == Body(a) + Body(b)
    decreases |b|
  {
    hide Entry.Fits, Entry.Head, Entry.Patched;
    assert forall e :: e in a || e in b ==> e in a + b;
    if b == [] {
      assert a + b == a;
    } else {
      var front, last := b[..|b| - 1], b[|b| - 1];
      assert (a + b)[..|a + b| - 1] == a + front && (a + b)[|a + b| - 1] == last;
      BodyConcat(a, front);
      assert Body(a) + (Body(front) + (last.Head() + last.Patched())) == (Body(a) + Body(front)) + (last.Head() + last.Patched());
    }
  }

  // The file around the patched part of entry i.
  lemma AroundEntry(entries: seq<Entry>, i: nat) returns (before: seq<byte>, after: seq<byte>)
    requires EntriesFit(entries) && i < |entries|
    ensures TimBytes(entries) == before + entries[i].Patched() + after && |before| == PatchAt(entries, i)
    ensures forall e: Entry :: e.Fits() && e.Head() == entries[i].Head() && EntriesFit(entries[i := e]) ==>
              TimBytes(entries[i := e]) == before + e.Patched() + after
  {
    hide Entry.Fits, Entry.Head, Entry.Patched, Body;
    before := Le32(|entries|) + Body(entries[..i]) + entries[i].Head();
    after := Body(entries[i + 1..]);
    forall e: Entry | e.Fits() && e.Head() == entries[i].Head() && EntriesFit(entries[i := e])
      ensures TimBytes(entries[i := e]) == before + e.Patched() + after
    {
      var es := entries[i := e];
      assert es == (entries[..i] + [e]) + entries[i + 1..];
      BodyConcat(entries[..i] + [e], entries[i + 1..]);
      BodyConcat(entries[..i], [e]);
      BodyOfOne(e);
      EntryRegrouped(Le32(|entries|), Body(entries[..i]), e.Head(), e.Patched(), after);
    }
    assert entries[i := entries[i]] == entries;
  }

  lemma BodyOfOne(e: Entry)
    requires e.Fits()
    ensures Body([e]) == e.Head() + e.Patched()
  {
    assert [e][..0] == [];
  }

  lemma EntryRegrouped(n: seq<byte>, a: seq<byte>, h: seq<byte>, p: seq<byte>, c: seq<byte>)
    ensures n + ((a + (h + p)) + c) == (n + a + h) + p + c
  {
  }

  // Writing over one of five parts.
  lemma OverParts(a: seq<byte>, b: seq<byte>, c: seq<byte>, d: seq<byte>, e: seq<byte>, x: seq<byte>)
    requires |a| == |b| == |c| == |e| == |x| == 8 && |d| == 4
    ensures Over(a + b + (c + d + e), 0, x) == x + b + (c + d + e)
    ensures Over(a + b + (c + d + e), 8, x) == a + x + (c + d + e)
    ensures Over(a + b + (c + d + e), 16, x) == a + b + (x + d + e)
    ensures Over(a + b + (c + d + e), 28, x) == a + b + (c + d + x)
  {
  }

  // The four places of an entry.
  lemma Places(e: Entry, v: nat)
    requires e.Fits() && v <= MAX_U64
    ensures Over(e.Patched(), 0, Le64(v)) == e.(offsets := e.offsets.(posting := v)).Patched()
    ensures Over(e.Patched(), 8, Le64(v)) == e.(offsets := e.offsets.(skip := v)).Patched()
    ensures Over(e.Patched(), 16, Le64(v)) == e.(offsets := e.offsets.(pos := v)).Patched()
    ensures Over(e.Patched(), 28, Le64(v)) == e.(offsets := e.offsets.(tfData := v)).Patched()
  {
    hide Le64, Le32, Over;
    var o := e.offsets;
    OverParts(Le64(o.posting), Le64(o.skip), Le64(o.pos), Le32(e.upperBound), Le64(o.tfData), Le64(v));
  }

  // One place of one entry filled in.
  lemma PlaceFilled(entries: seq<Entry>, i: nat, e: Entry, k: nat, v: nat, file: seq<byte>)
    requires EntriesFit(entries) && i < |entries| && EntriesFit(entries[i := e]) && e.Fits() && e.Head() == entries[i].Head()
    requires v <= MAX_U64 && k + 8 <= 36 && e.Patched() == Over(entries[i].Patched(), k, Le64(v))
    requires file == TimBytes(entries)
    ensures PatchAt(entries, i) + k + 8 <= |file| && Over(file, PatchAt(entries, i) + k, Le64(v)) == TimBytes(entries[i := e])
  {
    hide Entry.Fits, Entry.Head, Entry.Patched, Body, Le64, Over, PatchAt, TimBytes;
    var before, after := AroundEntry(entries, i);
    OverInside(before, entries[i].Patched(), after, k, Le64(v));
  }

  // Filling in other entries' places moves nothing.
  lemma {:induction false} SameBodyLength(a: seq<Entry>, b: seq<Entry>)
    requires EntriesFit(a) && EntriesFit(b) && |a| == |b| && forall i :: 0 <= i < |a| ==> HeadOf(a, i) == HeadOf(b, i)
    ensures |Body(a)| == |Body(b)|
  {
    hide Entry.Fits, Entry.Head, Entry.Patched;
    if a != [] {
      var n := |a| - 1;
      assert EntriesFit(a[..n]) && EntriesFit(b[..n]);
      forall i | 0 <= i < n
        ensures HeadOf(a[..n], i) == HeadOf(b[..n], i)
      {
        assert HeadOf(a, i) == HeadOf(b, i) && a[..n][i] == a[i] && b[..n][i] == b[i];
      }
      SameBodyLength(a[..n], b[..n]);
      assert HeadOf(a, n) == HeadOf(b, n);
    }
  }

  ghost function HeadOf(entries: seq<Entry>, i: nat): seq<byte>
    requires EntriesFit(entries) && i < |entries|
  {
    entries[i].Head()
  }

  lemma SamePlace(a: seq<Entry>, b: seq<Entry>, i: nat)
    requires EntriesFit(a) && EntriesFit(b) && |a| == |b| && i < |a| && forall k :: 0 <= k < |a| ==> HeadOf(a, k) == HeadOf(b, k)
    ensures PatchAt(a, i) == PatchAt(b, i)
  {
    hide Entry.Fits, Entry.Head, Entry.Patched, Body;
    assert EntriesFit(a[..i]) && EntriesFit(b[..i]);
    forall k | 0 <= k < i
      ensures HeadOf(a[..i], k) == HeadOf(b[..i], k)
    {
      assert HeadOf(a, k) == HeadOf(b, k) && a[..i][k] == a[k] && b[..i][k] == b[k];
    }
    SameBodyLength(a[..i], b[..i]);
    assert HeadOf(a, i) == HeadOf(b, i);
  }

  // A seek and a write of eight bytes: entry i becomes e.
  method Patch(file: seq<byte>, at: nat, v: nat, ghost es: seq<Entry>, ghost i: nat, ghost k: nat, ghost e: Entry)
    returns (file': seq<byte>)
    requires EntriesFit(es) && i < |es| && file == TimBytes(es) && at == PatchAt(es, i) + k && k + 8 <= 36 && v <= MAX_U64
    requires e.Fits() && e.Head() == es[i].Head() && e.Patched() == Over(es[i].Patched(), k, Le64(v))
    ensures EntriesFit(es[i := e]) && file' == TimBytes(es[i := e]) && PatchAt(es[i := e], i) == PatchAt(es, i)
  {
    hide Entry.Fits, Entry.Head, Entry.Patched, Body, Le64, Over, TimBytes;
    assert EntriesFit(es[i := e]);
    PlaceFilled(es, i, e, k, v, file);
    assert es[i := e][..i] == es[..i];
    file' := Over(file, at, Le64(v));
  }

  // What the .doc file knows of one entry.
  method PatchDocOffsets(file: seq<byte>, at: nat, e: Entry, ghost es: seq<Entry>, ghost i: nat) returns (file': seq<byte>)
    requires EntriesFit(es) && i < |es| && file == TimBytes(es) && at == PatchAt(es, i) && e.Fits() && es[i] == Partly(e, false, false)
    ensures EntriesFit(es[i := Partly(e, true, false)]) && file' == TimBytes(es[i := Partly(e, true, false)])
  {
    hide Entry.Head, Entry.Patched, Body, Le64, Over, TimBytes, PatchAt;
    var o := e.offsets;
    ghost var e1 := es[i].(offsets := es[i].offsets.(posting := o.posting));
    ghost var e2 := e1.(offsets := e1.offsets.(skip := o.skip));
    ghost var e3 := e2.(offsets := e2.offsets.(tfData := o.tfData));
    Places(es[i], o.posting);
    SameHead(es[i], e1);
    file' := Patch(file, at, o.posting, es, i, 0, e1);
    ghost var es1 := es[i := e1];
    Places(es1[i], o.skip);
    SameHead(es1[i], e2);
    file' := Patch(file', at + 8, o.skip, es1, i, 8, e2);
    ghost var es2 := es1[i := e2];
    Places(es2[i], o.tfData);
    SameHead(es2[i], e3);
    file' := Patch(file', at + 28, o.tfData, es2, i, 28, e3);
    assert es2[i := e3] == es[i := Partly(e, true, false)];
  }

  lemma SameHead(a: Entry, b: Entry)
    requires a.Fits() && b.Fits() && b == a.(offsets := b.offsets)
    ensures a.Head() == b.Head()
  {
  }

  lemma FilledNext(entries: seq<Entry>, i: nat, j: nat)
    requires EntriesFit(entries) && i <= |entries| && j <= |entries|
    ensures EntriesFit(Filled(entries, i, j)) && forall k :: 0 <= k < |entries| ==> HeadOf(Filled(entries, i, j), k) == HeadOf(entries, k)
    ensures i < |entries| ==> Filled(entries, i + 1, j) == Filled(entries, i, j)[i := Partly(entries[i], true, i < j)]
    ensures j < |entries| ==> Filled(entries, i, j + 1) == Filled(entries, i, j)[j := Partly(entries[j], j < i, true)]
    ensures Filled(entries, |entries|, |entries|) == entries
  {
    hide Entry.Head, Entry.Fits;
    forall k | 0 <= k < |entries|
      ensures entries[k].Fits()
    {
      assert entries[k] in entries;
    }
  }

  // Once the .doc file is written.
  method PatchDoc(file: seq<byte>, patch: seq<nat>, entries: seq<Entry>) returns (file': seq<byte>)
    requires EntriesFit(entries) && EntriesFit(Filled(entries, 0, 0)) && file == TimBytes(Filled(entries, 0, 0))
    requires |patch| == |entries| && forall i :: 0 <= i < |entries| ==> patch[i] == PatchAt(entries, i)
    ensures EntriesFit(Filled(entries, |entries|, 0)) && file' == TimBytes(Filled(entries, |entries|, 0))
  {
    hide Entry.Head, Entry.Patched, Entry.Fits, Body, TimBytes, PatchAt, Filled, Partly;
    file' := file;
    for i := 0 to |entries|
      invariant EntriesFit(Filled(entries, i, 0)) && file' == TimBytes(Filled(entries, i, 0))
    {
      FilledNext(entries, i, 0);
      PartlyAt(entries, i, 0, i);
      SamePlace(Filled(entries, i, 0), entries, i);
      file' := PatchDocOffsets(file', patch[i], entries[i], Filled(entries, i, 0), i);
    }
  }

  lemma PartlyAt(entries: seq<Entry>, i: nat, j: nat, k: nat)
    requires EntriesFit(entries) && k < |entries|
    ensures Filled(entries, i, j)[k] == Partly(entries[k], k < i, k < j) && entries[k].Fits()
  {
  }

  // Once the .pos file is written: now the dictionary is complete.
  method PatchPos(file: seq<byte>, patch: seq<nat>, entries: seq<Entry>) returns (file': seq<byte>)
    requires EntriesFit(entries) && EntriesFit(Filled(entries, |entries|, 0)) && file == TimBytes(Filled(entries, |entries|, 0))
    requires |patch| == |entries| && forall i :: 0 <= i < |entries| ==> patch[i] == PatchAt(entries, i)
    ensures file' == TimBytes(entries)
  {
    hide Entry.Head, Entry.Patched, Entry.Fits, Body, TimBytes, PatchAt, Filled, Over, Le64;
    file' := file;
    ghost var n := |entries|;
    for i := 0 to |entries|
      invariant EntriesFit(Filled(entries, n, i)) && file' == TimBytes(Filled(entries, n, i))
    {
      ghost var es := Filled(entries, n, i);
      FilledNext(entries, n, i);
      PartlyAt(entries, n, i, i);
      SamePlace(es, entries, i);
      ghost var e := Partly(entries[i], true, true);
      PartlyFits(entries[i]);
      Places(es[i], entries[i].offsets.pos);
      file' := Patch(file', patch[i] + 16, entries[i].offsets.pos, es, i, 16, e);
    }
    FilledNext(entries, n, n);
  }

  lemma PartlyFits(e: Entry)
    requires e.Fits()
    ensures Partly(e, true, true).Fits() && Partly(e, true, true).Head() == Partly(e, true, false).Head() && e.offsets.pos <= MAX_U64
  {
  }

  // ---------------------------------------------------------------- reading

  lemma HoldsBoth(file: seq<byte>, at: nat, a: seq<byte>, b: seq<byte>)
    requires Holds(file, at, a + b)
    ensures Holds(file, at, a) && Holds(file, at + |a|, b)
  {
    var part := file[at..at + |a + b|];
    assert a == part[..|a|] && b == part[|a|..];
  }

  method Read32(file: seq<byte>, at: nat, ghost v: nat) returns (w: nat)
    requires v <= MAX_U32 && Holds(file, at, Le32(v))
    ensures w == v
  {
    w := Get32(file, at);
    FieldsBack(v);
    var part := file[at..at + 4];
    assert part[0] == file[at] && part[1] == file[at + 1] && part[2] == file[at + 2] && part[3] == file[at + 3];
  }

  method Read64(file: seq<byte>, at: nat, ghost v: nat) returns (w: nat)
    requires v <= MAX_U64 && Holds(file, at, Le64(v))
    ensures w == v
  {
    hide Le32;
    HoldsBoth(file, at, Le32(v % 0x1_0000_0000), Le32(v / 0x1_0000_0000));
    var low := Read32(file, at, v % 0x1_0000_0000);
    var high := Read32(file, at + 4, v / 0x1_0000_0000);
    w := low + 0x1_0000_0000 * high;
  }

  // An entry and where the next one starts. A file of an older format ends
  // before the last field.
  method ReadEntry(file: seq<byte>, at: nat, ghost e: Entry) returns (r: Entry, next: nat)
    requires e.Fits() && Holds(file, at, e.Head() + e.Patched())
    ensures r == e && next == at + |e.Head()| + 36
  {
    hide Le32, Le64, Holds;
    HoldsBoth(file, at, e.Head(), e.Patched());
    var term, df, ttf, p := ReadHead(file, at, e);
    var offsets, ub := ReadPatched(file, p, e);
    r, next := Entry(term, df, ttf, ub, offsets), p + 36;
  }

  method ReadHead(file: seq<byte>, at: nat, ghost e: Entry) returns (term: seq<byte>, df: nat, ttf: nat, p: nat)
    requires e.Fits() && Holds(file, at, e.Head())
    ensures term == e.term && df == e.docFreq && ttf == e.totalTf && p == at + |e.Head()|
  {
    hide Le32, Holds;
    HoldsBoth(file, at, Le32(|e.term|) + e.term, Le32(e.docFreq) + Le32(e.totalTf));
    HoldsBoth(file, at, Le32(|e.term|), e.term);
    var len := Read32(file, at, |e.term|);
    HoldsBoth(file, at + 4 + len, Le32(e.docFreq), Le32(e.totalTf));
    term := Slice(file, at + 4, len, e.term);
    df := Read32(file, at + 4 + len, e.docFreq);
    ttf := Read32(file, at + 8 + len, e.totalTf);
    p := at + 12 + len;
  }

  method Slice(file: seq<byte>, at: nat, n: nat, ghost part: seq<byte>) returns (s: seq<byte>)
    requires Holds(file, at, part) && n == |part|
    ensures s == part
  {
    s := file[at..at + n];
  }

  method ReadPatched(file: seq<byte>, p: nat, ghost e: Entry) returns (o: Offsets, ub: nat)
    requires e.Fits() && Holds(file, p, e.Patched())
    ensures o == e.offsets && ub == e.upperBound
  {
    hide Le32, Le64, Holds;
    var x := e.offsets;
    HoldsBoth(file, p, Le64(x.posting) + Le64(x.skip), Le64(x.pos) + Le32(e.upperBound) + Le64(x.tfData));
    HoldsBoth(file, p, Le64(x.posting), Le64(x.skip));
    HoldsBoth(file, p + 16, Le64(x.pos) + Le32(e.upperBound), Le64(x.tfData));
    HoldsBoth(file, p + 16, Le64(x.pos), Le32(e.upperBound));
    var posting := Read64(file, p, x.posting);
    var skip := Read64(file, p + 8, x.skip);
    var pos := Read64(file, p + 16, x.pos);
    ub := Read32(file, p + 24, e.upperBound);
    var tfData := 0;
    HoldsSome(file, p + 28, Le64(x.tfData));
    if p + 28 < |file| {
      tfData := Read64(file, p + 28, x.tfData);
    }
    o := Offsets(posting, skip, pos, tfData);
  }

  lemma HoldsSome(file: seq<byte>, at: nat, part: seq<byte>)
    requires Holds(file, at, part) && part != []
    ensures at < |file|
  {
  }

  ghost function TotalTf(entries: seq<Entry>): nat {
    if entries == [] then 0 else TotalTf(entries[..|entries| - 1]) + entries[|entries| - 1].totalTf
  }

  // Opening a dictionary: its entries, and the average length of the field as
  // the total of all frequencies over the number of documents.
  method LoadTim(file: seq<byte>, docCount: nat, ghost entries: seq<Entry>) returns (es: seq<Entry>, avgDocLen: real)
    requires EntriesFit(entries) && file == TimBytes(entries)
    ensures es == entries
    ensures avgDocLen == if docCount > 0 then TotalTf(entries) as real / docCount as real else 0.0
  {
    hide Entry.Fits, Entry.Head, Entry.Patched, Body, Le32, Holds;
    HoldsCount(entries);
    var n := Read32(file, 0, |entries|);
    var at, total := 4, 0;
    es := [];
    NoBody(entries, entries);
    for i := 0 to n
      invariant es == entries[..i] && at == 4 + |Body(entries[..i])| && total == TotalTf(entries[..i])
    {
      BodyStep(entries, i);
      HoldsEntry(entries, i);
      var e;
      e, at := ReadEntry(file, at, entries[i]);
      es, total := es + [e], total + e.totalTf;
      assert entries[..i + 1][..i] == entries[..i];
    }
    assert entries[..|entries|] == entries;
    avgDocLen := if docCount > 0 then total as real / docCount as real else 0.0;
  }

  lemma HoldsCount(entries: seq<Entry>)
    requires EntriesFit(entries)
    ensures Holds(TimBytes(entries), 0, Le32(|entries|))
  {
    hide Le32, Body;
  }

  lemma HoldsEntry(entries: seq<Entry>, i: nat)
    requires EntriesFit(entries) && i < |entries|
    ensures entries[i].Fits() && Holds(TimBytes(entries), 4 + |Body(entries[..i])|, entries[i].Head() + entries[i].Patched())
  {
    hide Entry.Fits, Entry.Head, Entry.Patched, Body, Le32;
    assert entries == entries[..i + 1] + entries[i + 1..];
    BodyConcat(entries[..i + 1], entries[i + 1..]);
    BodyStep(entries, i);
    Inside(Le32(|entries|), Body(entries[..i]), entries[i].Head() + entries[i].Patched(), Body(entries[i + 1..]));
  }

  lemma Inside(n: seq<byte>, a: seq<byte>, part: seq<byte>, c: seq<byte>)
    ensures Holds(n + ((a + part) + c), |n| + |a|, part)
  {
  }
}
