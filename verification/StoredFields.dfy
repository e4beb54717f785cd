// Stored fields: a document's fields are serialised, cut into 4084-byte
// pieces, and chained through 4096-byte arena pages.
module StoredFields {
  import opened Bits
  import opened Arena
  import opened MemoryPages

  const STORED_PAGE_SIZE := 4096
  const DATA_SIZE := 4084

  // The k-th piece.
  function Piece(payload: seq<byte>, k: nat): (part: seq<byte>)
    requires DATA_SIZE * k <= |payload|
    ensures |part| <= DATA_SIZE
  {
    payload[DATA_SIZE * k..Min(DATA_SIZE * k + DATA_SIZE, |payload|)]
  }

  function PagesNeeded(n: nat): nat {
    (n + DATA_SIZE - 1) / DATA_SIZE
  }

  ghost predicate StoredPageAt(mem: seq<byte>, at: nat, doc: nat, data: seq<byte>, next: nat) {
    && at + STORED_PAGE_SIZE <= |mem| && |data| <= DATA_SIZE
    && WordsAt(mem, at, [doc, |data|, next])
    && mem[at + 12..at + 12 + |data|] == data
  }

  // The payload lies in these pages, each linked to the one after it.
  ghost predicate StoredPages(mem: seq<byte>, pages: seq<nat>, doc: nat, payload: seq<byte>) {
    && |pages| == PagesNeeded(|payload|)
    && (forall k :: 0 <= k < |pages| ==> StoredPageAt(mem, pages[k], doc, Piece(payload, k), NextOf(pages, k)))
    && (forall k :: 0 <= k < |pages| - 1 ==> pages[k] + STORED_PAGE_SIZE <= pages[k + 1])
  }

  lemma SliceStays(a: seq<byte>, b: seq<byte>, lo: nat, hi: nat)
    requires lo <= hi && SameBytes(a, b, lo, hi)
    ensures b[lo..hi] == a[lo..hi]
  {
  }

  lemma StoredPageStays(a: seq<byte>, b: seq<byte>, at: nat, doc: nat, data: seq<byte>, next: nat)
    requires StoredPageAt(a, at, doc, data, next) && SameBytes(a, b, at, at + STORED_PAGE_SIZE)
    ensures StoredPageAt(b, at, doc, data, next)
  {
  }

  // Rewriting the link leaves the rest of the page.
  lemma StoredPageLinked(a: seq<byte>, b: seq<byte>, at: nat, doc: nat, data: seq<byte>, next: nat, next': nat)
    requires StoredPageAt(a, at, doc, data, next) && at + STORED_PAGE_SIZE <= |b|
    requires SameBytes(a, b, at, at + 8) && SameBytes(a, b, at + 12, at + STORED_PAGE_SIZE) && Get32(b, at + 8) == next'
    ensures StoredPageAt(b, at, doc, data, next')
  {
    var words := [doc, |data|, next];
    assert Get32(a, at + 4 * 0) == words[0] && Get32(a, at + 4 * 1) == words[1];
    SameWord(a, b, at);
    SameWord(a, b, at + 4);
    SliceStays(a, b, at + 12, at + 12 + |data|);
  }

  // ---------------------------------------------------------------- writing

  method NewStoredPage(arena: SegmentArena, doc: nat, data: seq<byte>) returns (at: nat, ok: bool)
    requires arena.Valid() && doc <= MAX_U32 && |data| <= DATA_SIZE
    modifies arena, arena.base
    ensures arena.Valid() && Extends(old(arena.Mem()), arena.Mem()) && at == |old(arena.Mem())|
    ensures ok == (old(arena.offset) + STORED_PAGE_SIZE <= arena.capacity)
    ensures ok ==> StoredPageAt(arena.Mem(), at, doc, data, INVALID_OFFSET) && arena.offset == at + STORED_PAGE_SIZE
  {
    ghost var mem := arena.Mem();
    at, ok := arena.Alloc(STORED_PAGE_SIZE, 4);
    if !ok { return; }
    ghost var grown := arena.Mem();
    PutWords(arena, at, [doc, |data|, INVALID_OFFSET]);
    ghost var headed := arena.Mem();
    arena.PutBytes(at + 12, data);
    WordsStay(headed, arena.Mem(), at, [doc, |data|, INVALID_OFFSET]);
    KeptBelow(mem, grown, headed, arena.Mem(), at);
  }

  // The payload is written page by page. When the arena has room for all the
  // pages, which is checked beforehand, no allocation can fail on the way.
  method WriteStored(arena: SegmentArena, doc: nat, payload: seq<byte>) returns (head: nat, ok: bool, ghost pages: seq<nat>)
    requires arena.Valid() && doc <= MAX_U32
    modifies arena, arena.base
    ensures arena.Valid() && Extends(old(arena.Mem()), arena.Mem())
    ensures ok == (old(arena.offset) + PagesNeeded(|payload|) * STORED_PAGE_SIZE <= arena.capacity)
    ensures ok ==> arena.offset == old(arena.offset) + PagesNeeded(|payload|) * STORED_PAGE_SIZE
    ensures !ok ==> arena.offset == old(arena.offset)
    ensures ok ==> StoredPages(arena.Mem(), pages, doc, payload) && head == (if pages == [] then INVALID_OFFSET else pages[0])
  {
    hide StoredPageAt, PagesNeeded, Piece, Extends;
    head, pages := INVALID_OFFSET, [];
    var prevOff := INVALID_OFFSET;
    ghost var mem := arena.Mem();
    NoPagesNeeded();
    ExtendsSelf(mem);
    if arena.Full(PagesNeeded(|payload|) * STORED_PAGE_SIZE) { return head, false, pages; }
    var i := 0;
    while i < |payload|
      invariant i <= |payload| && i == Min(DATA_SIZE * |pages|, |payload|) && |pages| == PagesNeeded(i)
      invariant arena.Valid() && Extends(mem, arena.Mem())
      invariant arena.offset == |mem| + |pages| * STORED_PAGE_SIZE
      invariant StoredPages(arena.Mem(), pages, doc, payload[..i])
      invariant head == if pages == [] then INVALID_OFFSET else pages[0]
      invariant pages != [] ==> head < INVALID_OFFSET
      invariant prevOff == (if pages == [] then INVALID_OFFSET else pages[|pages| - 1]) && prevOff >= |mem|
    {
      var n := Min(i + DATA_SIZE, |payload|);
      OnePageMoreNeeded(|pages|, n, |payload|);
      ghost var before := arena.Mem();
      var at;
      at, ok := NewStoredPage(arena, doc, payload[i..n]);
      ghost var filled := arena.Mem();
      if head == INVALID_OFFSET {
        head := at;
      } else {
        LastStoredInside(before, pages, doc, payload[..i]);
        arena.Put(prevOff + 8, at);
      }
      StoredGrown(before, filled, arena.Mem(), pages, at, doc, payload, i, n);
      ExtendsTransitive(mem, before, filled);
      ExtendsAbove(mem, filled, arena.Mem());
      prevOff := at;
      pages := pages + [at];
      i := n;
    }
    ok := true;
    assert payload[..i] == payload;
  }

  lemma OnePageMoreNeeded(p: nat, n: nat, total: nat)
    requires DATA_SIZE * p < total && n == Min(DATA_SIZE * p + DATA_SIZE, total)
    ensures PagesNeeded(n) == p + 1 <= PagesNeeded(total)
  {
  }

  lemma NoPagesNeeded()
    ensures PagesNeeded(0) == 0
  {
  }

  lemma LastStoredInside(mem: seq<byte>, pages: seq<nat>, doc: nat, payload: seq<byte>)
    requires StoredPages(mem, pages, doc, payload) && pages != []
    ensures pages[|pages| - 1] + STORED_PAGE_SIZE <= |mem|
  {
  }

  lemma {:induction false} StoredRise(mem: seq<byte>, pages: seq<nat>, doc: nat, payload: seq<byte>, k: nat, l: nat)
    requires StoredPages(mem, pages, doc, payload) && k < l < |pages|
    ensures pages[k] + STORED_PAGE_SIZE <= pages[l]
  {
    if k < l - 1 {
      StoredRise(mem, pages, doc, payload, k, l - 1);
    }
  }

  // Hooking a filled page onto the chain.
  lemma StoredGrown(before: seq<byte>, filled: seq<byte>, after: seq<byte>, pages: seq<nat>, at: nat,
                    doc: nat, payload: seq<byte>, i: nat, n: nat)
    requires i == DATA_SIZE * |pages| < |payload| && n == Min(i + DATA_SIZE, |payload|)
    requires StoredPages(before, pages, doc, payload[..i]) && Extends(before, filled) && at == |before|
    requires StoredPageAt(filled, at, doc, payload[i..n], INVALID_OFFSET) && |after| == |filled|
    requires pages == [] ==> after == filled
    requires pages != [] ==>
               var last := pages[|pages| - 1];
               && last + STORED_PAGE_SIZE <= |before| && Get32(after, last + 8) == at
               && forall k :: 0 <= k < |after| && !(last + 8 <= k < last + 12) ==> after[k] == filled[k]
    ensures StoredPages(after, pages + [at], doc, payload[..n])
  {
    hide StoredPageAt, Extends, SameBytes;
    var more := pages + [at];
    var m := |pages|;
    forall k | 0 <= k < |more|
      ensures StoredPageAt(after, more[k], doc, Piece(payload[..n], k), NextOf(more, k))
    {
      if k < m {
        OldStored(before, filled, after, pages, at, doc, payload, i, k);
        PiecePrefix(payload, i, n, k);
      } else {
        NewStoredStays(filled, after, at, doc, payload[i..n], if pages == [] then at else pages[m - 1] + 8);
        assert Piece(payload[..n], m) == payload[i..n];
      }
    }
    if pages != [] {
      LastStoredInside(before, pages, doc, payload[..i]);
    }
  }

  lemma PiecePrefix(payload: seq<byte>, i: nat, n: nat, k: nat)
    requires DATA_SIZE * (k + 1) <= i <= n <= |payload|
    ensures Piece(payload[..n], k) == Piece(payload[..i], k)
  {
  }

  lemma NewStoredStays(filled: seq<byte>, after: seq<byte>, at: nat, doc: nat, data: seq<byte>, word: nat)
    requires StoredPageAt(filled, at, doc, data, INVALID_OFFSET) && |after| == |filled|
    requires word + 4 <= at || after == filled
    requires forall k :: 0 <= k < |after| && !(word <= k < word + 4) ==> after[k] == filled[k]
    ensures StoredPageAt(after, at, doc, data, INVALID_OFFSET)
  {
  }

  lemma OldStored(before: seq<byte>, filled: seq<byte>, after: seq<byte>, pages: seq<nat>, at: nat,
                  doc: nat, payload: seq<byte>, i: nat, k: nat)
    requires i == DATA_SIZE * |pages| <= |payload| && k < |pages|
    requires StoredPages(before, pages, doc, payload[..i]) && Extends(before, filled) && |after| == |filled|
    requires var last := pages[|pages| - 1];
             && last + STORED_PAGE_SIZE <= |before| && Get32(after, last + 8) == at
             && forall j :: 0 <= j < |after| && !(last + 8 <= j < last + 12) ==> after[j] == filled[j]
    ensures StoredPageAt(after, pages[k], doc, Piece(payload[..i], k), NextOf(pages + [at], k))
  {
    hide Piece, StoredPageAt, Extends;
    assert StoredPageAt(before, pages[k], doc, Piece(payload[..i], k), NextOf(pages, k));
    if k < |pages| - 1 {
      StoredRise(before, pages, doc, payload[..i], k, |pages| - 1);
    }
    StoredHooked(before, filled, after, pages[k], pages[|pages| - 1], at, doc, Piece(payload[..i], k), NextOf(pages, k));
  }

  // A page before the last one, or the last one itself, after the hook.
  lemma StoredHooked(before: seq<byte>, filled: seq<byte>, after: seq<byte>, page: nat, last: nat, at: nat,
                     doc: nat, data: seq<byte>, next: nat)
    requires StoredPageAt(before, page, doc, data, next) && Extends(before, filled) && |after| == |filled|
    requires page == last || page + STORED_PAGE_SIZE <= last
    requires last + STORED_PAGE_SIZE <= |before| && Get32(after, last + 8) == at
    requires forall j :: 0 <= j < |after| && !(last + 8 <= j < last + 12) ==> after[j] == filled[j]
    ensures StoredPageAt(after, page, doc, data, if page == last then at else next)
  {
    PageInside(before, page, doc, data, next);
    StillThere(before, filled, page, STORED_PAGE_SIZE);
    hide WordsAt;
    StoredPageStays(before, filled, page, doc, data, next);
    if page == last {
      StoredPageLinked(filled, after, page, doc, data, next, at);
    } else {
      StoredPageStays(filled, after, page, doc, data, next);
    }
  }

  lemma PageInside(mem: seq<byte>, at: nat, doc: nat, data: seq<byte>, next: nat)
    requires StoredPageAt(mem, at, doc, data, next)
    ensures at + STORED_PAGE_SIZE <= |mem|
  {
  }

  // Later pages leave the chain alone.
  lemma StoredPagesStay(mem: seq<byte>, mem': seq<byte>, pages: seq<nat>, doc: nat, payload: seq<byte>)
    requires StoredPages(mem, pages, doc, payload) && Extends(mem, mem')
    ensures StoredPages(mem', pages, doc, payload)
  {
    hide Extends, Piece;
    forall k | 0 <= k < |pages|
      ensures StoredPageAt(mem', pages[k], doc, Piece(payload, k), NextOf(pages, k))
    {
      StillThere(mem, mem', pages[k], STORED_PAGE_SIZE);
      StoredPageStays(mem, mem', pages[k], doc, Piece(payload, k), NextOf(pages, k));
    }
  }

  // ---------------------------------------------------------------- reading

  method ReadStored(arena: SegmentArena, head: nat, ghost pages: seq<nat>, ghost doc: nat, ghost payload: seq<byte>)
    returns (data: seq<byte>)
    requires arena.Valid() && StoredPages(arena.Mem(), pages, doc, payload)
    requires head == if pages == [] then INVALID_OFFSET else pages[0]
    ensures data == payload
  {
    AllInside(arena.Mem(), pages, doc, payload);
    hide Piece, StoredPageAt;
    data := [];
    var cur := head;
    ghost var k := 0;
    while cur != INVALID_OFFSET
      invariant k <= |pages| && cur == (if k < |pages| then pages[k] else INVALID_OFFSET)
      invariant data == payload[..Min(DATA_SIZE * k, |payload|)]
      decreases |pages| - k
    {
      ghost var part := Piece(payload, k);
      assert StoredPageAt(arena.Mem(), pages[k], doc, part, NextOf(pages, k));
      PieceIs(payload, k);
      var chunk, next := ReadStoredPage(arena, cur, doc, part, NextOf(pages, k));
      data, cur, k := data + chunk, next, k + 1;
    }
  }

  lemma AllInside(mem: seq<byte>, pages: seq<nat>, doc: nat, payload: seq<byte>)
    requires StoredPages(mem, pages, doc, payload)
    ensures forall k :: 0 <= k < |pages| ==> pages[k] + STORED_PAGE_SIZE <= |mem|
  {
    hide Piece, WordsAt;
  }

  method ReadStoredPage(arena: SegmentArena, at: nat, ghost doc: nat, ghost part: seq<byte>, ghost follows: nat)
    returns (chunk: seq<byte>, next: nat)
    requires arena.Valid() && StoredPageAt(arena.Mem(), at, doc, part, follows)
    ensures chunk == part && next == follows
  {
    var words := GetWords(arena, at, 3, [doc, |part|, follows]);
    assert arena.Mem()[at + 12..at + 12 + |part|] == arena.base[at + 12..at + 12 + words[1]];
    return arena.base[at + 12..at + 12 + words[1]], words[2];
  }

  lemma PieceIs(payload: seq<byte>, k: nat)
    requires k < PagesNeeded(|payload|)
    ensures DATA_SIZE * k < |payload|
    ensures |Piece(payload, k)| == Min(|payload| - DATA_SIZE * k, DATA_SIZE)
    ensures payload[..DATA_SIZE * k] + Piece(payload, k) == payload[..Min(DATA_SIZE * (k + 1), |payload|)]
  {
  }

  // ---------------------------------------------------------------- serialising

  datatype Field = Field(name: seq<byte>, value: seq<byte>)

  ghost predicate FieldFits(f: Field) {
    |f.name| <= MAX_U32 && |f.value| <= MAX_U32
  }

  // Fields without a value are not stored.
  ghost function Kept(fields: seq<Field>): seq<Field> {
    if fields == [] then []
    else
      var front, f := Kept(fields[..|fields| - 1]), fields[|fields| - 1];
      if f.value == [] then front else front + [f]
  }

  ghost function FieldBytes(f: Field): (s: seq<byte>)
    requires FieldFits(f)
    ensures |s| == 8 + |f.name| + |f.value|
  {
    Le32(|f.name|) + f.name + Le32(|f.value|) + f.value
  }

  ghost function FieldsBytes(fs: seq<Field>): seq<byte>
    requires forall f :: f in fs ==> FieldFits(f)
  {
    if fs == [] then [] else FieldsBytes(fs[..|fs| - 1]) + FieldBytes(fs[|fs| - 1])
  }

  // The serialised form: a count, then the fields; nothing at all for none.
  ghost function Payload(fs: seq<Field>): seq<byte>
    requires |fs| <= MAX_U32 && forall f :: f in fs ==> FieldFits(f)
  {
    if fs == [] then [] else Le32(|fs|) + FieldsBytes(fs)
  }

  // The fields as a map; of two with one name the later counts.
  ghost function AsMap(fs: seq<Field>): map<seq<byte>, seq<byte>> {
    if fs == [] then map[] else AsMap(fs[..|fs| - 1])[fs[|fs| - 1].name := fs[|fs| - 1].value]
  }

  // A name stands for the value of the last field that has it.
  lemma {:induction false} MapMeans(fs: seq<Field>, name: seq<byte>)
    ensures name in AsMap(fs) <==> exists i :: 0 <= i < |fs| && fs[i].name == name
    ensures forall i :: 0 <= i < |fs| && fs[i].name == name && (forall j :: i < j < |fs| ==> fs[j].name != name) ==>
              name in AsMap(fs) && AsMap(fs)[name] == fs[i].value
  {
    if fs != [] {
      var n := |fs| - 1;
      MapMeans(fs[..n], name);
      assert fs == fs[..n] + [fs[n]];
    }
  }

  lemma {:induction false} KeptFrom(fields: seq<Field>)
    ensures |Kept(fields)| <= |fields|
    ensures forall f :: f in Kept(fields) <==> f in fields && f.value != []
  {
    if fields != [] {
      var front, last := fields[..|fields| - 1], fields[|fields| - 1];
      KeptFrom(front);
      assert fields == front + [last];
    }
  }

  lemma NothingKept()
    ensures Kept([]) == [] && FieldsBytes([]) == []
  {
  }

  // One field more: it is kept if it has a value, and then comes last.
  lemma FieldKept(fields: seq<Field>, i: nat, kept: seq<Field>)
    requires i < |fields| && FieldFits(fields[i]) && kept == Kept(fields[..i]) && forall f :: f in kept ==> FieldFits(f)
    ensures Kept(fields[..i + 1]) == if fields[i].value == [] then kept else kept + [fields[i]]
    ensures var f := fields[i];
            FieldsBytes(kept + [f]) == FieldsBytes(kept) + Le32(|f.name|) + f.name + Le32(|f.value|) + f.value
  {
    var f := fields[i];
    assert fields[..i + 1][..i] == fields[..i];
    assert (kept + [f])[..|kept|] == kept;
    assert FieldsBytes(kept) + FieldBytes(f) == FieldsBytes(kept) + Le32(|f.name|) + f.name + Le32(|f.value|) + f.value;
  }

  // What is stored of a document's fields.
  ghost function DocPayload(fields: seq<Field>): seq<byte>
    requires |fields| <= MAX_U32 && forall f :: f in fields ==> FieldFits(f)
  {
    KeptFrom(fields);
    Payload(Kept(fields))
  }

  method Serialize(fields: seq<Field>) returns (buf: seq<byte>)
    requires |fields| <= MAX_U32 && forall f :: f in fields ==> FieldFits(f)
    ensures buf == DocPayload(fields)
  {
    var fieldsBuf, n := [], 0;
    ghost var kept := [];
    hide Kept, FieldsBytes;
    NothingKept();
    KeptFrom(fields);
    for i := 0 to |fields|
      invariant kept == Kept(fields[..i]) && n == |kept| <= i
      invariant (forall f :: f in kept ==> FieldFits(f)) && fieldsBuf == FieldsBytes(kept)
    {
      var f := fields[i];
      assert f in fields;
      FieldKept(fields, i, kept);
      if f.value != [] {
        fieldsBuf := fieldsBuf + Le32(|f.name|) + f.name + Le32(|f.value|) + f.value;
        kept, n := kept + [f], n + 1;
      }
    }
    assert fields[..|fields|] == fields;
    buf := if n == 0 then [] else Le32(n) + fieldsBuf;
  }

  lemma {:induction false} FieldsPrefix(fs: seq<Field>, i: nat)
    requires i < |fs| && forall f :: f in fs ==> FieldFits(f)
    ensures |FieldsBytes(fs[..i])| + |FieldBytes(fs[i])| <= |FieldsBytes(fs)|
    ensures FieldsBytes(fs)[..|FieldsBytes(fs[..i])|] == FieldsBytes(fs[..i])
    ensures FieldsBytes(fs)[|FieldsBytes(fs[..i])|..|FieldsBytes(fs[..i])| + |FieldBytes(fs[i])|] == FieldBytes(fs[i])
  {
    if i < |fs| - 1 {
      var front := fs[..|fs| - 1];
      assert front[..i] == fs[..i];
      FieldsPrefix(front, i);
    }
  }

  // Where the i-th field's parts stand in the payload.
  lemma FieldInPayload(fs: seq<Field>, i: nat)
    requires i < |fs| <= MAX_U32 && forall f :: f in fs ==> FieldFits(f)
    ensures var s, p, f := Payload(fs), 4 + |FieldsBytes(fs[..i])|, fs[i];
            && p + 8 + |f.name| + |f.value| <= |s|
            && Get32(s, p) == |f.name| && s[p + 4..p + 4 + |f.name|] == f.name
            && Get32(s, p + 4 + |f.name|) == |f.value|
            && s[p + 8 + |f.name|..p + 8 + |f.name| + |f.value|] == f.value
            && |FieldsBytes(fs[..i + 1])| == |FieldsBytes(fs[..i])| + 8 + |f.name| + |f.value|
  {
    hide FieldsBytes, FieldBytes;
    FieldsPrefix(fs, i);
    var lo, hi := |FieldsBytes(fs[..i])|, |FieldsBytes(fs[..i])| + |FieldBytes(fs[i])|;
    Shifted(Le32(|fs|), FieldsBytes(fs), lo, hi);
    PartsOf(Payload(fs), 4 + lo, fs[i]);
    BytesStep(fs, i);
  }

  lemma BytesStep(fs: seq<Field>, i: nat)
    requires i < |fs| && forall f :: f in fs ==> FieldFits(f)
    ensures FieldsBytes(fs[..i + 1]) == FieldsBytes(fs[..i]) + FieldBytes(fs[i])
  {
    assert fs[..i + 1][..i] == fs[..i];
  }

  lemma Shifted(pre: seq<byte>, s: seq<byte>, lo: nat, hi: nat)
    requires lo <= hi <= |s|
    ensures (pre + s)[|pre| + lo..|pre| + hi] == s[lo..hi]
  {
  }

  lemma SliceInside(s: seq<byte>, p: nat, b: seq<byte>, lo: nat, hi: nat)
    requires p + |b| <= |s| && s[p..p + |b|] == b && lo <= hi <= |b|
    ensures s[p + lo..p + hi] == b[lo..hi]
  {
    forall k | 0 <= k < hi - lo
      ensures s[p + lo..p + hi][k] == b[lo..hi][k]
    {
      assert s[p..p + |b|][lo + k] == b[lo + k];
    }
  }

  lemma WordOf(s: seq<byte>, at: nat, v: nat)
    requires v <= MAX_U32 && at + 4 <= |s| && s[at..at + 4] == Le32(v)
    ensures Get32(s, at) == v
  {
    FieldsBack(v);
    var w := s[at..at + 4];
    assert w[0] == s[at] && w[1] == s[at + 1] && w[2] == s[at + 2] && w[3] == s[at + 3];
  }

  lemma PartsOf(s: seq<byte>, p: nat, f: Field)
    requires FieldFits(f) && p + |FieldBytes(f)| <= |s| && s[p..p + |FieldBytes(f)|] == FieldBytes(f)
    ensures Get32(s, p) == |f.name| && s[p + 4..p + 4 + |f.name|] == f.name
    ensures Get32(s, p + 4 + |f.name|) == |f.value|
    ensures s[p + 8 + |f.name|..p + 8 + |f.name| + |f.value|] == f.value
  {
    hide Get32;
    var b, n := FieldBytes(f), |f.name|;
    assert b[0..4] == Le32(n) && b[4..4 + n] == f.name && b[4 + n..8 + n] == Le32(|f.value|) && b[8 + n..8 + n + |f.value|] == f.value;
    SliceInside(s, p, b, 0, 4);
    SliceInside(s, p, b, 4, 4 + n);
    SliceInside(s, p, b, 4 + n, 8 + n);
    SliceInside(s, p, b, 8 + n, 8 + n + |f.value|);
    WordOf(s, p, n);
    WordOf(s, p + 4 + n, |f.value|);
  }

  // Reading back: stop at the first part that would run over the end.
  method Parse(payload: seq<byte>, ghost fs: seq<Field>) returns (m: map<seq<byte>, seq<byte>>)
    requires |fs| <= MAX_U32 && (forall f :: f in fs ==> FieldFits(f)) && payload == Payload(fs)
    ensures m == AsMap(fs)
  {
    hide FieldsBytes, FieldBytes;
    m := map[];
    if |payload| < 4 {
      CountIn(fs);
      return;
    }
    CountIn(fs);
    var n := Get32(payload, 0);
    var p, end := 4, |payload|;
    var i := 0;
    assert p == 4 + |FieldsBytes(fs[..0])| by { NoBytes(fs); }
    while i < n && p + 8 <= end
      invariant i <= n == |fs| && p == 4 + |FieldsBytes(fs[..i])| && m == AsMap(fs[..i])
    {
      FieldInPayload(fs, i);
      assert fs[..i + 1][..i] == fs[..i];
      var nameLen := Get32(payload, p);
      p := p + 4;
      if p + nameLen > end { break; }
      var name := payload[p..p + nameLen];
      p := p + nameLen;
      if p + 4 > end { break; }
      var valLen := Get32(payload, p);
      p := p + 4;
      if p + valLen > end { break; }
      m := m[name := payload[p..p + valLen]];
      p := p + valLen;
      i := i + 1;
    }
    if i < n {
      FieldInPayload(fs, i);
    }
    assert fs[..|fs|] == fs;
  }

  lemma NoBytes(fs: seq<Field>)
    ensures FieldsBytes(fs[..0]) == []
  {
  }

  lemma CountIn(fs: seq<Field>)
    requires |fs| <= MAX_U32 && forall f :: f in fs ==> FieldFits(f)
    ensures |Payload(fs)| < 4 ==> fs == []
    ensures |Payload(fs)| >= 4 ==> Get32(Payload(fs), 0) == |fs|
  {
    FieldsBack(|fs|);
  }

  // A document's stored fields into the arena; nothing is stored when no
  // field has a value, and an arena without room refuses without a trace.
  method StoreFields(arena: SegmentArena, doc: nat, fields: seq<Field>) returns (head: nat, ok: bool, ghost pages: seq<nat>)
    requires arena.Valid() && doc <= MAX_U32
    requires |fields| <= MAX_U32 && forall f :: f in fields ==> FieldFits(f)
    modifies arena, arena.base
    ensures arena.Valid() && Extends(old(arena.Mem()), arena.Mem())
    ensures var size := PagesNeeded(|DocPayload(fields)|) * STORED_PAGE_SIZE;
            && ok == (old(arena.offset) + size <= arena.capacity)
            && arena.offset == old(arena.offset) + if ok then size else 0
    ensures ok ==> Stored(arena.Mem(), head, pages, doc, fields)
  {
    hide Payload, StoredPages;
    KeptFrom(fields);
    var buf := Serialize(fields);
    head, ok, pages := WriteStored(arena, doc, buf);
  }

  // The document's fields stand in the chain that starts at head.
  ghost predicate Stored(mem: seq<byte>, head: nat, pages: seq<nat>, doc: nat, fields: seq<Field>) {
    && |Kept(fields)| <= MAX_U32 && (forall f :: f in Kept(fields) ==> FieldFits(f))
    && StoredPages(mem, pages, doc, Payload(Kept(fields)))
    && head == if pages == [] then INVALID_OFFSET else pages[0]
  }

  // Reading a document back gives exactly its fields that have a value.
  method ReadFields(arena: SegmentArena, head: nat, ghost pages: seq<nat>, ghost doc: nat, ghost fields: seq<Field>)
    returns (m: map<seq<byte>, seq<byte>>)
    requires arena.Valid() && Stored(arena.Mem(), head, pages, doc, fields)
    ensures m == AsMap(Kept(fields))
  {
    hide StoredPages, Payload, AsMap, Kept;
    if head == INVALID_OFFSET {
      NothingStored(arena.Mem(), head, pages, doc, fields);
      return map[];
    }
    var payload := ReadStored(arena, head, pages, doc, Payload(Kept(fields)));
    m := Parse(payload, Kept(fields));
  }

  lemma FirstInside(mem: seq<byte>, pages: seq<nat>, doc: nat, payload: seq<byte>)
    requires StoredPages(mem, pages, doc, payload)
    ensures pages != [] ==> pages[0] < |mem|
  {
  }

  lemma NothingStored(mem: seq<byte>, head: nat, pages: seq<nat>, doc: nat, fields: seq<Field>)
    requires Stored(mem, head, pages, doc, fields) && head == INVALID_OFFSET && |mem| <= INVALID_OFFSET
    ensures AsMap(Kept(fields)) == map[]
  {
    FirstInside(mem, pages, doc, Payload(Kept(fields)));
    assert PagesNeeded(|Payload(Kept(fields))|) == 0;
  }
}
