// Pages in the arena: position chains, posting chains and stored-field
// chains, linked by offsets.
module MemoryPages {
  import opened Bits
  import opened Arena

  const TERM_PAGE_SIZE := 24
  const POS_PAGE_SIZE := 32
  const INLINE_POS_LIMIT := 3
  const POS_PER_PAGE := 7

  ghost predicate Words(xs: seq<nat>) {
    forall i :: 0 <= i < |xs| ==> xs[i] <= MAX_U32
  }

  // The bytes of [lo, hi) are the same in both.
  ghost predicate SameBytes(a: seq<byte>, b: seq<byte>, lo: nat, hi: nat) {
    hi <= |a| && hi <= |b| && forall k :: lo <= k < hi ==> b[k] == a[k]
  }

  // The words of `part` stand one after the other from `at` on.
  ghost predicate WordsAt(mem: seq<byte>, at: nat, part: seq<nat>) {
    at + 4 * |part| <= |mem| && forall j :: 0 <= j < |part| ==> Get32(mem, at + 4 * j) == part[j]
  }

  lemma WordsStay(a: seq<byte>, b: seq<byte>, at: nat, part: seq<nat>)
    requires WordsAt(a, at, part) && SameBytes(a, b, at, at + 4 * |part|)
    ensures WordsAt(b, at, part)
  {
  }

  // Write words one after the other.
  method PutWords(arena: SegmentArena, at: nat, part: seq<nat>)
    requires arena.Valid() && at + 4 * |part| <= arena.offset && Words(part)
    modifies arena.base
    ensures arena.Valid() && |arena.Mem()| == |old(arena.Mem())|
    ensures WordsAt(arena.Mem(), at, part)
    ensures SameBytes(old(arena.Mem()), arena.Mem(), 0, at)
    ensures SameBytes(old(arena.Mem()), arena.Mem(), at + 4 * |part|, arena.offset)
  {
    for i := 0 to |part|
      invariant arena.Valid() && |arena.Mem()| == |old(arena.Mem())|
      invariant WordsAt(arena.Mem(), at, part[..i])
      invariant SameBytes(old(arena.Mem()), arena.Mem(), 0, at)
      invariant SameBytes(old(arena.Mem()), arena.Mem(), at + 4 * |part|, arena.offset)
    {
      ghost var before := arena.Mem();
      arena.Put(at + 4 * i, part[i]);
      WordsStay(before, arena.Mem(), at, part[..i]);
      assert part[..i + 1] == part[..i] + [part[i]];
    }
    assert part[..|part|] == part;
  }

  // ---------------------------------------------------------------- positions

  // The k-th run of seven.
  function Run(ps: seq<nat>, k: nat): (part: seq<nat>)
    requires POS_PER_PAGE * k <= |ps|
    ensures |part| <= POS_PER_PAGE
  {
    ps[POS_PER_PAGE * k..Min(POS_PER_PAGE * k + POS_PER_PAGE, |ps|)]
  }

  function PageCount(n: nat): nat {
    (n + POS_PER_PAGE - 1) / POS_PER_PAGE
  }

  // What n positions take beside their term page: nothing up to 3.
  function PositionBytes(n: nat): nat {
    if n <= INLINE_POS_LIMIT then 0 else POS_PAGE_SIZE * PageCount(n)
  }

  function PostingBytes(n: nat): nat {
    TERM_PAGE_SIZE + PositionBytes(n)
  }

  function NextOf(pages: seq<nat>, k: nat): nat {
    if k + 1 < |pages| then pages[k + 1] else INVALID_OFFSET
  }

  ghost predicate PosPageAt(mem: seq<byte>, at: nat, part: seq<nat>, next: nat) {
    at + POS_PAGE_SIZE <= |mem| && |part| <= POS_PER_PAGE && WordsAt(mem, at, part) && Get32(mem, at + 28) == next
  }

  // The positions ps lie in these pages, seven to a page, each page linked to
  // the one after it.
  ghost predicate PosPages(mem: seq<byte>, pages: seq<nat>, ps: seq<nat>) {
    && |pages| == PageCount(|ps|)
    && (forall k :: 0 <= k < |pages| ==> PosPageAt(mem, pages[k], Run(ps, k), NextOf(pages, k)))
    && (forall k :: 0 <= k < |pages| - 1 ==> pages[k] + POS_PAGE_SIZE <= pages[k + 1])
  }

  lemma PosPageStays(a: seq<byte>, b: seq<byte>, at: nat, part: seq<nat>, next: nat)
    requires PosPageAt(a, at, part, next) && SameBytes(a, b, at, at + POS_PAGE_SIZE)
    ensures PosPageAt(b, at, part, next)
  {
  }

  // A page that is linked to the next one keeps its positions.
  lemma PosPageLinked(a: seq<byte>, b: seq<byte>, at: nat, part: seq<nat>, next: nat)
    requires PosPageAt(a, at, part, next) && SameBytes(a, b, at, at + 28) && at + POS_PAGE_SIZE <= |b|
    ensures PosPageAt(b, at, part, Get32(b, at + 28))
  {
  }

  // A new page, filled and not linked to anything yet.
  method NewPosPage(arena: SegmentArena, part: seq<nat>) returns (at: nat, ok: bool)
    requires arena.Valid() && |part| <= POS_PER_PAGE && Words(part)
    modifies arena, arena.base
    ensures arena.Valid() && Extends(old(arena.Mem()), arena.Mem()) && at == |old(arena.Mem())|
    ensures ok == (at + POS_PAGE_SIZE <= arena.capacity)
    ensures ok ==> PosPageAt(arena.Mem(), at, part, INVALID_OFFSET) && arena.offset == at + POS_PAGE_SIZE
  {
    ghost var mem := arena.Mem();
    at, ok := arena.Alloc(POS_PAGE_SIZE, 4);
    if !ok { return; }
    ghost var grown := arena.Mem();
    arena.Put(at + 28, INVALID_OFFSET);
    ghost var linked := arena.Mem();
    PutWords(arena, at, part);
    SameWord(linked, arena.Mem(), at + 28);
    ExtendsAbove(mem, grown, arena.Mem());
  }

  // Positions are written page by page; each new page is hooked onto the one
  // before it.
  method WritePosChain(arena: SegmentArena, positions: seq<nat>) returns (head: nat, ok: bool, ghost pages: seq<nat>)
    requires arena.Valid() && Words(positions)
    modifies arena, arena.base
    ensures arena.Valid() && Extends(old(arena.Mem()), arena.Mem())
    ensures ok == (old(arena.offset) + POS_PAGE_SIZE * PageCount(|positions|) <= arena.capacity)
    ensures ok ==> arena.offset == old(arena.offset) + POS_PAGE_SIZE * PageCount(|positions|)
    ensures ok ==> PosPages(arena.Mem(), pages, positions) && head == (if pages == [] then INVALID_OFFSET else pages[0])
    ensures ok ==> forall k :: 0 <= k < |pages| ==> pages[k] >= |old(arena.Mem())|
  {
    hide PosPageAt, PosPages, PageCount, Run, Extends, Get32;
    head, pages := INVALID_OFFSET, [];
    var prevOff := INVALID_OFFSET;
    ghost var mem := arena.Mem();
    var i := 0;
    NoPages(mem);
    ExtendsSelf(mem);
    while i < |positions|
      invariant i <= |positions| && i == Min(POS_PER_PAGE * |pages|, |positions|) && |pages| == PageCount(i)
      invariant arena.Valid() && Extends(mem, arena.Mem())
      invariant arena.offset == |mem| + POS_PAGE_SIZE * |pages|
      invariant PosPages(arena.Mem(), pages, positions[..i])
      invariant head == if pages == [] then INVALID_OFFSET else pages[0]
      invariant pages != [] ==> head < INVALID_OFFSET
      invariant prevOff == if pages == [] then INVALID_OFFSET else pages[|pages| - 1]
      invariant forall k :: 0 <= k < |pages| ==> pages[k] >= |mem|
    {
      var n := Min(i + POS_PER_PAGE, |positions|);
      OnePageMore(|pages|, n, |positions|);
      ghost var before := arena.Mem();
      var at;
      at, ok := NewPosPage(arena, positions[i..n]);
      if !ok {
        ExtendsTransitive(mem, before, arena.Mem());
        return;
      }
      ghost var filled := arena.Mem();
      if head == INVALID_OFFSET {
        head := at;
      } else {
        LastPageInside(before, pages, positions[..i]);
        arena.Put(prevOff + 28, at);
      }
      ChainGrown(before, filled, arena.Mem(), pages, at, positions, i, n);
      ExtendsTransitive(mem, before, filled);
      ExtendsAbove(mem, filled, arena.Mem());
      prevOff := at;
      pages := pages + [at];
      i := n;
    }
    ok := true;
    assert positions[..i] == positions;
  }

  lemma OnePageMore(p: nat, n: nat, total: nat)
    requires POS_PER_PAGE * p < total && n == Min(POS_PER_PAGE * p + POS_PER_PAGE, total)
    ensures PageCount(n) == p + 1 <= PageCount(total)
  {
  }

  lemma NoPages(mem: seq<byte>)
    ensures PageCount(0) == 0 && PosPages(mem, [], [])
  {
  }

  lemma LastPageInside(mem: seq<byte>, pages: seq<nat>, ps: seq<nat>)
    requires PosPages(mem, pages, ps) && pages != []
    ensures pages[|pages| - 1] + POS_PAGE_SIZE <= |mem|
  {
  }

  // Hooking a filled page onto a chain.
  lemma ChainGrown(before: seq<byte>, filled: seq<byte>, after: seq<byte>, pages: seq<nat>, at: nat,
                   ps: seq<nat>, i: nat, n: nat)
    requires i == POS_PER_PAGE * |pages| < |ps| && n == Min(i + POS_PER_PAGE, |ps|)
    requires PosPages(before, pages, ps[..i]) && Extends(before, filled) && at == |before|
    requires PosPageAt(filled, at, ps[i..n], INVALID_OFFSET) && |after| == |filled|
    requires pages == [] ==> after == filled
    requires pages != [] ==>
               var last := pages[|pages| - 1];
               && last + POS_PAGE_SIZE <= |before| && Get32(after, last + 28) == at
               && forall k :: 0 <= k < |after| && !(last + 28 <= k < last + 32) ==> after[k] == filled[k]
    ensures PosPages(after, pages + [at], ps[..n])
  {
    hide PosPageAt, Extends, SameBytes;
    var more := pages + [at];
    var m := |pages|;
    forall k | 0 <= k < |more|
      ensures PosPageAt(after, more[k], Run(ps[..n], k), NextOf(more, k))
    {
      if k < m {
        OldPage(before, filled, after, pages, at, ps, i, k);
        RunPrefix(ps, i, n, k);
      } else {
        NewPageStays(filled, after, at, ps[i..n], if pages == [] then at else pages[m - 1] + 28);
        assert Run(ps[..n], m) == ps[i..n];
      }
    }
    if pages != [] {
      LastPageInside(before, pages, ps[..i]);
    }
  }

  lemma RunPrefix(ps: seq<nat>, i: nat, n: nat, k: nat)
    requires POS_PER_PAGE * (k + 1) <= i <= n <= |ps|
    ensures Run(ps[..n], k) == Run(ps[..i], k)
  {
  }

  lemma NewPageStays(filled: seq<byte>, after: seq<byte>, at: nat, part: seq<nat>, word: nat)
    requires PosPageAt(filled, at, part, INVALID_OFFSET) && |after| == |filled|
    requires word + 4 <= at || after == filled
    requires forall k :: 0 <= k < |after| && !(word <= k < word + 4) ==> after[k] == filled[k]
    ensures PosPageAt(after, at, part, INVALID_OFFSET)
  {
  }

  // A page of the chain after the hook: the last one leads to the new page,
  // the others are as before.
  lemma OldPage(before: seq<byte>, filled: seq<byte>, after: seq<byte>, pages: seq<nat>, at: nat, ps: seq<nat>, i: nat, k: nat)
    requires i == POS_PER_PAGE * |pages| <= |ps| && k < |pages|
    requires PosPages(before, pages, ps[..i]) && Extends(before, filled) && |after| == |filled|
    requires var last := pages[|pages| - 1];
             && last + POS_PAGE_SIZE <= |before| && Get32(after, last + 28) == at
             && forall j :: 0 <= j < |after| && !(last + 28 <= j < last + 32) ==> after[j] == filled[j]
    ensures PosPageAt(after, pages[k], Run(ps[..i], k), NextOf(pages + [at], k))
  {
    hide Run, PosPageAt, Extends;
    assert PosPageAt(before, pages[k], Run(ps[..i], k), NextOf(pages, k));
    if k < |pages| - 1 {
      PagesRise(before, pages, ps[..i], k, |pages| - 1);
    }
    PageHooked(before, filled, after, pages[k], pages[|pages| - 1], at, Run(ps[..i], k), NextOf(pages, k));
  }

  // A page before the last one, or the last one itself, after the hook.
  lemma PageHooked(before: seq<byte>, filled: seq<byte>, after: seq<byte>, page: nat, last: nat, at: nat, part: seq<nat>, next: nat)
    requires PosPageAt(before, page, part, next) && Extends(before, filled) && |after| == |filled|
    requires page == last || page + POS_PAGE_SIZE <= last
    requires last + POS_PAGE_SIZE <= |before| && Get32(after, last + 28) == at
    requires forall j :: 0 <= j < |after| && !(last + 28 <= j < last + 32) ==> after[j] == filled[j]
    ensures PosPageAt(after, page, part, if page == last then at else next)
  {
    hide WordsAt;
    StillThere(before, filled, page, POS_PAGE_SIZE);
    PosPageStays(before, filled, page, part, next);
    if page == last {
      PosPageLinked(filled, after, page, part, next);
    } else {
      PosPageStays(filled, after, page, part, next);
    }
  }

  lemma StillThere(mem: seq<byte>, mem': seq<byte>, at: nat, size: nat)
    requires Extends(mem, mem') && at + size <= |mem|
    ensures SameBytes(mem, mem', at, at + size)
  {
  }

  lemma {:induction false} PagesRise(mem: seq<byte>, pages: seq<nat>, ps: seq<nat>, k: nat, l: nat)
    requires PosPages(mem, pages, ps) && k < l < |pages|
    ensures pages[k] + POS_PAGE_SIZE <= pages[l]
  {
    if k < l - 1 {
      PagesRise(mem, pages, ps, k, l - 1);
    }
  }

  lemma PosPagesStay(mem: seq<byte>, mem': seq<byte>, pages: seq<nat>, ps: seq<nat>)
    requires PosPages(mem, pages, ps) && Extends(mem, mem')
    ensures PosPages(mem', pages, ps)
  {
    hide Extends, Run;
    forall k | 0 <= k < |pages|
      ensures PosPageAt(mem', pages[k], Run(ps, k), NextOf(pages, k))
    {
      StillThere(mem, mem', pages[k], POS_PAGE_SIZE);
      PosPageStays(mem, mem', pages[k], Run(ps, k), NextOf(pages, k));
    }
  }

  // Walk a position chain and collect tf positions.
  method ReadPosChain(arena: SegmentArena, head: nat, tf: nat, ghost pages: seq<nat>, ghost ps: seq<nat>) returns (positions: seq<nat>)
    requires arena.Valid() && PosPages(arena.Mem(), pages, ps) && |ps| == tf
    requires head == if pages == [] then INVALID_OFFSET else pages[0]
    ensures positions == ps
  {
    hide Run;
    positions := [];
    var pp := head;
    ghost var k := 0;
    while pp != INVALID_OFFSET
      invariant k <= |pages| && pp == (if k < |pages| then pages[k] else INVALID_OFFSET)
      invariant positions == ps[..Min(POS_PER_PAGE * k, |ps|)]
      decreases |pages| - k
    {
      assert PosPageAt(arena.Mem(), pages[k], Run(ps, k), NextOf(pages, k));
      RunIs(ps, k);
      var n := Min(tf - |positions|, POS_PER_PAGE);
      var part := GetWords(arena, pp, n, Run(ps, k));
      positions := positions + part;
      pp := arena.Word(pp + 28);
      k := k + 1;
    }
  }

  lemma RunIs(ps: seq<nat>, k: nat)
    requires k < PageCount(|ps|)
    ensures POS_PER_PAGE * k < |ps|
    ensures |Run(ps, k)| == Min(|ps| - POS_PER_PAGE * k, POS_PER_PAGE)
    ensures ps[..POS_PER_PAGE * k] + Run(ps, k) == ps[..Min(POS_PER_PAGE * (k + 1), |ps|)]
  {
  }

  method GetWords(arena: SegmentArena, at: nat, n: nat, ghost part: seq<nat>) returns (words: seq<nat>)
    requires arena.Valid() && WordsAt(arena.Mem(), at, part) && n == |part|
    ensures words == part
  {
    words := [];
    for i := 0 to n
      invariant words == part[..i]
    {
      var w := arena.Word(at + 4 * i);
      assert w == Get32(arena.Mem(), at + 4 * i) == part[i];
      words := words + [w];
    }
  }

  // ---------------------------------------------------------------- postings

  datatype Posting = Posting(doc: nat, positions: seq<nat>)

  ghost predicate EntryFits(p: Posting) {
    p.doc <= MAX_U32 && |p.positions| <= MAX_U32 && Words(p.positions)
  }

  // Up to three positions stand in the page itself, more in a chain.
  ghost predicate PositionsAt(mem: seq<byte>, at: nat, ps: seq<nat>) {
    if |ps| <= INLINE_POS_LIMIT then WordsAt(mem, at, ps)
    else exists pages: seq<nat> :: PosPages(mem, pages, ps) && pages != [] && WordsAt(mem, at, [pages[0]])
  }

  ghost predicate TermPageAt(mem: seq<byte>, at: nat, p: Posting, next: nat) {
    at + TERM_PAGE_SIZE <= |mem| && WordsAt(mem, at, [p.doc, |p.positions|, next]) && PositionsAt(mem, at + 12, p.positions)
  }

  // The chain of postings that starts at head, newest first. Links lead
  // downwards only, so no chain runs in a circle.
  ghost predicate Chain(mem: seq<byte>, head: nat, ps: seq<Posting>)
    decreases |ps|
  {
    if ps == [] then head == INVALID_OFFSET
    else
      && head + TERM_PAGE_SIZE <= |mem| && head != INVALID_OFFSET
      && var next := Get32(mem, head + 8);
         TermPageAt(mem, head, ps[0], next) && (next == INVALID_OFFSET || next < head) && Chain(mem, next, ps[1..])
  }

  lemma PositionsStay(mem: seq<byte>, mem': seq<byte>, at: nat, ps: seq<nat>)
    requires PositionsAt(mem, at, ps) && Extends(mem, mem')
    ensures PositionsAt(mem', at, ps)
  {
    hide Extends, PosPages;
    if |ps| <= INLINE_POS_LIMIT {
      StillThere(mem, mem', at, 4 * |ps|);
      WordsStay(mem, mem', at, ps);
    } else {
      var pages: seq<nat> :| PosPages(mem, pages, ps) && pages != [] && WordsAt(mem, at, [pages[0]]);
      PosPagesStay(mem, mem', pages, ps);
      StillThere(mem, mem', at, 4);
      WordsStay(mem, mem', at, [pages[0]]);
    }
  }

  // Pages written later do not change a chain.
  lemma {:induction false} ChainStays(mem: seq<byte>, mem': seq<byte>, head: nat, ps: seq<Posting>)
    requires Chain(mem, head, ps) && Extends(mem, mem')
    ensures Chain(mem', head, ps)
    decreases |ps|
  {
    hide PositionsAt, WordsAt;
    if ps != [] {
      var next := Get32(mem, head + 8);
      WordStays(mem, mem', head + 8);
      StillThere(mem, mem', head, 12);
      WordsStay(mem, mem', head, [ps[0].doc, |ps[0].positions|, next]);
      PositionsStay(mem, mem', head + 12, ps[0].positions);
      ChainStays(mem, mem', next, ps[1..]);
    }
  }

  lemma PosPagesAbove(a: seq<byte>, b: seq<byte>, lo: nat, pages: seq<nat>, ps: seq<nat>)
    requires PosPages(a, pages, ps) && |b| == |a| && lo <= |a| && SameBytes(a, b, lo, |a|)
    requires forall k :: 0 <= k < |pages| ==> pages[k] >= lo
    ensures PosPages(b, pages, ps)
  {
    hide Run;
    forall k | 0 <= k < |pages|
      ensures PosPageAt(b, pages[k], Run(ps, k), NextOf(pages, k))
    {
      assert PosPageAt(a, pages[k], Run(ps, k), NextOf(pages, k));
      PosPageStays(a, b, pages[k], Run(ps, k), NextOf(pages, k));
    }
  }

  // The positions of a posting, in the page or in a chain of their own.
  method WritePositions(arena: SegmentArena, at: nat, ps: seq<nat>) returns (ok: bool)
    requires arena.Valid() && at + 12 == |arena.Mem()| && Words(ps)
    modifies arena, arena.base
    ensures arena.Valid() && |arena.Mem()| >= |old(arena.Mem())| && SameBytes(old(arena.Mem()), arena.Mem(), 0, at)
    ensures ok == (old(arena.offset) + PositionBytes(|ps|) <= arena.capacity)
    ensures ok ==> arena.offset == old(arena.offset) + PositionBytes(|ps|)
    ensures ok ==> PositionsAt(arena.Mem(), at, ps)
  {
    hide PosPages, WordsAt, PageCount;
    if |ps| <= INLINE_POS_LIMIT {
      PutWords(arena, at, ps);
      return true;
    }
    ghost var mem := arena.Mem();
    var head;
    ghost var pages;
    head, ok, pages := WritePosChain(arena, ps);
    StillThere(mem, arena.Mem(), 0, at);
    if !ok { return; }
    ghost var chained := arena.Mem();
    HasPages(chained, pages, ps);
    PutWords(arena, at, [head]);
    PosPagesAbove(chained, arena.Mem(), at + 4, pages, ps);
  }

  lemma HasPages(mem: seq<byte>, pages: seq<nat>, ps: seq<nat>)
    requires PosPages(mem, pages, ps) && |ps| > INLINE_POS_LIMIT
    ensures pages != [] && pages[0] <= |mem|
  {
  }

  // One posting more: a new page in front of the chain.
  method WritePosting(arena: SegmentArena, p: Posting, next: nat, ghost older: seq<Posting>) returns (at: nat, ok: bool)
    requires arena.Valid() && Chain(arena.Mem(), next, older)
    requires p.doc <= MAX_U32 && Words(p.positions) && |p.positions| <= MAX_U32
    modifies arena, arena.base
    ensures arena.Valid() && Extends(old(arena.Mem()), arena.Mem()) && at == |old(arena.Mem())|
    ensures ok == (at + PostingBytes(|p.positions|) <= arena.capacity)
    ensures ok ==> arena.offset == at + PostingBytes(|p.positions|)
    ensures ok ==> Chain(arena.Mem(), at, [p] + older)
  {
    hide PositionsAt, WordsAt, Chain, Extends, PositionBytes;
    ghost var mem := arena.Mem();
    ChainHead(mem, next, older);
    at, ok := arena.Alloc(TERM_PAGE_SIZE, 4);
    if !ok { return; }
    ghost var grown := arena.Mem();
    PutWords(arena, at, [p.doc, |p.positions|, next]);
    ghost var headed := arena.Mem();
    ok := WritePositions(arena, at + 12, p.positions);
    KeptBelow(mem, grown, headed, arena.Mem(), at);
    if ok {
      WordsStay(headed, arena.Mem(), at, [p.doc, |p.positions|, next]);
      Prepended(mem, arena.Mem(), at, p, next, older);
    }
  }

  lemma KeptBelow(mem: seq<byte>, a: seq<byte>, b: seq<byte>, c: seq<byte>, at: nat)
    requires Extends(mem, a) && at == |mem| && |a| == |b| && |b| <= |c|
    requires SameBytes(a, b, 0, at) && SameBytes(b, c, 0, at)
    ensures Extends(mem, c)
  {
  }

  lemma ChainHead(mem: seq<byte>, head: nat, ps: seq<Posting>)
    requires Chain(mem, head, ps) && |mem| <= INVALID_OFFSET
    ensures head <= MAX_U32 && (head == INVALID_OFFSET || head < |mem|)
  {
  }

  lemma Prepended(mem: seq<byte>, mem': seq<byte>, at: nat, p: Posting, next: nat, older: seq<Posting>)
    requires Chain(mem, next, older) && Extends(mem, mem') && at == |mem| <= INVALID_OFFSET
    requires at + TERM_PAGE_SIZE <= |mem'| && at != INVALID_OFFSET && TermPageAt(mem', at, p, next)
    ensures Chain(mem', at, [p] + older)
  {
    hide PositionsAt, Extends;
    ChainStays(mem, mem', next, older);
    ChainHead(mem, next, older);
    assert ([p] + older)[1..] == older;
    assert Get32(mem', at + 4 * 2) == [p.doc, |p.positions|, next][2];
  }

  // Walk a chain and collect its postings, as flushing does.
  method ReadChain(arena: SegmentArena, head: nat, ghost ps: seq<Posting>) returns (entries: seq<Posting>)
    requires arena.Valid() && Chain(arena.Mem(), head, ps)
    ensures entries == ps && forall p :: p in entries ==> EntryFits(p)
  {
    hide PositionsAt, Chain, Get32, EntryFits;
    entries := [];
    var cur := head;
    ghost var left := ps;
    while cur != INVALID_OFFSET
      invariant Chain(arena.Mem(), cur, left) && entries + left == ps
      decreases |left|
    {
      ghost var next := ChainStep(arena.Mem(), cur, left);
      var words := GetWords(arena, cur, 3, [left[0].doc, |left[0].positions|, next]);
      var positions := ReadPositions(arena, cur + 12, words[1], left[0].positions);
      assert Posting(words[0], positions) == left[0];
      assert (entries + [left[0]]) + left[1..] == entries + left;
      entries := entries + [Posting(words[0], positions)];
      cur, left := words[2], left[1..];
    }
    ChainEnds(arena.Mem(), left);
    ChainFits(arena.Mem(), head, ps);
  }

  // What stands in pages fits 32-bit fields.
  lemma {:induction false} ChainFits(mem: seq<byte>, head: nat, ps: seq<Posting>)
    requires Chain(mem, head, ps)
    ensures forall p :: p in ps ==> EntryFits(p)
    decreases |ps|
  {
    hide Get32;
    if ps != [] {
      var next := Get32(mem, head + 8);
      WordsFit(mem, head, [ps[0].doc, |ps[0].positions|, next]);
      PositionsWords(mem, head + 12, ps[0].positions);
      assert ps == [ps[0]] + ps[1..];
      assert EntryFits(ps[0]) by {
        assert [ps[0].doc, |ps[0].positions|, next][0] == ps[0].doc && [ps[0].doc, |ps[0].positions|, next][1] == |ps[0].positions|;
      }
      ChainFits(mem, next, ps[1..]);
    }
  }

  lemma WordsFit(mem: seq<byte>, at: nat, part: seq<nat>)
    requires WordsAt(mem, at, part)
    ensures Words(part)
  {
  }

  lemma PositionsWords(mem: seq<byte>, at: nat, ps: seq<nat>)
    requires PositionsAt(mem, at, ps)
    ensures Words(ps)
  {
    hide WordsAt, Get32, Run, PosPageAt;
    if |ps| <= INLINE_POS_LIMIT {
      WordsFit(mem, at, ps);
    } else {
      var pages: seq<nat> :| PosPages(mem, pages, ps) && pages != [] && WordsAt(mem, at, [pages[0]]);
      forall j | 0 <= j < |ps|
        ensures ps[j] <= MAX_U32
      {
        var k := j / POS_PER_PAGE;
        OnPage(ps, j);
        assert PosPageAt(mem, pages[k], Run(ps, k), NextOf(pages, k));
        PageWords(mem, pages[k], Run(ps, k), NextOf(pages, k));
      }
    }
  }

  lemma PageWords(mem: seq<byte>, at: nat, part: seq<nat>, next: nat)
    requires PosPageAt(mem, at, part, next)
    ensures forall w :: w in part ==> w <= MAX_U32
  {
    hide WordsAt, Get32;
    WordsFit(mem, at, part);
  }

  // The page a position is on.
  lemma OnPage(ps: seq<nat>, j: nat)
    requires j < |ps|
    ensures var k := j / POS_PER_PAGE;
            k < PageCount(|ps|) && POS_PER_PAGE * k <= |ps| && ps[j] in Run(ps, k)
  {
    var k := j / POS_PER_PAGE;
    assert Run(ps, k)[j - POS_PER_PAGE * k] == ps[j];
  }

  lemma ChainStep(mem: seq<byte>, cur: nat, ps: seq<Posting>) returns (next: nat)
    requires Chain(mem, cur, ps) && cur != INVALID_OFFSET
    ensures ps != [] && TermPageAt(mem, cur, ps[0], next) && Chain(mem, next, ps[1..])
  {
    next := Get32(mem, cur + 8);
  }

  lemma ChainEnds(mem: seq<byte>, ps: seq<Posting>)
    requires Chain(mem, INVALID_OFFSET, ps)
    ensures ps == []
  {
  }

  method ReadPositions(arena: SegmentArena, at: nat, tf: nat, ghost ps: seq<nat>) returns (positions: seq<nat>)
    requires arena.Valid() && PositionsAt(arena.Mem(), at, ps) && |ps| == tf
    ensures positions == ps
  {
    hide PosPages;
    if tf <= INLINE_POS_LIMIT {
      positions := GetWords(arena, at, tf, ps);
    } else {
      ghost var pages: seq<nat> :| PosPages(arena.Mem(), pages, ps) && pages != [] && WordsAt(arena.Mem(), at, [pages[0]]);
      var head := GetWords(arena, at, 1, [pages[0]]);
      positions := ReadPosChain(arena, head[0], tf, pages, ps);
    }
  }
}
