// PForDelta: delta-coded blocks of up to 128 document ids, packed at the
// width that fits nine tenths of them, the rest patched in.
module PForDelta {
  import opened Bits
  import opened BitPacking

  const BLOCK_SIZE: nat := 128
  const HEADER_SIZE: nat := 16
  const PATCH_SIZE: nat := 6

  ghost predicate U32s(xs: seq<nat>) {
    forall i :: 0 <= i < |xs| ==> xs[i] <= MAX_U32
  }

  // ---------------------------------------------------------------- deltas

  // Unsigned 32-bit subtraction and addition wrap around.
  function Minus(a: nat, b: nat): (r: nat)
    requires a <= MAX_U32 && b <= MAX_U32
    ensures r <= MAX_U32
  {
    (a + 0x1_0000_0000 - b) % 0x1_0000_0000
  }

  function Plus(a: nat, b: nat): (r: nat)
    ensures r <= MAX_U32
  {
    (a + b) % 0x1_0000_0000
  }

  lemma PlusUndoesMinus(a: nat, b: nat)
    requires a <= MAX_U32 && b <= MAX_U32
    ensures Plus(a, Minus(b, a)) == b
    ensures Minus(b, a) == if a <= b then b - a else b + 4294967296 - a
  {
  }

  ghost function Deltas(docs: seq<nat>): (ds: seq<nat>)
    requires U32s(docs)
    ensures |ds| == |docs| && U32s(ds)
  {
    if docs == [] then []
    else
      var k := |docs| - 1;
      Deltas(docs[..k]) + [if k == 0 then docs[0] else Minus(docs[k], docs[k - 1])]
  }

  ghost function PrefixSums(ds: seq<nat>): (docs: seq<nat>)
    requires U32s(ds)
    ensures |docs| == |ds| && U32s(docs)
  {
    if ds == [] then []
    else if |ds| == 1 then ds
    else
      var front := PrefixSums(ds[..|ds| - 1]);
      front + [Plus(front[|front| - 1], ds[|ds| - 1])]
  }

  lemma {:induction false} SumsOfDeltas(docs: seq<nat>)
    requires U32s(docs)
    ensures PrefixSums(Deltas(docs)) == docs
  {
    if |docs| > 1 {
      SumsOfDeltas(docs[..|docs| - 1]);
      LastSum(docs);
    }
  }

  lemma LastSum(docs: seq<nat>)
    requires U32s(docs) && |docs| > 1 && PrefixSums(Deltas(docs[..|docs| - 1])) == docs[..|docs| - 1]
    ensures PrefixSums(Deltas(docs)) == docs
  {
    hide Plus, Minus, PrefixSums, Deltas;
    var k := |docs| - 1;
    DeltasMore(docs);
    SumsMore(Deltas(docs[..k]), Minus(docs[k], docs[k - 1]));
    BackAgain(docs, k);
  }

  lemma BackAgain(docs: seq<nat>, k: nat)
    requires U32s(docs) && 0 < k == |docs| - 1
    ensures docs[..k] + [Plus(docs[..k][k - 1], Minus(docs[k], docs[k - 1]))] == docs
  {
    PlusUndoesMinus(docs[k - 1], docs[k]);
  }

  lemma DeltasMore(docs: seq<nat>)
    requires U32s(docs) && |docs| > 1
    ensures var k := |docs| - 1; Deltas(docs) == Deltas(docs[..k]) + [Minus(docs[k], docs[k - 1])]
  {
    hide Minus;
  }

  lemma SumsMore(ds: seq<nat>, d: nat)
    requires U32s(ds) && ds != [] && d <= MAX_U32
    ensures U32s(ds + [d]) && PrefixSums(ds + [d]) == PrefixSums(ds) + [Plus(PrefixSums(ds)[|ds| - 1], d)]
  {
    hide Plus;
    assert (ds + [d])[..|ds|] == ds;
  }

  // ---------------------------------------------------------------- bit width

  ghost function CountUpTo(ds: seq<nat>, max: nat): (n: nat)
    ensures n <= |ds|
  {
    if ds == [] then 0
    else CountUpTo(ds[..|ds| - 1], max) + (if ds[|ds| - 1] <= max then 1 else 0)
  }

  lemma {:induction false} AllCounted(ds: seq<nat>, max: nat)
    requires forall i :: 0 <= i < |ds| ==> ds[i] <= max
    ensures CountUpTo(ds, max) == |ds|
  {
    if ds != [] {
      AllCounted(ds[..|ds| - 1], max);
    }
  }

  // ceil(90%)
  function Threshold(n: nat): nat {
    (n * 9 + 9) / 10
  }

  // b bits hold nine tenths of the values, and no fewer bits do.
  ghost predicate Narrowest(ds: seq<nat>, b: nat) {
    && 1 <= b <= 32 && 10 * CountUpTo(ds, Pow2(b) - 1) >= 9 * |ds|
    && forall w: nat :: 1 <= w < b ==> 10 * CountUpTo(ds, Pow2(w) - 1) < 9 * |ds|
  }

  // The narrowest width that covers nine tenths of the deltas.
  method ChooseBitWidth(deltas: seq<nat>) returns (b: nat)
    requires U32s(deltas)
    ensures Narrowest(deltas, b)
  {
    hide Pow2, CountUpTo;
    b := 1;
    if deltas == [] {
      return;
    }
    while b < 32
      invariant 1 <= b <= 32
      invariant forall w: nat :: 1 <= w < b ==> CountUpTo(deltas, Pow2(w) - 1) < Threshold(|deltas|)
    {
      var covered := Covered(deltas, Pow2(b) - 1);
      if covered >= Threshold(|deltas|) {
        return;
      }
      b := b + 1;
    }
    Pow2Values();
    AllCounted(deltas, Pow2(32) - 1);
  }

  method Covered(deltas: seq<nat>, maxVal: nat) returns (covered: nat)
    ensures covered == CountUpTo(deltas, maxVal)
  {
    covered := 0;
    for i := 0 to |deltas|
      invariant covered == CountUpTo(deltas[..i], maxVal)
    {
      if deltas[i] <= maxVal {
        covered := covered + 1;
      }
      assert deltas[..i + 1][..i] == deltas[..i];
    }
    assert deltas[..|deltas|] == deltas;
  }

  // ---------------------------------------------------------------- patches

  datatype Patch = Patch(position: nat, value: nat)

  ghost predicate PatchesFit(ps: seq<Patch>, n: nat) {
    forall i :: 0 <= i < |ps| ==> ps[i].position < n && ps[i].position < 0x1_0000 && ps[i].value <= MAX_U32
  }

  ghost function Patched(ds: seq<nat>, ps: seq<Patch>): (r: seq<nat>)
    requires PatchesFit(ps, |ds|) && U32s(ds)
    ensures |r| == |ds| && U32s(r)
  {
    if ps == [] then ds
    else Patched(ds, ps[..|ps| - 1])[ps[|ps| - 1].position := ps[|ps| - 1].value]
  }

  // Values up to the maximum as they are, zeros in place of larger ones.
  ghost predicate Kept(deltas: seq<nat>, maxVal: nat, truncated: seq<nat>) {
    |truncated| == |deltas| && forall i :: 0 <= i < |deltas| ==> truncated[i] == if deltas[i] <= maxVal then deltas[i] else 0
  }

  // A patch for each value above the maximum, in order.
  ghost predicate PatchesRight(deltas: seq<nat>, maxVal: nat, patches: seq<Patch>) {
    && (forall p :: p in patches ==> IsPatch(deltas, maxVal, p))
    && InOrder(patches)
    && (forall i :: 0 <= i < |deltas| && deltas[i] > maxVal ==> Patch(i, deltas[i]) in patches)
  }

  ghost predicate IsPatch(deltas: seq<nat>, maxVal: nat, p: Patch) {
    p.position < |deltas| && p.value == deltas[p.position] > maxVal
  }

  ghost predicate InOrder(patches: seq<Patch>) {
    forall p, q :: 0 <= p < q < |patches| ==> patches[p].position < patches[q].position
  }

  lemma PatchesRightMore(deltas: seq<nat>, maxVal: nat, patches: seq<Patch>, d: nat)
    requires PatchesRight(deltas, maxVal, patches)
    ensures PatchesRight(deltas + [d], maxVal, if d <= maxVal then patches else patches + [Patch(|deltas|, d)])
  {
    var ds, more := deltas + [d], if d <= maxVal then patches else patches + [Patch(|deltas|, d)];
    forall i | 0 <= i < |ds| && ds[i] > maxVal
      ensures Patch(i, ds[i]) in more
    {
      assert i < |deltas| ==> Patch(i, deltas[i]) in patches;
    }
    forall p | p in more
      ensures IsPatch(ds, maxVal, p)
    {
      assert p in patches ==> IsPatch(deltas, maxVal, p);
    }
    InOrderMore(deltas, maxVal, patches, d);
  }

  lemma InOrderMore(deltas: seq<nat>, maxVal: nat, patches: seq<Patch>, d: nat)
    requires InOrder(patches) && forall p :: p in patches ==> IsPatch(deltas, maxVal, p)
    ensures InOrder(patches + [Patch(|deltas|, d)])
  {
    forall i | 0 <= i < |patches|
      ensures patches[i].position < |deltas|
    {
      assert patches[i] in patches;
    }
  }

  // How a list of deltas is taken apart.
  ghost predicate TakenApart(deltas: seq<nat>, maxVal: nat, truncated: seq<nat>, patches: seq<Patch>) {
    && U32s(deltas) && Kept(deltas, maxVal, truncated) && PatchesRight(deltas, maxVal, patches)
    && PatchesFit(patches, |deltas|) && |patches| == |deltas| - CountUpTo(deltas, maxVal)
    && U32s(truncated) && Patched(truncated, patches) == deltas
  }

  lemma TakenApartMore(deltas: seq<nat>, maxVal: nat, truncated: seq<nat>, patches: seq<Patch>, d: nat)
    requires TakenApart(deltas, maxVal, truncated, patches) && d <= MAX_U32 && |deltas| < BLOCK_SIZE
    ensures if d <= maxVal then TakenApart(deltas + [d], maxVal, truncated + [d], patches)
            else TakenApart(deltas + [d], maxVal, truncated + [0], patches + [Patch(|deltas|, d)])
  {
    hide Patched, PatchesRight;
    assert (deltas + [d])[..|deltas|] == deltas;
    PatchesRightMore(deltas, maxVal, patches, d);
    if d <= maxVal {
      PatchedLonger(truncated, d, patches);
    } else {
      PatchedOneMore(truncated, patches, d);
    }
  }

  // Normal values stay, exceptions leave a zero behind and become patches.
  method SplitExceptions(deltas: seq<nat>, maxVal: nat) returns (truncated: seq<nat>, patches: seq<Patch>)
    requires U32s(deltas) && |deltas| <= BLOCK_SIZE
    ensures |truncated| == |deltas| && (forall i :: 0 <= i < |deltas| ==> truncated[i] <= maxVal) && U32s(truncated)
    ensures PatchesFit(patches, |deltas|)
    ensures |patches| == |deltas| - CountUpTo(deltas, maxVal)
    ensures Patched(truncated, patches) == deltas
    ensures Kept(deltas, maxVal, truncated) && PatchesRight(deltas, maxVal, patches)
  {
    hide Patched, PatchesRight, TakenApart;
    truncated, patches := [], [];
    assert TakenApart([], maxVal, [], []) by { NothingApart(maxVal); }
    assert deltas[..0] == [];
    for k := 0 to |deltas|
      invariant TakenApart(deltas[..k], maxVal, truncated, patches)
    {
      assert deltas[..k + 1] == deltas[..k] + [deltas[k]];
      TakenApartMore(deltas[..k], maxVal, truncated, patches, deltas[k]);
      if deltas[k] <= maxVal {
        truncated := truncated + [deltas[k]];
      } else {
        truncated := truncated + [0];
        patches := patches + [Patch(k, deltas[k])];
      }
    }
    assert deltas[..|deltas|] == deltas;
    AllApart(deltas, maxVal, truncated, patches);
  }

  lemma NothingApart(maxVal: nat)
    ensures TakenApart([], maxVal, [], [])
  {
  }

  lemma AllApart(deltas: seq<nat>, maxVal: nat, truncated: seq<nat>, patches: seq<Patch>)
    requires TakenApart(deltas, maxVal, truncated, patches)
    ensures |truncated| == |deltas| && (forall i :: 0 <= i < |deltas| ==> truncated[i] <= maxVal) && U32s(truncated)
    ensures PatchesFit(patches, |deltas|)
    ensures |patches| == |deltas| - CountUpTo(deltas, maxVal)
    ensures Patched(truncated, patches) == deltas
    ensures Kept(deltas, maxVal, truncated) && PatchesRight(deltas, maxVal, patches)
  {
    hide Patched, PatchesRight;
  }

  // A zero and a patch for it stand for a delta that is too large.
  lemma PatchedOneMore(ds: seq<nat>, ps: seq<Patch>, d: nat)
    requires PatchesFit(ps, |ds|) && U32s(ds) && d <= MAX_U32 && |ds| < BLOCK_SIZE
    ensures PatchesFit(ps + [Patch(|ds|, d)], |ds| + 1)
    ensures Patched(ds + [0], ps + [Patch(|ds|, d)]) == Patched(ds, ps) + [d]
  {
    PatchedLonger(ds, 0, ps);
    assert (ps + [Patch(|ds|, d)])[..|ps|] == ps;
  }

  // Patches of a prefix do not reach what is appended.
  lemma {:induction false} PatchedLonger(ds: seq<nat>, d: nat, ps: seq<Patch>)
    requires PatchesFit(ps, |ds|) && U32s(ds) && d <= MAX_U32
    ensures Patched(ds + [d], ps) == Patched(ds, ps) + [d]
  {
    if ps != [] {
      PatchedLonger(ds, d, ps[..|ps| - 1]);
    }
  }

  ghost function PatchBytes(ps: seq<Patch>): (s: seq<byte>)
    requires PatchesFit(ps, BLOCK_SIZE)
    ensures |s| == PATCH_SIZE * |ps|
  {
    if ps == [] then []
    else PatchBytes(ps[..|ps| - 1]) + Le16(ps[|ps| - 1].position) + Le32(ps[|ps| - 1].value)
  }

  ghost function PatchesIn(s: seq<byte>, count: nat): (ps: seq<Patch>)
    requires PATCH_SIZE * count <= |s|
    ensures |ps| == count
  {
    if count == 0 then []
    else
      var at := PATCH_SIZE * (count - 1);
      PatchesIn(s, count - 1) + [Patch(Get16(s, at), Get32(s, at + 2))]
  }

  lemma {:induction false} PatchesInPrefix(s: seq<byte>, t: seq<byte>, count: nat)
    requires PATCH_SIZE * count <= |s|
    ensures PatchesIn(s + t, count) == PatchesIn(s, count)
  {
    if count > 0 {
      PatchesInPrefix(s, t, count - 1);
    }
  }

  lemma {:induction false} PatchesBack(ps: seq<Patch>)
    requires PatchesFit(ps, BLOCK_SIZE)
    ensures PatchesIn(PatchBytes(ps), |ps|) == ps
  {
    if ps != [] {
      var last := ps[|ps| - 1];
      var bytes := PatchBytes(ps[..|ps| - 1]);
      PatchesBack(ps[..|ps| - 1]);
      PatchesInPrefix(bytes, Le16(last.position) + Le32(last.value), |ps| - 1);
      LastPatch(bytes, last);
      assert bytes + (Le16(last.position) + Le32(last.value)) == PatchBytes(ps);
    }
  }

  lemma LastPatch(bytes: seq<byte>, p: Patch)
    requires p.position < 0x1_0000 && p.value <= MAX_U32
    ensures Get16(bytes + (Le16(p.position) + Le32(p.value)), |bytes|) == p.position
    ensures Get32(bytes + (Le16(p.position) + Le32(p.value)), |bytes| + 2) == p.value
  {
    FieldsBack(p.position);
    FieldsBack(p.value);
  }

  // ---------------------------------------------------------------- blocks

  // Header, packed values, patches: the size follows from the first three bytes.
  function BlockByteSize(data: seq<byte>): (n: nat)
    requires |data| >= HEADER_SIZE
    ensures n >= HEADER_SIZE
  {
    HEADER_SIZE + BytesFor(data[1], data[0]) + PATCH_SIZE * data[2]
  }

  function MainArea(block: seq<byte>): (area: seq<byte>)
    requires |block| >= HEADER_SIZE && |block| == BlockByteSize(block)
    ensures |area| == BytesFor(block[1], block[0])
  {
    block[HEADER_SIZE..HEADER_SIZE + BytesFor(block[1], block[0])]
  }

  function PatchArea(block: seq<byte>): (area: seq<byte>)
    requires |block| >= HEADER_SIZE && |block| == BlockByteSize(block)
    ensures |area| == PATCH_SIZE * block[2]
  {
    block[HEADER_SIZE + BytesFor(block[1], block[0])..]
  }

  ghost predicate WellFormed(block: seq<byte>) {
    && |block| >= HEADER_SIZE && |block| == BlockByteSize(block)
    && block[0] <= 32 && 0 < block[1]
    && PatchesFit(PatchesIn(PatchArea(block), block[2]), block[1])
  }

  lemma {:induction false} Pow2Monotone(m: nat, n: nat)
    requires m <= n
    ensures Pow2(m) <= Pow2(n)
    decreases n
  {
    if m < n {
      Pow2Monotone(m, n - 1);
    }
  }

  lemma {:induction false} UnpackedFit(data: seq<byte>, b: nat, count: nat)
    requires Off(count, b) <= 8 * |data| && b <= 32
    ensures U32s(Unpacked(data, b, count))
  {
    hide Pow2, ReadBits;
    Pow2Values();
    Pow2Monotone(b, 32);
    if count > 0 {
      UnpackedFit(data, b, count - 1);
    }
  }

  // The documents a block stands for.
  ghost function Decoded(block: seq<byte>): (docs: seq<nat>)
    requires WellFormed(block)
    ensures |docs| == block[1] && U32s(docs)
  {
    BytesForHolds(block[1], block[1], block[0]);
    UnpackedFit(MainArea(block), block[0], block[1]);
    PrefixSums(Patched(Unpacked(MainArea(block), block[0], block[1]), PatchesIn(PatchArea(block), block[2])))
  }

  // The block encodes exactly these documents and carries this score.
  ghost predicate IsBlock(block: seq<byte>, docs: seq<nat>, score: nat) {
    && WellFormed(block)
    && Decoded(block) == docs
    && Get32(block, 4) == docs[|docs| - 1] && Get32(block, 8) == score && Get32(block, 12) == docs[0]
    && block[2] <= |docs| / 10
    && LaidOut(block, docs)
  }

  // How far document k is from the one before it, as 32 bits tell it.
  function Gap(docs: seq<nat>, k: nat): nat
    requires k < |docs| && U32s(docs)
  {
    if k == 0 then docs[0] else if docs[k - 1] <= docs[k] then docs[k] - docs[k - 1] else docs[k] + 4294967296 - docs[k - 1]
  }

  // The bytes of a block: a header of 16 bytes, the gaps back to back at the
  // narrowest width that holds nine tenths of them, a zero where a gap is too
  // large for it, and six bytes for each such gap, in order.
  ghost predicate LaidOut(block: seq<byte>, docs: seq<nat>) {
    && U32s(docs) && |block| >= 16 && |docs| == block[1] && block[3] == 0
    && Narrowest(Deltas(docs), block[0])
    && block[2] == |docs| - CountUpTo(Deltas(docs), Pow2(block[0]) - 1)
    && |block| >= 16 + 6 * block[2]
    && GapsAt(block, block[0], docs, |block| - 6 * block[2])
    && PatchesAt(block, |block| - 6 * block[2], Pow2(block[0]), docs, block[2])
  }

  // The gaps fill the bytes from 16 up to `from`.
  ghost predicate GapsAt(block: seq<byte>, b: nat, docs: seq<nat>, from: nat)
    requires U32s(docs)
  {
    && 128 + |docs| * b <= 8 * from < 136 + |docs| * b
    && forall k :: 0 <= k < |docs| ==> StoredAt(block, b, docs, k)
  }

  ghost predicate PatchesAt(block: seq<byte>, from: nat, least: nat, docs: seq<nat>, count: nat)
    requires U32s(docs)
  {
    && (forall p :: 0 <= p < count ==> PatchAt(block, from, least, docs, p))
    && (forall p, q :: 0 <= p < q < count ==> Place(block, from, p) < Place(block, from, q))
  }

  ghost predicate StoredAt(block: seq<byte>, b: nat, docs: seq<nat>, k: nat)
    requires k < |docs| && U32s(docs)
  {
    && 128 + k * b + b <= 8 * |block|
    && ReadBits(block, 128 + k * b, b) == if Gap(docs, k) < Pow2(b) then Gap(docs, k) else 0
  }

  // What document the p-th patch is for.
  function Place(block: seq<byte>, from: nat, p: nat): nat {
    if from + 6 * p + 2 <= |block| then Get16(block, from + 6 * p) else 0
  }

  ghost predicate PatchAt(block: seq<byte>, from: nat, least: nat, docs: seq<nat>, p: nat)
    requires U32s(docs)
  {
    var k := Place(block, from, p);
    from + 6 * p + 6 <= |block| && k < |docs| && Get32(block, from + 6 * p + 2) == Gap(docs, k) >= least
  }

  lemma {:induction false} GapIs(docs: seq<nat>, k: nat)
    requires U32s(docs) && k < |docs|
    ensures Deltas(docs)[k] == Gap(docs, k)
    decreases |docs|
  {
    var n := |docs| - 1;
    if k < n {
      GapIs(docs[..n], k);
    } else if k > 0 {
      PlusUndoesMinus(docs[k - 1], docs[k]);
    }
  }

  // The p-th patch among the bytes.
  lemma {:induction false} PatchInBytes(ps: seq<Patch>, p: nat)
    requires PatchesFit(ps, BLOCK_SIZE) && p < |ps|
    ensures Get16(PatchBytes(ps), 6 * p) == ps[p].position && Get32(PatchBytes(ps), 6 * p + 2) == ps[p].value
  {
    hide Get16, Get32, PatchBytes;
    PatchesBack(ps);
    PatchesInAt(PatchBytes(ps), |ps|, p);
  }

  lemma {:induction false} PatchesInAt(s: seq<byte>, count: nat, p: nat)
    requires PATCH_SIZE * count <= |s| && p < count
    ensures PatchesIn(s, count)[p] == Patch(Get16(s, 6 * p), Get32(s, 6 * p + 2))
  {
    hide Get16, Get32;
    if p < count - 1 {
      PatchesInAt(s, count - 1, p);
    }
  }

  lemma FieldsInside(pre: seq<byte>, s: seq<byte>, i: nat)
    ensures i + 2 <= |s| ==> Get16(pre + s, |pre| + i) == Get16(s, i)
    ensures i + 4 <= |s| ==> Get32(pre + s, |pre| + i) == Get32(s, i)
  {
    assert forall k :: 0 <= k < |s| ==> (pre + s)[|pre| + k] == s[k];
  }

  lemma BlockLaidOut(header: seq<byte>, area: seq<byte>, patches: seq<Patch>, truncated: seq<nat>, docs: seq<nat>)
    requires 0 < |docs| <= BLOCK_SIZE && U32s(docs) && |header| == HEADER_SIZE
    requires header[1] == |docs| && header[2] == |patches| && header[3] == 0
    requires TakenApart(Deltas(docs), Pow2(header[0]) - 1, truncated, patches) && Narrowest(Deltas(docs), header[0])
    requires |area| == BytesFor(|docs|, header[0]) && HoldsAll(area, header[0], truncated)
    ensures PatchesFit(patches, BLOCK_SIZE) && LaidOut(header + area + PatchBytes(patches), docs)
  {
    hide HoldsAll, Narrowest, Deltas, CountUpTo, Pow2, PatchBytes, Patched, PatchesRight, PatchesAt, GapsAt, BytesFor, Kept, U32s;
    var block := header + area + PatchBytes(patches);
    assert block[0] == header[0] && block[1] == header[1] && block[2] == header[2] && block[3] == header[3];
    BytesForIs(|docs|, header[0]);
    GapsLaidOut(header, area, PatchBytes(patches), header[0], truncated, docs);
    PatchesLaidOut(header + area, patches, docs, Pow2(header[0]));
  }

  lemma GapsLaidOut(header: seq<byte>, area: seq<byte>, tail: seq<byte>, b: nat, truncated: seq<nat>, docs: seq<nat>)
    requires U32s(docs) && |header| == HEADER_SIZE
    requires Kept(Deltas(docs), Pow2(b) - 1, truncated) && HoldsAll(area, b, truncated)
    requires |docs| * b <= 8 * |area| < |docs| * b + 8
    ensures GapsAt(header + area + tail, b, docs, 16 + |area|)
  {
    hide StoredAt, Kept, HoldsAll, Deltas;
    forall k | 0 <= k < |docs|
      ensures StoredAt(header + area + tail, b, docs, k)
    {
      GapLaidOut(header, area, tail, b, truncated, docs, k);
    }
  }

  lemma GapLaidOut(header: seq<byte>, area: seq<byte>, tail: seq<byte>, b: nat, truncated: seq<nat>, docs: seq<nat>, k: nat)
    requires U32s(docs) && |header| == HEADER_SIZE && k < |docs|
    requires Kept(Deltas(docs), Pow2(b) - 1, truncated) && HoldsAll(area, b, truncated)
    ensures StoredAt(header + area + tail, b, docs, k)
  {
    hide HoldsAll, Deltas, Pow2, ReadBits, Gap;
    GapIs(docs, k);
    ValueBack(area, b, truncated, k);
    BehindHeader(header, area, tail, k * b, b);
  }

  lemma BehindHeader(header: seq<byte>, area: seq<byte>, tail: seq<byte>, p: nat, b: nat)
    requires |header| == 16 && p + b <= 8 * |area|
    ensures 128 + p + b <= 8 * |header + area + tail|
    ensures ReadBits(header + area + tail, 128 + p, b) == ReadBits(area, p, b)
  {
    hide ReadBits;
    ReadBitsInside(header, area, tail, p, b);
  }

  lemma PatchesLaidOut(front: seq<byte>, patches: seq<Patch>, docs: seq<nat>, least: nat)
    requires U32s(docs) && PatchesFit(patches, BLOCK_SIZE) && least > 0 && PatchesRight(Deltas(docs), least - 1, patches)
    ensures PatchesAt(front + PatchBytes(patches), |front|, least, docs, |patches|)
  {
    hide PatchAt, Place, PatchBytes, Deltas, IsPatch;
    forall p | 0 <= p < |patches|
      ensures PatchAt(front + PatchBytes(patches), |front|, least, docs, p)
      ensures Place(front + PatchBytes(patches), |front|, p) == patches[p].position
    {
      PatchLaidOut(front, patches, docs, least, p);
    }
  }

  lemma PatchLaidOut(front: seq<byte>, patches: seq<Patch>, docs: seq<nat>, least: nat, p: nat)
    requires U32s(docs) && PatchesFit(patches, BLOCK_SIZE) && least > 0 && PatchesRight(Deltas(docs), least - 1, patches)
    requires p < |patches|
    ensures PatchAt(front + PatchBytes(patches), |front|, least, docs, p)
    ensures Place(front + PatchBytes(patches), |front|, p) == patches[p].position
  {
    hide Get16, Get32, PatchBytes, Gap, PatchesRight, Deltas;
    var tail := PatchBytes(patches);
    PatchInBytes(patches, p);
    FieldsInside(front, tail, 6 * p);
    FieldsInside(front, tail, 6 * p + 2);
    OnePatch(docs, least - 1, patches, p);
  }

  lemma OnePatch(docs: seq<nat>, maxVal: nat, patches: seq<Patch>, p: nat)
    requires U32s(docs) && PatchesRight(Deltas(docs), maxVal, patches) && p < |patches|
    ensures patches[p].position < |docs| && patches[p].value == Gap(docs, patches[p].position) > maxVal
  {
    hide Gap;
    assert patches[p] in patches && IsPatch(Deltas(docs), maxVal, patches[p]);
    GapIs(docs, patches[p].position);
  }

  function HeaderBytes(b: nat, size: nat, excCount: nat, maxDocId: nat, score: nat, first: nat): (h: seq<byte>)
    requires b < 256 && size < 256 && excCount < 256 && maxDocId <= MAX_U32 && score <= MAX_U32 && first <= MAX_U32
    ensures |h| == HEADER_SIZE && h[0] == b && h[1] == size && h[2] == excCount && h[3] == 0
    ensures Get32(h, 4) == maxDocId && Get32(h, 8) == score && Get32(h, 12) == first
  {
    FieldsBack(maxDocId);
    FieldsBack(score);
    FieldsBack(first);
    [b, size, excCount, 0] + Le32(maxDocId) + Le32(score) + Le32(first)
  }

  method DeltasOf(docs: seq<nat>) returns (deltas: seq<nat>)
    requires U32s(docs) && docs != []
    ensures deltas == Deltas(docs)
  {
    deltas := [docs[0]];
    assert docs[..1] == [docs[0]];
    for k := 1 to |docs|
      invariant |deltas| == k && deltas == Deltas(docs[..k])
    {
      assert docs[..k + 1][..k] == docs[..k];
      deltas := deltas + [Minus(docs[k], docs[k - 1])];
    }
    assert docs[..|docs|] == docs;
  }

  method AppendPatches(output: seq<byte>, patches: seq<Patch>) returns (output': seq<byte>)
    requires PatchesFit(patches, BLOCK_SIZE)
    ensures output' == output + PatchBytes(patches)
  {
    output' := output;
    for i := 0 to |patches|
      invariant output' == output + PatchBytes(patches[..i])
    {
      assert patches[..i + 1][..i] == patches[..i];
      output' := output' + Le16(patches[i].position) + Le32(patches[i].value);
    }
    assert patches[..|patches|] == patches;
  }

  lemma BlockAreas(header: seq<byte>, area: seq<byte>, tail: seq<byte>)
    requires |header| == HEADER_SIZE
    requires |area| == BytesFor(header[1], header[0]) && |tail| == PATCH_SIZE * header[2]
    ensures var block := header + area + tail;
            && |block| == BlockByteSize(block) && MainArea(block) == area && PatchArea(block) == tail
            && block[0] == header[0] && block[1] == header[1] && block[2] == header[2]
            && Get32(block, 4) == Get32(header, 4) && Get32(block, 8) == Get32(header, 8)
            && Get32(block, 12) == Get32(header, 12)
  {
  }

  lemma BlockAssembled(header: seq<byte>, area: seq<byte>, patches: seq<Patch>, truncated: seq<nat>, docs: seq<nat>, score: nat)
    requires 0 < |docs| <= BLOCK_SIZE && U32s(docs) && score <= MAX_U32 && |truncated| == |docs| && U32s(truncated)
    requires PatchesFit(patches, |docs|) && |patches| <= |docs| / 10 && Patched(truncated, patches) == Deltas(docs)
    requires |header| == HEADER_SIZE && 1 <= header[0] <= 32 && header[1] == |docs| && header[2] == |patches|
    requires Get32(header, 4) == docs[|docs| - 1] && Get32(header, 8) == score && Get32(header, 12) == docs[0]
    requires |area| == BytesFor(|docs|, header[0]) && HoldsAll(area, header[0], truncated)
    requires forall i :: 0 <= i < |truncated| ==> truncated[i] < Pow2(header[0])
    requires LaidOut(header + area + PatchBytes(patches), docs)
    ensures IsBlock(header + area + PatchBytes(patches), docs, score)
  {
    hide Off, BytesFor, HoldsAll, Patched, PatchesIn, PatchBytes, PrefixSums, Deltas, Get32, Pow2,
         MainArea, PatchArea, BlockByteSize, U32s, IsBlock, LaidOut;
    BlockAreas(header, area, PatchBytes(patches));
    AreasAssembled(header + area + PatchBytes(patches), area, patches, truncated, docs, score);
  }

  lemma AreasAssembled(block: seq<byte>, area: seq<byte>, patches: seq<Patch>, truncated: seq<nat>, docs: seq<nat>, score: nat)
    requires 0 < |docs| <= BLOCK_SIZE && U32s(docs) && |truncated| == |docs| && U32s(truncated)
    requires PatchesFit(patches, |docs|) && |patches| <= |docs| / 10 && Patched(truncated, patches) == Deltas(docs)
    requires |block| >= HEADER_SIZE && |block| == BlockByteSize(block) && MainArea(block) == area
    requires PatchesFit(patches, BLOCK_SIZE) && PatchArea(block) == PatchBytes(patches)
    requires 1 <= block[0] <= 32 && block[1] == |docs| && block[2] == |patches|
    requires Get32(block, 4) == docs[|docs| - 1] && Get32(block, 8) == score && Get32(block, 12) == docs[0]
    requires |area| == BytesFor(|docs|, block[0]) && HoldsAll(area, block[0], truncated)
    requires forall i :: 0 <= i < |truncated| ==> truncated[i] < Pow2(block[0])
    requires LaidOut(block, docs)
    ensures IsBlock(block, docs, score)
  {
    hide LaidOut, Off, BytesFor, HoldsAll, Patched, PatchesIn, PatchBytes, PrefixSums, Deltas, Unpacked, Get32, Pow2,
         MainArea, PatchArea, BlockByteSize, WellFormed, Decoded, U32s;
    BytesForHolds(|docs|, |docs|, block[0]);
    PackedBack(area, block[0], truncated);
    SumsOfDeltas(docs);
    BlockDecoded(block, area, patches, truncated);
  }

  // A block of these two areas decodes to what the unpacked values, patched,
  // add up to.
  lemma BlockDecoded(block: seq<byte>, area: seq<byte>, patches: seq<Patch>, truncated: seq<nat>)
    requires |block| >= HEADER_SIZE && |block| == BlockByteSize(block) && block[0] <= 32 && 0 < block[1] <= BLOCK_SIZE
    requires PatchesFit(patches, BLOCK_SIZE)
    requires MainArea(block) == area && PatchArea(block) == PatchBytes(patches) && block[2] == |patches|
    requires PatchesFit(patches, block[1]) && |truncated| == block[1] && U32s(truncated)
    requires Off(block[1], block[0]) <= 8 * |area| && Unpacked(area, block[0], block[1]) == truncated
    ensures WellFormed(block) && Decoded(block) == PrefixSums(Patched(truncated, patches))
  {
    hide Off, BytesFor, Patched, PatchesIn, PatchBytes, PrefixSums, Unpacked, Pow2, MainArea, PatchArea, BlockByteSize;
    PatchesBack(patches);
  }

  // A tenth at most is left to patch.
  lemma FewPatches(ds: seq<nat>, b: nat)
    requires Narrowest(ds, b)
    ensures |ds| - CountUpTo(ds, Pow2(b) - 1) <= |ds| / 10 && 1 <= b <= 32
  {
    hide CountUpTo, Pow2;
  }

  // One block of the output. At most a tenth of the deltas become patches, so
  // the one-byte counts of the header hold them.
  method CompressBlock(docs: seq<nat>, score: nat, output: seq<byte>) returns (output': seq<byte>)
    requires 0 < |docs| <= BLOCK_SIZE && U32s(docs) && score <= MAX_U32
    ensures |output'| >= |output| && output'[..|output|] == output
    ensures IsBlock(output'[|output|..], docs, score)
  {
    hide Off, BytesFor, HoldsAll, Patched, PatchesIn, PatchBytes, PrefixSums, Deltas, Get32, IsBlock, CountUpTo, LaidOut, Kept, PatchesRight;
    var deltas := DeltasOf(docs);
    var b := ChooseBitWidth(deltas);
    var maxVal := Pow2(b) - 1;
    var truncated, patches := SplitExceptions(deltas, maxVal);
    FewPatches(deltas, b);
    var header := HeaderBytes(b, |docs|, |patches|, docs[|docs| - 1], score, docs[0]);
    output' := output + header;
    output' := PackBits(truncated, b, output');
    ghost var area := output'[|output| + HEADER_SIZE..];
    ghost var packed := output';
    output' := AppendPatches(output', patches);
    BlockLaidOut(header, area, patches, truncated, docs);
    BlockAssembled(header, area, patches, truncated, docs, score);
    assert packed == output + header + area;
    assert output'[|output|..] == header + area + PatchBytes(patches);
  }

  method ApplyPatches(deltas: seq<nat>, patchData: seq<byte>, count: nat) returns (patched: seq<nat>)
    requires PATCH_SIZE * count <= |patchData| && U32s(deltas)
    requires PatchesFit(PatchesIn(patchData, count), |deltas|)
    ensures patched == Patched(deltas, PatchesIn(patchData, count))
  {
    patched := deltas;
    for p := 0 to count
      invariant |patched| == |deltas| && PatchesFit(PatchesIn(patchData, p), |deltas|)
      invariant patched == Patched(deltas, PatchesIn(patchData, p))
    {
      PatchesInTake(patchData, p + 1, count);
      var position, value := Get16(patchData, PATCH_SIZE * p), Get32(patchData, PATCH_SIZE * p + 2);
      assert PatchesIn(patchData, p + 1) == PatchesIn(patchData, p) + [Patch(position, value)];
      assert PatchesIn(patchData, count)[p] == PatchesIn(patchData, p + 1)[p];
      patched := patched[position := value];
    }
  }

  lemma {:induction false} PatchesInTake(s: seq<byte>, n: nat, count: nat)
    requires n <= count && PATCH_SIZE * count <= |s|
    ensures PatchesIn(s, n) == PatchesIn(s, count)[..n]
    decreases count
  {
    if n < count {
      PatchesInTake(s, n, count - 1);
    }
  }

  method SumUp(deltas: seq<nat>, out: seq<nat>) returns (out': seq<nat>)
    requires U32s(deltas)
    ensures out' == out + PrefixSums(deltas)
  {
    out' := out;
    var prev := 0;
    for k := 0 to |deltas|
      invariant out' == out + PrefixSums(deltas[..k])
      invariant k > 0 ==> prev == PrefixSums(deltas[..k])[k - 1]
    {
      assert deltas[..k + 1][..k] == deltas[..k];
      prev := if k == 0 then deltas[k] else Plus(prev, deltas[k]);
      out' := out' + [prev];
    }
    assert deltas[..|deltas|] == deltas;
  }

  lemma AreasInFront(data: seq<byte>)
    requires |data| >= HEADER_SIZE && BlockByteSize(data) <= |data|
    ensures var n, m := BlockByteSize(data), HEADER_SIZE + BytesFor(data[1], data[0]);
            var block := data[..n];
            && block[0] == data[0] && block[1] == data[1] && block[2] == data[2] && BlockByteSize(block) == n
            && MainArea(block) == data[HEADER_SIZE..m] && PatchArea(block) == data[m..n]
  {
    hide BytesFor;
  }

  // Appends the block's documents and reports how many bytes it took.
  method DecompressBlock(data: seq<byte>, out: seq<nat>) returns (out': seq<nat>, consumed: nat)
    requires |data| >= HEADER_SIZE && BlockByteSize(data) <= |data|
    requires WellFormed(data[..BlockByteSize(data)])
    ensures consumed == BlockByteSize(data)
    ensures out' == out + Decoded(data[..consumed])
  {
    hide Off, BytesFor, Patched, PatchesIn, PrefixSums, Unpacked, Get32, Pow2;
    var b, size, excCount := data[0], data[1], data[2];
    var mainBytes := BytesFor(size, b);
    consumed := HEADER_SIZE + mainBytes + PATCH_SIZE * excCount;
    var mainData := data[HEADER_SIZE..HEADER_SIZE + mainBytes];
    var patchData := data[HEADER_SIZE + mainBytes..consumed];
    AreasInFront(data);
    BytesForHolds(size, size, b);
    UnpackedFit(mainData, b, size);
    var deltas := UnpackBits(mainData, b, size);
    deltas := ApplyPatches(deltas, patchData, excCount);
    out' := SumUp(deltas, out);
  }

  // ---------------------------------------------------------------- posting lists

  datatype SkipNode = SkipNode(maxDocId: nat, byteOffset: nat, maxScore: nat, docCount: nat)

  function BlockCount(n: nat): nat {
    (n + BLOCK_SIZE - 1) / BLOCK_SIZE
  }

  // The documents of block i.
  function BlockDocs(docs: seq<nat>, i: nat): (s: seq<nat>)
    requires i < BlockCount(|docs|)
    ensures 0 < |s| <= BLOCK_SIZE
  {
    docs[BLOCK_SIZE * i..Min(BLOCK_SIZE * i + BLOCK_SIZE, |docs|)]
  }

  // Blocks of 128, the last one what is left.
  lemma BlocksAre(docs: seq<nat>, i: nat)
    ensures 128 * BlockCount(|docs|) < |docs| + 128 && |docs| <= 128 * BlockCount(|docs|)
    ensures i < BlockCount(|docs|) ==>
              && |BlockDocs(docs, i)| == Min(128, |docs| - 128 * i)
              && forall j :: 0 <= j < |BlockDocs(docs, i)| ==> BlockDocs(docs, i)[j] == docs[128 * i + j]
  {
  }

  function NormOf(norms: seq<nat>, i: nat): nat {
    if i < |norms| then norms[i] else 0
  }

  // Where block i ends: at the next block, or at the end of the data.
  function BlockEnd(skips: seq<SkipNode>, i: nat, size: nat): nat
    requires i < |skips|
  {
    if i + 1 < |skips| then skips[i + 1].byteOffset else size
  }

  ghost predicate IsNode(output: seq<byte>, skips: seq<SkipNode>, i: nat, docs: seq<nat>, norms: seq<nat>)
    requires i < |skips| && i < BlockCount(|docs|)
  {
    var d := BlockDocs(docs, i);
    && skips[i].byteOffset <= BlockEnd(skips, i, |output|) <= |output|
    && skips[i].maxDocId == d[|d| - 1] && skips[i].docCount == |d| && skips[i].maxScore == NormOf(norms, i)
    && IsBlock(output[skips[i].byteOffset..BlockEnd(skips, i, |output|)], d, NormOf(norms, i))
  }

  // The output is the first k blocks of the list, back to back, and the skip
  // nodes say where each one is and what it holds.
  ghost predicate Compressed(output: seq<byte>, skips: seq<SkipNode>, k: nat, docs: seq<nat>, norms: seq<nat>) {
    && k <= BlockCount(|docs|) && |skips| == k
    && (k > 0 ==> skips[0].byteOffset == 0) && (k == 0 ==> output == [])
    && forall i :: 0 <= i < k ==> IsNode(output, skips, i, docs, norms)
  }

  method Compress(docs: seq<nat>, norms: seq<nat>) returns (output: seq<byte>, skips: seq<SkipNode>)
    requires U32s(docs) && U32s(norms)
    ensures Compressed(output, skips, BlockCount(|docs|), docs, norms)
  {
    output, skips := [], [];
    var i := 0;
    while i < |docs|
      invariant i <= |docs| && i == Min(BLOCK_SIZE * |skips|, |docs|)
      invariant Compressed(output, skips, |skips|, docs, norms)
    {
      var blkIdx := |skips|;
      var blockEnd := Min(i + BLOCK_SIZE, |docs|);
      var blockDocs := docs[i..blockEnd];
      assert blockDocs == BlockDocs(docs, blkIdx);
      var offset := |output|;
      ghost var before, nodes := output, skips;
      output := CompressBlock(blockDocs, NormOf(norms, blkIdx), output);
      skips := skips + [SkipNode(blockDocs[|blockDocs| - 1], offset, NormOf(norms, blkIdx), |blockDocs|)];
      NodesKept(before, output, nodes, skips, docs, norms);
      i := blockEnd;
    }
  }

  lemma SliceOfPrefix<T>(s: seq<T>, n: nat, lo: nat, hi: nat)
    requires lo <= hi <= n <= |s|
    ensures s[..n][lo..hi] == s[lo..hi]
  {
  }

  lemma SliceOfSlice<T>(s: seq<T>, a: nat, b: nat, lo: nat, hi: nat)
    requires a <= b <= |s| && lo <= hi <= b - a
    ensures s[a..b][lo..hi] == s[a + lo..a + hi]
  {
    forall i | 0 <= i < hi - lo
      ensures s[a..b][lo..hi][i] == s[a + lo..a + hi][i]
    {
      assert s[a..b][lo..hi][i] == s[a..b][lo + i] == s[a + lo + i];
    }
  }

  lemma NodesKept(before: seq<byte>, output: seq<byte>, nodes: seq<SkipNode>, skips: seq<SkipNode>, docs: seq<nat>, norms: seq<nat>)
    requires Compressed(before, nodes, |nodes|, docs, norms) && |nodes| < BlockCount(|docs|)
    requires |before| <= |output| && output[..|before|] == before
    requires |skips| == |nodes| + 1 && skips[..|nodes|] == nodes
    requires var d, node := BlockDocs(docs, |nodes|), skips[|nodes|];
             && node == SkipNode(d[|d| - 1], |before|, NormOf(norms, |nodes|), |d|)
             && IsBlock(output[|before|..], d, NormOf(norms, |nodes|))
    ensures Compressed(output, skips, |skips|, docs, norms)
  {
    hide IsBlock;
    forall i | 0 <= i < |skips|
      ensures IsNode(output, skips, i, docs, norms)
    {
      if i < |nodes| {
        assert IsNode(before, nodes, i, docs, norms);
        assert skips[i] == nodes[i];
        assert i + 1 < |nodes| ==> skips[i + 1] == nodes[i + 1];
        assert BlockEnd(skips, i, |output|) == BlockEnd(nodes, i, |before|);
        var lo, hi := nodes[i].byteOffset, BlockEnd(nodes, i, |before|);
        SliceOfPrefix(output, |before|, lo, hi);
      } else {
        assert output[|before|..|output|] == output[|before|..];
      }
    }
    if |nodes| > 0 {
      assert skips[0] == nodes[0];
    }
  }

  // What the first k blocks hold together.
  lemma BlocksPrefix(docs: seq<nat>, k: nat)
    requires k < BlockCount(|docs|)
    ensures docs[..Min(BLOCK_SIZE * k, |docs|)] + BlockDocs(docs, k) == docs[..Min(BLOCK_SIZE * (k + 1), |docs|)]
  {
  }

  // Whole blocks are read until enough documents are there.
  method Decompress(data: seq<byte>, totalDocs: nat, ghost skips: seq<SkipNode>, ghost docs: seq<nat>, ghost norms: seq<nat>)
    returns (result: seq<nat>)
    requires Compressed(data, skips, BlockCount(|docs|), docs, norms)
    ensures result == docs[..Min(BLOCK_SIZE * BlockCount(totalDocs), |docs|)]
    ensures totalDocs == |docs| ==> result == docs
  {
    hide IsBlock, WellFormed, BlockByteSize, IsNode, BlockDocs, Decoded;
    result := [];
    var offset := 0;
    ghost var k := 0;
    NodeFits(data, skips, docs, norms, k);
    while offset < |data| && |result| < totalDocs
      invariant k <= BlockCount(|docs|) && offset <= |data|
      invariant k < BlockCount(|docs|) ==> offset == skips[k].byteOffset < |data|
      invariant k == BlockCount(|docs|) ==> offset == |data|
      invariant result == docs[..Min(BLOCK_SIZE * k, |docs|)]
      invariant k > 0 ==> BLOCK_SIZE * (k - 1) < totalDocs
      decreases |data| - offset
    {
      NodeFits(data, skips, docs, norms, k);
      var consumed;
      result, consumed := DecompressBlock(data[offset..], result);
      BlocksPrefix(docs, k);
      offset := offset + consumed;
      k := k + 1;
      NodeFits(data, skips, docs, norms, k);
    }
  }

  // What reading at the k-th node finds.
  lemma NodeFits(data: seq<byte>, skips: seq<SkipNode>, docs: seq<nat>, norms: seq<nat>, k: nat)
    requires Compressed(data, skips, BlockCount(|docs|), docs, norms)
    ensures k < BlockCount(|docs|) ==>
              var lo, hi := skips[k].byteOffset, BlockEnd(skips, k, |data|);
              && lo + HEADER_SIZE <= hi <= |data| && BlockByteSize(data[lo..]) == hi - lo
              && data[lo..][..hi - lo] == data[lo..hi] && WellFormed(data[lo..hi])
              && Decoded(data[lo..hi]) == BlockDocs(docs, k)
  {
    hide IsBlock, WellFormed, Decoded, BlockByteSize, BlockDocs;
    if k < BlockCount(|docs|) {
      assert IsNode(data, skips, k, docs, norms);
      BlockFits(data, skips[k].byteOffset, BlockEnd(skips, k, |data|), BlockDocs(docs, k), NormOf(norms, k));
    }
  }

  // Reading at a block's start sees exactly that block.
  lemma BlockFits(data: seq<byte>, lo: nat, hi: nat, docs: seq<nat>, score: nat)
    requires lo <= hi <= |data| && docs != [] && IsBlock(data[lo..hi], docs, score)
    ensures lo + HEADER_SIZE <= hi && BlockByteSize(data[lo..]) == hi - lo
    ensures data[lo..][..hi - lo] == data[lo..hi] && WellFormed(data[lo..hi]) && Decoded(data[lo..hi]) == docs
  {
    hide LaidOut, Decoded, Get32, BytesFor;
    var block := data[lo..hi];
    assert data[lo..][..hi - lo] == block;
    assert data[lo..][0] == block[0] && data[lo..][1] == block[1] && data[lo..][2] == block[2];
  }
}
