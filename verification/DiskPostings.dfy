// Posting lists on disk: how a term is laid out in a .doc file, and the lazy
// cursor that decodes one block at a time and jumps with the skip list.
module DiskPostings {
  import opened Prelude
  import opened Sorting
  import opened Bits
  import P = PForDelta
  import opened SkipLists
  import opened MemoryPostings

  datatype TermMeta = TermMeta(docFreq: nat, postingOffset: nat, skipOffset: nat, upperBound: nat, tfDataOffset: nat)

  // The term's skip list, compressed documents and frequency bytes are in
  // the file, where its metadata says.
  ghost predicate Written(file: seq<byte>, meta: TermMeta, docs: seq<DocId>, tfs: seq<byte>, norms: seq<nat>,
                          sl: SkipList, compressed: seq<byte>)
  {
    && PostingDocs(docs) && |tfs| == |docs| == meta.docFreq
    && sl.Valid() && sl.Writable() && P.Compressed(compressed, sl.level0, P.BlockCount(|docs|), docs, norms)
    && Holds(file, meta.skipOffset, sl.Bytes())
    && Holds(file, meta.postingOffset, compressed)
    && (meta.tfDataOffset > 0 ==> Holds(file, meta.tfDataOffset, tfs))
  }

  // ---------------------------------------------------------------- writing

  lemma {:induction false} AscendingAtLeast(docs: seq<DocId>, i: nat)
    requires Ascending(docs) && i < |docs|
    ensures docs[i] >= i
  {
    if i > 0 {
      AscendingAtLeast(docs, i - 1);
    }
  }

  // No block is larger than this, whatever its header says.
  const MAX_BLOCK: nat := 0x4000

  lemma BlockSizeBound(data: seq<byte>)
    requires |data| >= P.HEADER_SIZE
    ensures P.BlockByteSize(data) <= MAX_BLOCK
  {
    AtMostSquare(data[1], data[0]);
  }

  lemma {:induction false} AtMostSquare(n: byte, b: byte)
    ensures n * b <= 255 * b
    decreases 255 - n
  {
    if n < 255 {
      AtMostSquare(n + 1, b);
    }
  }

  lemma {:induction false} OffsetBound(output: seq<byte>, skips: seq<P.SkipNode>, docs: seq<nat>, norms: seq<nat>, i: nat)
    requires P.Compressed(output, skips, |skips|, docs, norms) && i < |skips|
    ensures skips[i].byteOffset <= MAX_BLOCK * i
  {
    if i > 0 {
      OffsetBound(output, skips, docs, norms, i - 1);
      assert P.IsNode(output, skips, i - 1, docs, norms);
      var block := output[skips[i - 1].byteOffset..P.BlockEnd(skips, i - 1, |output|)];
      BlockSizeBound(block);
    }
  }

  // Skip nodes of an ascending list are sorted and fit their fields.
  lemma NodesUsable(output: seq<byte>, skips: seq<P.SkipNode>, docs: seq<DocId>, norms: seq<nat>)
    requires PostingDocs(docs) && P.U32s(norms) && |skips| == P.BlockCount(|docs|)
    requires P.Compressed(output, skips, |skips|, docs, norms)
    ensures Sorted(skips) && |skips| <= MAX_U32 && forall n :: n in skips ==> InFields(n)
  {
    hide P.IsBlock;
    if docs != [] {
      AscendingAtLeast(docs, |docs| - 1);
    }
    forall i | 0 <= i < |skips|
      ensures InFields(skips[i])
    {
      assert P.IsNode(output, skips, i, docs, norms);
      OffsetBound(output, skips, docs, norms, i);
    }
    forall i, j | 0 <= i < j < |skips|
      ensures skips[i].maxDocId <= skips[j].maxDocId
    {
      assert P.IsNode(output, skips, i, docs, norms) && P.IsNode(output, skips, j, docs, norms);
    }
  }

  function SaturatedTf(tf: nat): byte {
    if tf < 255 then tf else 255
  }

  // A byte holds the frequency, or the most it can.
  lemma SaturatesAt255(tf: nat, b: byte)
    ensures SaturatedTf(tf) <= tf && (b <= tf ==> b <= SaturatedTf(tf))
  {
  }

  ghost function TfBytes(tfs: seq<nat>): (s: seq<byte>) {
    seq(|tfs|, i requires 0 <= i < |tfs| => SaturatedTf(tfs[i]))
  }

  method SaturateAll(tfs: seq<nat>) returns (s: seq<byte>)
    ensures s == TfBytes(tfs) && |s| == |tfs|
  {
    s := [];
    for i := 0 to |tfs|
      invariant |s| == i && forall j :: 0 <= j < i ==> s[j] == SaturatedTf(tfs[j])
    {
      s := s + [SaturatedTf(tfs[i])];
    }
  }

  // Append one term to a .doc file: skip list, blocks, one saturated
  // frequency byte per document.
  method WriteTerm(file: seq<byte>, docs: seq<DocId>, tfs: seq<nat>, norms: seq<nat>, upperBound: nat)
    returns (file': seq<byte>, meta: TermMeta, ghost sl: SkipList, ghost compressed: seq<byte>)
    requires PostingDocs(docs) && |tfs| == |docs| && P.U32s(norms)
    ensures |file| <= |file'| && file'[..|file|] == file
    ensures Written(file', meta, docs, TfBytes(tfs), norms, sl, compressed)
    ensures meta.tfDataOffset > 0 && meta.upperBound == upperBound
    ensures sl.Writable() && meta.skipOffset == |file| && meta.postingOffset == meta.skipOffset + |sl.Bytes()|
    ensures meta.tfDataOffset == meta.postingOffset + |compressed| && |file'| == meta.tfDataOffset + |tfs|
  {
    hide P.Compressed, TfBytes;
    var comp, skips := P.Compress(docs, norms);
    NodesUsable(comp, skips, docs, norms);
    var level1 := BuildLevel1(skips);
    var list := SkipList(skips, level1);
    Level1Fits(list);
    var slBytes := list.Serialize();
    var tfBytes := SaturateAll(tfs);
    hide SkipList.Bytes, SkipList.Valid, SkipList.Writable, InFields;
    file' := file + slBytes + comp + tfBytes;
    meta := TermMeta(|docs|, |file| + |slBytes|, |file|, upperBound, |file| + |slBytes| + |comp|);
    sl, compressed := list, comp;
    Appended(file, slBytes, comp, tfBytes);
  }

  lemma Appended(file: seq<byte>, a: seq<byte>, b: seq<byte>, c: seq<byte>)
    ensures var f := file + a + b + c;
            f[..|file|] == file && Holds(f, |file|, a) && Holds(f, |file| + |a|, b) && Holds(f, |file| + |a| + |b|, c)
  {
  }

  lemma {:induction false} MaxScoreFits(nodes: seq<P.SkipNode>)
    requires forall n :: n in nodes ==> InFields(n)
    ensures MaxScore(nodes) <= MAX_U32
  {
    if nodes != [] {
      assert nodes[|nodes| - 1] in nodes;
      MaxScoreFits(nodes[..|nodes| - 1]);
    }
  }

  lemma Level1Fits(sl: SkipList)
    requires sl.Valid() && |sl.level0| <= MAX_U32 && forall n :: n in sl.level0 ==> InFields(n)
    ensures sl.Writable()
  {
    forall g | 0 <= g < |sl.level1|
      ensures InFields(sl.level1[g])
    {
      assert IsGroup(sl.level0, g, sl.level1[g]);
      assert sl.level0[LastOf(|sl.level0|, g)] in sl.level0 && sl.level0[SKIP_INTERVAL * g] in sl.level0;
      MaxScoreFits(sl.level0[SKIP_INTERVAL * g..LastOf(|sl.level0|, g) + 1]);
    }
  }

  // Terms written later do not disturb the ones before.
  lemma WrittenKept(file: seq<byte>, file': seq<byte>, meta: TermMeta, docs: seq<DocId>, tfs: seq<byte>, norms: seq<nat>,
                    sl: SkipList, compressed: seq<byte>)
    requires Written(file, meta, docs, tfs, norms, sl, compressed)
    requires |file| <= |file'| && file'[..|file|] == file
    ensures Written(file', meta, docs, tfs, norms, sl, compressed)
  {
    HoldsKept(file, file', meta.skipOffset, sl.Bytes());
    HoldsKept(file, file', meta.postingOffset, compressed);
    if meta.tfDataOffset > 0 {
      HoldsKept(file, file', meta.tfDataOffset, tfs);
    }
  }

  lemma HoldsKept(file: seq<byte>, file': seq<byte>, at: nat, part: seq<byte>)
    requires Holds(file, at, part) && |file| <= |file'| && file'[..|file|] == file
    ensures Holds(file', at, part)
  {
  }

  // ---------------------------------------------------------------- reading

  // How many documents the first k blocks hold.
  function Start(k: nat, n: nat): nat {
    Min(P.BLOCK_SIZE * k, n)
  }

  // While blocks remain, the next one starts where the ones before are full.
  lemma NextStart(k: nat, n: nat)
    ensures Start(k, n) <= n
    ensures k < P.BlockCount(n) ==> Start(k, n) == P.BLOCK_SIZE * k < Start(k + 1, n) <= n
    ensures k == P.BlockCount(n) ==> Start(k, n) == n
  {
  }

  lemma FirstStart()
    ensures forall n: nat :: Start(0, n) == 0
  {
  }

  // What opening a term relies on: its sizes, its frequency bytes, and that
  // the first block comes first.
  lemma WrittenFacts(file: seq<byte>, meta: TermMeta, docs: seq<DocId>, tfs: seq<byte>, norms: seq<nat>,
                     sl: SkipList, compressed: seq<byte>)
    requires Written(file, meta, docs, tfs, norms, sl, compressed)
    ensures meta.docFreq == |docs| == |tfs| && |sl.level0| == P.BlockCount(|docs|)
    ensures sl.Writable() && Holds(file, meta.skipOffset, sl.Bytes())
    ensures meta.tfDataOffset > 0 ==> Holds(file, meta.tfDataOffset, tfs)
    ensures sl.level0 != [] ==> sl.level0[0].byteOffset == 0
  {
    hide SkipList.Valid, SkipList.Bytes, SkipList.Writable;
    if sl.level0 != [] {
      assert P.IsNode(compressed, sl.level0, 0, docs, norms);
    }
  }

  // The index of the last of p documents.
  function Before(p: int): nat {
    if p > 0 then p - 1 else 0
  }

  class PostingIterator {
    const file: seq<byte>
    const meta: TermMeta
    var filePos: nat
    var skipList: SkipList
    var remaining: nat
    var curBlockIdx: nat        // blocks loaded or jumped over so far
    var curBlock: seq<DocId>
    var curPos: nat             // one past the current document in curBlock
    var curDoc: DocId
    var curTf: nat
    var blockMaxScore: nat
    var allTfs: seq<byte>
    var curTfBlock: seq<byte>

    ghost const docs: seq<DocId>
    ghost const tfs: seq<byte>
    ghost const norms: seq<nat>
    ghost const compressed: seq<byte>

    // Frequency of the i-th document: its byte, or 1 without stored bytes.
    ghost function TfOfIndex(i: nat): nat
      requires i < |docs| == |tfs|
    {
      if meta.tfDataOffset > 0 then tfs[i] else 1
    }

    // What construction fixes for good.
    ghost predicate Opened()
      reads this
    {
      && Written(file, meta, docs, tfs, norms, skipList, compressed)
      && allTfs == (if meta.tfDataOffset > 0 then tfs else [])
    }

    // The block window: the next block to read is curBlockIdx, and curBlock is
    // the one before it, unless it has just been dropped for a jump.
    ghost predicate Window()
      requires Opened()
      reads this
    {
      && curBlockIdx <= P.BlockCount(|docs|)
      && remaining == |docs| - Start(curBlockIdx, |docs|)
      && (curBlockIdx < P.BlockCount(|docs|) ==>
            filePos == meta.postingOffset + skipList.level0[curBlockIdx].byteOffset)
      && curPos <= |curBlock|
      && (curBlock != [] ==>
            && curBlockIdx > 0 && curBlock == P.BlockDocs(docs, curBlockIdx - 1)
            && blockMaxScore == P.NormOf(norms, curBlockIdx - 1)
            && curTfBlock == (if meta.tfDataOffset > 0 then P.BlockDocs(tfs, curBlockIdx - 1) else []))
    }

    // Documents passed: everything before the current block and its first
    // curPos documents.
    ghost function Passed(): int
      reads this
    {
      if curBlock == [] then Start(curBlockIdx, |docs|) else P.BLOCK_SIZE * (curBlockIdx - 1) + curPos
    }

    ghost predicate Valid()
      reads this
    {
      && Opened() && Window()
      && (curDoc != INVALID_DOC ==>
            curPos > 0 && curDoc == curBlock[curPos - 1] && curTf == TfOfIndex(Passed() - 1))
      && (curDoc == INVALID_DOC ==> Passed() == |docs|)
    }

    // The documents still to come, the current one included.
    ghost function Rem(): set<DocId>
      requires Valid()
      reads this
    {
      if curDoc == INVALID_DOC then {} else Tail(docs, Before(Passed()))
    }

    // The cursor stands on the first of them.
    lemma AtFirst()
      requires Valid()
      ensures AtMin(curDoc, Rem())
    {
      hide Window, Written;
      if curDoc != INVALID_DOC {
        LiveFacts();
        Facts();
      }
    }

    lemma Facts()
      requires Opened()
      ensures PostingDocs(docs) && |tfs| == |docs| && |skipList.level0| == P.BlockCount(|docs|)
      ensures |allTfs| == if meta.tfDataOffset > 0 then |docs| else 0
    {
    }

    // Opens the term's list and moves to its first document.
    constructor (file: seq<byte>, meta: TermMeta, ghost docs: seq<DocId>, ghost tfs: seq<byte>, ghost norms: seq<nat>,
                 ghost sl: SkipList, ghost compressed: seq<byte>)
      requires Written(file, meta, docs, tfs, norms, sl, compressed)
      ensures Valid() && Rem() == Tail(docs, 0)
      ensures this.file == file && this.meta == meta && this.docs == docs && this.tfs == tfs && this.norms == norms
    {
      this.file, this.meta := file, meta;
      hide Written, PostingDocs;
      this.docs, this.tfs, this.norms, this.compressed := docs, tfs, norms, compressed;
      WrittenFacts(file, meta, docs, tfs, norms, sl, compressed);
      var list := ReadSkipList(file, meta, sl);
      this.skipList := list;
      this.allTfs := if meta.tfDataOffset > 0 && meta.docFreq > 0 then file[meta.tfDataOffset..meta.tfDataOffset + meta.docFreq] else [];
      this.remaining, this.filePos := meta.docFreq, meta.postingOffset;
      this.curBlockIdx, this.curPos, this.curBlock, this.curTfBlock := 0, 0, [], [];
      this.curDoc, this.curTf, this.blockMaxScore := INVALID_DOC, 1, 0;
      new;
      var ok := Next();
    }

    // Reads the next block off the file: its documents and how many bytes it took.
    method ReadBlock() returns (block: seq<DocId>, size: nat, consumed: nat)
      requires Opened() && Window() && curBlockIdx < P.BlockCount(|docs|)
      ensures block == P.BlockDocs(docs, curBlockIdx) && block != []
      ensures size == |block| == Start(curBlockIdx + 1, |docs|) - Start(curBlockIdx, |docs|)
      ensures |skipList.level0| == P.BlockCount(|docs|)
      ensures skipList.level0[curBlockIdx].maxScore == P.NormOf(norms, curBlockIdx)
      ensures curBlockIdx + 1 < P.BlockCount(|docs|) ==>
                filePos + consumed == meta.postingOffset + skipList.level0[curBlockIdx + 1].byteOffset
    {
      hide Written, P.Decoded, P.WellFormed, P.BlockByteSize;
      NodeOnDisk(file, meta, docs, tfs, norms, skipList, compressed, curBlockIdx);
      var n := P.BlockByteSize(file[filePos..]);
      var blockData := file[filePos..filePos + n];
      assert blockData[..P.BlockByteSize(blockData)] == blockData;
      block, consumed := P.DecompressBlock(blockData, []);
      size := blockData[1];
    }

    // Loads the next block; false when no document remains.
    method LoadNextBlock() returns (ok: bool)
      requires Opened() && Window() && curPos == |curBlock|
      modifies this
      ensures Opened() && Window()
      ensures Passed() == old(Passed()) && ok == (Passed() < |docs|)
      ensures if ok then curBlock != [] && curPos == 0 && curDoc == old(curDoc) else curDoc == INVALID_DOC
      ensures ok ==> curBlockIdx == old(curBlockIdx) + 1
    {
      hide Written, P.BlockDocs, TfBlock, Start, P.BlockCount, PostingDocs, P.NormOf, P.Decoded, P.IsBlock, SkipList.Valid;
      PassedBlock();
      Facts();
      NextStart(curBlockIdx, |docs|);
      if remaining == 0 {
        curDoc := INVALID_DOC;
        return false;
      }
      TfBlockIs(docs, tfs, curBlockIdx);
      var block, size, consumed := ReadBlock();
      filePos, remaining := filePos + consumed, remaining - Min(remaining, size);
      blockMaxScore, curTfBlock := NodeScore(skipList.level0, curBlockIdx), TfBlock(allTfs, curBlockIdx, |block|);
      curBlock, curBlockIdx, curPos := block, curBlockIdx + 1, 0;
      return true;
    }

    // The next document, across a block boundary if need be.
    method Next() returns (ok: bool)
      requires Opened() && Window()
      modifies this
      ensures Valid() && ok == (old(Passed()) < |docs|) == (curDoc != INVALID_DOC)
      ensures ok ==> Passed() == old(Passed()) + 1 && curDoc == docs[old(Passed())]
    {
      hide Written;
      Facts();
      if curPos == |curBlock| {
        ok := LoadNextBlock();
        if !ok { return false; }
      }
      PickCurrent();
      return true;
    }

    // First document at or after target in the rest of the current block.
    method ScanBlock(target: DocId) returns (ok: bool)
      requires Opened() && Window() && curBlock != []
      modifies this
      ensures Opened() && Window() && curBlock == old(curBlock) && curBlockIdx == old(curBlockIdx)
      ensures old(Passed()) <= Passed() <= |docs|
      ensures ok ==> Valid() && curDoc != INVALID_DOC && target <= curDoc && old(Passed()) < Passed()
      ensures ok ==> forall i :: old(Passed()) <= i < Passed() - 1 ==> docs[i] < target
      ensures !ok ==> curPos == |curBlock| && forall i :: old(Passed()) <= i < Passed() ==> docs[i] < target
    {
      hide Written, P.BlockDocs;
      InBlock();
      var idx := LowerBound(curBlock, curPos, target);
      ghost var base := P.BLOCK_SIZE * (curBlockIdx - 1);
      BlockScanned(base, curBlock, curPos, idx, target);
      curPos := idx;
      if idx == |curBlock| { return false; }
      PickCurrent();
      return true;
    }

    // Block after block until one holds a document at or after target.
    method ScanForward(target: DocId) returns (ok: bool)
      requires Opened() && Window() && curPos == |curBlock|
      modifies this
      ensures Valid() && ok == (curDoc != INVALID_DOC)
      ensures old(Passed()) <= Passed() && (ok ==> target <= curDoc && old(Passed()) < Passed())
      ensures forall i :: old(Passed()) <= i < (if ok then Passed() - 1 else |docs|) ==> docs[i] < target
    {
      hide Written;
      while true
        invariant Opened() && Window() && curPos == |curBlock|
        invariant old(Passed()) <= Passed() && forall i :: old(Passed()) <= i < Passed() ==> docs[i] < target
        decreases P.BlockCount(|docs|) - curBlockIdx
      {
        ok := LoadNextBlock();
        if !ok { return false; }
        ok := ScanBlock(target);
        if ok { return true; }
      }
    }

    // The current block is behind us: let the skip list choose the block to
    // go on with, or go on with the next one when it knows none further on.
    method SeekToBlock(target: DocId) returns (ok: bool)
      requires Opened() && Window() && curPos == |curBlock|
      modifies this
      ensures Valid() && ok == (curDoc != INVALID_DOC)
      ensures old(Passed()) <= Passed() && (ok ==> target <= curDoc && old(Passed()) < Passed())
      ensures forall i :: old(Passed()) <= i < (if ok then Passed() - 1 else |docs|) ==> docs[i] < target
    {
      hide Written;
      SkipFacts();
      var result := skipList.Find(target);
      if result.Found? && curBlockIdx <= result.blockIndex {
        var k := result.blockIndex;
        BlocksBefore(k, target);
        var docsBefore := DocsBefore(k);
        remaining := Remaining(meta.docFreq, docsBefore);
        curBlock, curBlockIdx, curPos, filePos := [], k, 0, meta.postingOffset + result.byteOffset;
        assert Passed() == Start(k, |docs|);
      }
      ok := ScanForward(target);
    }

    lemma SkipFacts()
      requires Opened()
      ensures skipList.Valid() && |skipList.level0| == P.BlockCount(|docs|) && meta.docFreq == |docs|
    {
    }

    // Documents of blocks whose largest document is before target.
    lemma BlocksBefore(k: nat, target: DocId)
      requires Opened() && Window() && curPos == |curBlock|
      requires curBlockIdx <= k < P.BlockCount(|docs|) == |skipList.level0|
      requires forall i :: 0 <= i < k ==> skipList.level0[i].maxDocId < target
      ensures Passed() == Start(curBlockIdx, |docs|) <= Start(k, |docs|) < |docs|
      ensures forall i :: Passed() <= i < Start(k, |docs|) ==> docs[i] < target
    {
      hide P.IsBlock;
      forall i | Passed() <= i < Start(k, |docs|)
        ensures docs[i] < target
      {
        assert P.IsNode(compressed, skipList.level0, i / P.BLOCK_SIZE, docs, norms);
        InsideBlock(docs, i);
      }
    }

    lemma NodeCount(i: nat)
      requires Opened() && i < |skipList.level0| == P.BlockCount(|docs|)
      ensures skipList.level0[i].docCount == Start(i + 1, |docs|) - Start(i, |docs|)
    {
      assert P.IsNode(compressed, skipList.level0, i, docs, norms);
    }

    method DocsBefore(k: nat) returns (n: nat)
      requires Opened() && k <= |skipList.level0| == P.BlockCount(|docs|)
      ensures n == Start(k, |docs|)
    {
      hide Opened, Start;
      FirstStart();
      n := 0;
      for i := 0 to k
        invariant n == Start(i, |docs|)
      {
        NodeCount(i);
        n := n + skipList.level0[i].docCount;
      }
    }

    method Advance(target: DocId) returns (ok: bool)
      requires Valid()
      modifies this
      ensures Valid()
      ensures Rem() == From(old(Rem()), target)
      ensures ok == (curDoc != INVALID_DOC)
    {
      hide Written, Window;
      if curDoc == INVALID_DOC { return false; }
      Facts();
      LiveFacts();
      if curDoc >= target {
        Landed(docs, Passed() - 1, Passed() - 1, target);
        return true;
      }
      ghost var at := Passed() - 1;
      ok := ScanBlock(target);
      if !ok {
        ok := SeekToBlock(target);
      }
      if ok {
        LiveFacts();
      }
      Landed(docs, at, if ok then Passed() - 1 else |docs|, target);
    }

    lemma PassedBlock()
      requires Opened() && Window() && curPos == |curBlock|
      ensures Passed() == Start(curBlockIdx, |docs|)
    {
      hide Written;
    }

    lemma LiveFacts()
      requires Valid() && curDoc != INVALID_DOC
      ensures curBlock != [] && 0 < Passed() <= |docs| && curDoc == docs[Passed() - 1]
    {
      hide Written;
      InBlock();
    }

    // The bound and the end of the block the current document is in.
    lemma BlockFacts()
      requires Valid() && curDoc != INVALID_DOC
      ensures PostingDocs(docs) && curBlock != [] && 0 < Passed() <= |docs|
      ensures var k := (Passed() - 1) / P.BLOCK_SIZE;
              && blockMaxScore == P.NormOf(norms, k)
              && 0 < Start(k + 1, |docs|) <= |docs| && curBlock[|curBlock| - 1] == docs[Start(k + 1, |docs|) - 1]
    {
      hide Written, P.BlockDocs;
      Facts();
      BlockNumber(curBlockIdx - 1, curPos);
      LastOfBlock(docs, curBlockIdx - 1);
      LiveFacts();
    }

    // The current block is a window on the list.
    lemma InBlock()
      requires Opened() && Window() && curBlock != []
      ensures IsWindow(P.BLOCK_SIZE * (curBlockIdx - 1), curBlock) && Ascending(curBlock)
    {
      hide Written;
      Facts();
      ghost var base := P.BLOCK_SIZE * (curBlockIdx - 1);
      assert IsWindow(base, curBlock);
      forall i, j | 0 <= i < j < |curBlock|
        ensures curBlock[i] < curBlock[j]
      {
        assert curBlock[i] == docs[base + i] && curBlock[j] == docs[base + j];
      }
    }

    ghost predicate IsWindow(base: int, block: seq<DocId>) {
      0 <= base && base + |block| <= |docs| && forall i :: 0 <= i < |block| ==> block[i] == docs[base + i]
    }

    lemma BlockScanned(base: int, block: seq<DocId>, from: nat, idx: nat, target: DocId)
      requires IsWindow(base, block) && from <= idx <= |block|
      requires forall i :: from <= i < idx ==> block[i] < target
      ensures forall i :: base + from <= i < base + idx ==> docs[i] < target
    {
      forall i | base + from <= i < base + idx
        ensures docs[i] < target
      {
        assert block[i - base] == docs[i];
      }
    }

    // The frequency byte at curPos belongs to the document at curPos.
    lemma TfInBlock()
      requires Opened() && Window() && curPos < |curBlock|
      ensures |docs| == |tfs| && 0 <= Passed() < |docs|
      ensures (if curPos < |curTfBlock| then curTfBlock[curPos] else 1) == TfOfIndex(Passed())
    {
      hide Written;
      Facts();
    }

    // The document at curPos becomes the current one.
    method PickCurrent()
      requires Opened() && Window() && curPos < |curBlock|
      modifies this`curTf, this`curDoc, this`curPos
      ensures Valid() && curDoc != INVALID_DOC
      ensures Passed() == old(Passed()) + 1 && curDoc == docs[old(Passed())]
    {
      hide Written, P.BlockDocs;
      Facts();
      InBlock();
      TfInBlock();
      curTf := if curPos < |curTfBlock| then curTfBlock[curPos] else 1;
      curDoc := curBlock[curPos];
      curPos := curPos + 1;
    }
  }

  lemma LastOfBlock(docs: seq<DocId>, k: nat)
    requires k < P.BlockCount(|docs|)
    ensures 0 < Start(k + 1, |docs|) <= |docs|
    ensures var d := P.BlockDocs(docs, k); d[|d| - 1] == docs[Start(k + 1, |docs|) - 1]
  {
  }

  lemma BlockNumber(k: nat, pos: nat)
    requires 0 < pos <= P.BLOCK_SIZE
    ensures (P.BLOCK_SIZE * k + pos - 1) / P.BLOCK_SIZE == k
  {
  }

  // Document i is at most the last one of its block.
  lemma InsideBlock(docs: seq<DocId>, i: nat)
    requires i < |docs| && Ascending(docs)
    ensures i / P.BLOCK_SIZE < P.BlockCount(|docs|)
    ensures var d := P.BlockDocs(docs, i / P.BLOCK_SIZE); docs[i] <= d[|d| - 1]
  {
  }

  // The frequency bytes that belong to block k.
  function TfBlock(allTfs: seq<byte>, k: nat, size: nat): seq<byte> {
    var start := k * P.BLOCK_SIZE;
    if start < |allTfs| then allTfs[start..start + Min(size, |allTfs| - start)] else []
  }

  function Remaining(docFreq: nat, docsBefore: nat): nat {
    if docFreq > docsBefore then docFreq - docsBefore else 0
  }

  // A cursor moved over documents before target and no others.
  lemma Landed(docs: seq<DocId>, from: int, to: int, target: DocId)
    requires Ascending(docs) && 0 <= from <= to <= |docs|
    requires forall i :: from <= i < to ==> docs[i] < target
    requires to < |docs| ==> target <= docs[to]
    ensures Tail(docs, to) == From(Tail(docs, from), target)
  {
  }

  // The stored score of block k; 0 beyond the list.
  function NodeScore(nodes: seq<P.SkipNode>, k: nat): nat {
    if k < |nodes| then nodes[k].maxScore else 0
  }

  lemma TfBlockIs(docs: seq<DocId>, tfs: seq<byte>, k: nat)
    requires |docs| == |tfs|
    ensures k < P.BlockCount(|docs|) ==> TfBlock(tfs, k, |P.BlockDocs(docs, k)|) == P.BlockDocs(tfs, k)
    ensures forall n: nat :: TfBlock([], k, n) == []
  {
  }

  method ReadSkipList(file: seq<byte>, meta: TermMeta, ghost sl: SkipList) returns (list: SkipList)
    requires sl.Writable() && Holds(file, meta.skipOffset, sl.Bytes())
    ensures list == sl
  {
    ghost var part := sl.Bytes();
    var l0c, l1c := Get32(file, meta.skipOffset), Get32(file, meta.skipOffset + 4);
    assert file[meta.skipOffset..meta.skipOffset + |part|][0..4] == part[0..4];
    CountsInBytes(sl);
    FieldInside(file, meta.skipOffset, part, 0);
    FieldInside(file, meta.skipOffset, part, 4);
    var buf := file[meta.skipOffset..meta.skipOffset + 8 + NODE_SIZE * (l0c + l1c)];
    assert buf == part;
    var r := Deserialize(buf);
    assert r == Ok(sl);
    list := r.value;
  }

  lemma CountsInBytes(sl: SkipList)
    requires sl.Writable()
    ensures Get32(sl.Bytes(), 0) == |sl.level0| && Get32(sl.Bytes(), 4) == |sl.level1|
    ensures SerializedSize(sl.Bytes()) == |sl.Bytes()|
  {
    hide NodesBytes;
    var post := NodesBytes(sl.level0) + NodesBytes(sl.level1);
    CountsBack(|sl.level0|, |sl.level1|, post);
    assert sl.Bytes() == Le32(|sl.level0|) + Le32(|sl.level1|) + post;
  }

  lemma FieldInside(file: seq<byte>, at: nat, part: seq<byte>, i: nat)
    requires Holds(file, at, part) && i + 4 <= |part|
    ensures Get32(file, at + i) == Get32(part, i)
  {
  }

  // What stands on disk where the k-th skip node points.
  lemma NodeOnDisk(file: seq<byte>, meta: TermMeta, docs: seq<DocId>, tfs: seq<byte>, norms: seq<nat>,
                   sl: SkipList, compressed: seq<byte>, k: nat)
    requires Written(file, meta, docs, tfs, norms, sl, compressed)
    ensures |sl.level0| == P.BlockCount(|docs|)
    ensures k < P.BlockCount(|docs|) ==>
              var at := meta.postingOffset + sl.level0[k].byteOffset;
              && at + P.HEADER_SIZE <= |file| && at + P.BlockByteSize(file[at..]) <= |file|
              && var block := file[at..at + P.BlockByteSize(file[at..])];
                 && P.BlockByteSize(block) == |block| && P.WellFormed(block)
                 && P.Decoded(block) == P.BlockDocs(docs, k) && block[1] == |P.BlockDocs(docs, k)|
                 && sl.level0[k].maxScore == P.NormOf(norms, k)
                 && (k + 1 < P.BlockCount(|docs|) ==> at + |block| == meta.postingOffset + sl.level0[k + 1].byteOffset)
  {
    hide P.Decoded, P.WellFormed, P.BlockByteSize, P.IsBlock, P.BlockDocs, TfBytes;
    if k < P.BlockCount(|docs|) {
      assert P.IsNode(compressed, sl.level0, k, docs, norms);
      P.NodeFits(compressed, sl.level0, docs, norms, k);
      var lo, hi := sl.level0[k].byteOffset, P.BlockEnd(sl.level0, k, |compressed|);
      BlockInFile(file, meta.postingOffset, compressed, lo, hi);
    }
  }

  lemma BlockInFile(file: seq<byte>, base: nat, compressed: seq<byte>, lo: nat, hi: nat)
    requires Holds(file, base, compressed) && lo + P.HEADER_SIZE <= hi <= |compressed|
    requires P.BlockByteSize(compressed[lo..]) == hi - lo
    ensures file[base + lo..base + hi] == compressed[lo..hi]
    ensures base + hi <= |file| && P.BlockByteSize(file[base + lo..]) == hi - lo
    ensures P.BlockByteSize(compressed[lo..hi]) == hi - lo
    ensures P.WellFormed(compressed[lo..hi]) ==> compressed[lo..hi][1] == |P.Decoded(compressed[lo..hi])|
  {
    var whole := file[base..base + |compressed|];
    P.SliceOfSlice(file, base, base + |compressed|, lo, hi);
    assert whole[lo] == file[base + lo] && whole[lo + 1] == file[base + lo + 1] && whole[lo + 2] == file[base + lo + 2];
  }
}
