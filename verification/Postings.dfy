// The posting cursor interface: an empty list, a list read out of a memory
// segment, or a compressed list on disk, all seen as one ascending list with
// a frequency, a block bound and a block end per document.
module Postings {
  import opened Prelude
  import opened Sorting
  import opened MemoryPostings
  import opened DiskPostings
  import opened Bits
  import P = PForDelta

  // What a term's posting list says, whatever holds it.
  datatype PostingList = PostingList(docs: seq<DocId>, tf: DocId -> nat, blockMax: DocId -> real, blockEnd: DocId -> DocId)
  {
    ghost predicate Ok() {
      && PostingDocs(docs)
      && (forall d :: d in docs ==> blockMax(d) >= 0.0 && d <= blockEnd(d) < INVALID_DOC)
    }
  }

  ghost function EmptyList(): PostingList {
    PostingList([], (d: DocId) => 1, (d: DocId) => 0.0, (d: DocId) => INVALID_DOC)
  }

  // A list in memory is a single block.
  ghost function MemoryList(docs: seq<DocId>, tfs: seq<nat>, ub: real): PostingList {
    PostingList(docs, (d: DocId) => TfOf(docs, tfs, d), (d: DocId) => ub,
                (d: DocId) => if docs == [] then INVALID_DOC else docs[|docs| - 1])
  }

  ghost function IndexOf(docs: seq<DocId>, d: DocId): nat {
    if i: nat :| i < |docs| && docs[i] == d then i else |docs|
  }

  lemma IndexBack(docs: seq<DocId>, i: nat)
    requires Ascending(docs) && i < |docs|
    ensures IndexOf(docs, docs[i]) == i
  {
  }

  // The last document of the block that document i is in.
  function LastInBlock(docs: seq<DocId>, i: nat): DocId {
    var next := Start(i / P.BLOCK_SIZE + 1, |docs|);
    if next == 0 then INVALID_DOC else docs[next - 1]
  }

  // On disk the blocks are the 128-document blocks of the compressed list.
  ghost function DiskList(meta: TermMeta, docs: seq<DocId>, tfs: seq<byte>, norms: seq<nat>, f32: nat -> real): PostingList {
    PostingList(docs,
                (d: DocId) => var i := IndexOf(docs, d); if meta.tfDataOffset > 0 && i < |tfs| then tfs[i] else 1,
                (d: DocId) => f32(P.NormOf(norms, IndexOf(docs, d) / P.BLOCK_SIZE)),
                (d: DocId) => LastInBlock(docs, IndexOf(docs, d)))
  }

  // What the list on disk says of its i-th document: its own frequency byte,
  // or 1 without stored bytes; the norm of its block of 128; the last document
  // of that block.
  lemma DiskListAt(meta: TermMeta, docs: seq<DocId>, tfs: seq<byte>, norms: seq<nat>, f32: nat -> real, i: nat)
    requires Ascending(docs) && i < |docs| == |tfs|
    ensures var l := DiskList(meta, docs, tfs, norms, f32);
            && l.tf(docs[i]) == (if meta.tfDataOffset == 0 then 1 else tfs[i])
            && l.blockMax(docs[i]) == f32(if i / 128 < |norms| then norms[i / 128] else 0)
            && l.blockEnd(docs[i]) == docs[Min(i / 128 * 128 + 127, |docs| - 1)]
  {
    IndexBack(docs, i);
    assert P.NormOf(norms, i / 128) == if i / 128 < |norms| then norms[i / 128] else 0;
  }

  // In memory: its own frequency, the list's bound, the last document.
  lemma MemoryListAt(docs: seq<DocId>, tfs: seq<nat>, ub: real, i: nat)
    requires Ascending(docs) && i < |docs| == |tfs|
    ensures var l := MemoryList(docs, tfs, ub);
            l.tf(docs[i]) == tfs[i] && l.blockMax(docs[i]) == ub && l.blockEnd(docs[i]) == docs[|docs| - 1]
  {
    TfBelongs(docs, tfs, i);
  }

  ghost predicate NormsOk(norms: seq<nat>, f32: nat -> real) {
    f32(0) >= 0.0 && forall n :: n in norms ==> f32(n) >= 0.0
  }

  lemma MemoryOk(docs: seq<DocId>, tfs: seq<nat>, ub: real)
    requires PostingDocs(docs) && ub >= 0.0
    ensures MemoryList(docs, tfs, ub).Ok()
  {
  }

  lemma DiskOk(meta: TermMeta, docs: seq<DocId>, tfs: seq<byte>, norms: seq<nat>, f32: nat -> real)
    requires PostingDocs(docs) && NormsOk(norms, f32)
    ensures DiskList(meta, docs, tfs, norms, f32).Ok()
  {
    forall d | d in docs
      ensures d <= LastInBlock(docs, IndexOf(docs, d)) < INVALID_DOC
      ensures f32(P.NormOf(norms, IndexOf(docs, d) / P.BLOCK_SIZE)) >= 0.0
    {
      var i := IndexOf(docs, d);
      assert i < |docs| && docs[i] == d;
      assert i < Start(i / P.BLOCK_SIZE + 1, |docs|) <= |docs|;
    }
  }

  class PostingCursor {
    const mem: MemoryPostingIterator?
    const disk: PostingIterator?
    const f32: nat -> real
    ghost const list: PostingList

    ghost predicate Valid()
      reads this, mem, disk
    {
      && list.Ok()
      && (mem == null || disk == null)
      && (mem == null && disk == null ==> list == EmptyList())
      && (mem != null ==> mem.Valid() && list == MemoryList(mem.docs, mem.tfs, mem.upperBound))
      && (disk != null ==> disk.Valid() && list == DiskList(disk.meta, disk.docs, disk.tfs, disk.norms, f32))
    }

    ghost function Repr(): set<object> {
      {this} + (if mem == null then {} else {mem}) + (if disk == null then {} else {disk})
    }

    // The documents still to come, the current one included.
    ghost function Rem(): (r: set<DocId>)
      requires Valid()
      reads this, mem, disk
      ensures AtMin(Doc(), r)
    {
      if mem != null then mem.Rem()
      else if disk != null then disk.AtFirst(); disk.Rem()
      else {}
    }

    lemma RemInList()
      requires Valid()
      ensures list.Ok() && forall d :: d in Rem() ==> d in list.docs
    {
    }

    function Doc(): DocId
      reads this, mem, disk
    {
      if mem != null then mem.curDoc else if disk != null then disk.curDoc else INVALID_DOC
    }

    constructor Empty()
      ensures Valid() && Rem() == {} && fresh(Repr()) && list == EmptyList()
    {
      mem, disk, f32 := null, null, (n: nat) => 0.0;
      list := EmptyList();
    }

    constructor InMemory(iter: MemoryPostingIterator)
      requires iter.Valid() && iter.upperBound >= 0.0
      ensures Valid() && Rem() == iter.Rem() && fresh(Repr() - {iter})
      ensures list == MemoryList(iter.docs, iter.tfs, iter.upperBound)
    {
      mem, disk, f32 := iter, null, (n: nat) => 0.0;
      list := MemoryList(iter.docs, iter.tfs, iter.upperBound);
      MemoryOk(iter.docs, iter.tfs, iter.upperBound);
    }

    constructor OnDisk(iter: PostingIterator, f32: nat -> real)
      requires iter.Valid() && NormsOk(iter.norms, f32)
      ensures Valid() && Rem() == iter.Rem() && fresh(Repr() - {iter})
      ensures list == DiskList(iter.meta, iter.docs, iter.tfs, iter.norms, f32)
    {
      hide PostingIterator.Window, PostingIterator.Opened;
      mem, disk, this.f32 := null, iter, f32;
      list := DiskList(iter.meta, iter.docs, iter.tfs, iter.norms, f32);
      iter.Facts();
      DiskOk(iter.meta, iter.docs, iter.tfs, iter.norms, f32);
    }

    method Next() returns (ok: bool)
      requires Valid() && Doc() != INVALID_DOC
      modifies Repr()
      ensures Valid()
      ensures Rem() == old(Rem()) - {old(Doc())}
      ensures ok == (Doc() != INVALID_DOC)
    {
      hide PostingIterator.Window, PostingIterator.Opened;
      if mem != null {
        ok := mem.Next();
      } else {
        disk.Facts();
        disk.LiveFacts();
        TailStep(disk.docs, disk.Passed() - 1);
        ok := disk.Next();
      }
    }

    method Advance(target: DocId) returns (ok: bool)
      requires Valid()
      modifies Repr()
      ensures Valid()
      ensures Rem() == From(old(Rem()), target)
      ensures ok == (Doc() != INVALID_DOC)
    {
      hide PostingIterator.Window, PostingIterator.Opened;
      if mem != null {
        ok := mem.Advance(target);
      } else if disk != null {
        ok := disk.Advance(target);
      } else {
        ok := false;
      }
    }

    // The frequency that belongs to the current document.
    method Tf() returns (tf: nat)
      requires Valid() && Doc() != INVALID_DOC
      ensures tf == list.tf(Doc())
    {
      if mem != null {
        TfBelongs(mem.docs, mem.tfs, mem.pos - 1);
        tf := mem.curTf;
      } else {
        disk.LiveFacts();
        disk.Facts();
        IndexBack(disk.docs, disk.Passed() - 1);
        tf := disk.curTf;
      }
    }

    method BlockMaxScore() returns (b: real)
      requires Valid() && Doc() != INVALID_DOC
      ensures b == list.blockMax(Doc())
    {
      if mem != null {
        b := mem.upperBound;
      } else {
        disk.LiveFacts();
        disk.BlockFacts();
        IndexBack(disk.docs, disk.Passed() - 1);
        b := f32(disk.blockMaxScore);
      }
    }

    method BlockMaxDocId() returns (e: DocId)
      requires Valid() && Doc() != INVALID_DOC
      ensures e == list.blockEnd(Doc())
    {
      hide PostingIterator.Window, PostingIterator.Opened;
      if mem != null {
        e := mem.docs[|mem.docs| - 1];
      } else {
        disk.LiveFacts();
        disk.BlockFacts();
        IndexBack(disk.docs, disk.Passed() - 1);
        e := disk.curBlock[|disk.curBlock| - 1];
      }
    }
  }
}
