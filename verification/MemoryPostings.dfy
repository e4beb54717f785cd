// The cursor over a posting list that was read out of a memory segment.
module MemoryPostings {
  import opened Prelude
  import opened Sorting

  // The i-th frequency; a missing one counts as 1.
  function TfAt(tfs: seq<nat>, i: nat): nat {
    if i < |tfs| then tfs[i] else 1
  }

  // The frequency stored beside document d.
  ghost function TfOf(docs: seq<DocId>, tfs: seq<nat>, d: DocId): nat {
    if i :| 0 <= i < |docs| && docs[i] == d then TfAt(tfs, i) else 1
  }

  ghost predicate PostingDocs(docs: seq<DocId>) {
    Ascending(docs) && forall i :: 0 <= i < |docs| ==> docs[i] < INVALID_DOC
  }

  class MemoryPostingIterator {
    const docs: seq<DocId>
    const tfs: seq<nat>
    const upperBound: real
    var pos: nat          // one past the current document
    var curDoc: DocId
    var curTf: nat

    ghost predicate Valid()
      reads this
    {
      && PostingDocs(docs)
      && pos <= |docs|
      && (curDoc != INVALID_DOC ==> 1 <= pos && curDoc == docs[pos - 1] && curTf == TfAt(tfs, pos - 1))
    }

    // The documents still to come, the current one included.
    ghost function Rem(): (r: set<DocId>)
      requires Valid()
      reads this
      ensures AtMin(curDoc, r)
    {
      if curDoc == INVALID_DOC then {} else Tail(docs, pos - 1)
    }

    constructor (docs: seq<DocId>, tfs: seq<nat>, upperBound: real)
      requires PostingDocs(docs)
      ensures Valid() && this.docs == docs && this.tfs == tfs && this.upperBound == upperBound
      ensures Rem() == Tail(docs, 0)
    {
      this.docs, this.tfs, this.upperBound := docs, tfs, upperBound;
      if docs == [] {
        pos, curDoc, curTf := 0, INVALID_DOC, 1;
      } else {
        pos, curDoc, curTf := 1, docs[0], TfAt(tfs, 0);
      }
    }

    // A live cursor gives up its document and moves to the next. A cursor
    // that a failed Advance ended still has its old position, and is revived.
    method Next() returns (ok: bool)
      requires Valid()
      modifies this
      ensures Valid()
      ensures ok == (old(pos) < |docs|) == (curDoc != INVALID_DOC)
      ensures old(curDoc) != INVALID_DOC ==> Rem() == old(Rem()) - {old(curDoc)}
      ensures old(curDoc) == INVALID_DOC ==> Rem() == Tail(docs, old(pos))
    {
      if pos >= |docs| {
        curDoc := INVALID_DOC;
        return false;
      }
      if curDoc != INVALID_DOC {
        TailStep(docs, pos - 1);
      }
      curDoc := docs[pos];
      curTf := TfAt(tfs, pos);
      pos := pos + 1;
      return true;
    }

    method Advance(target: DocId) returns (ok: bool)
      requires Valid()
      modifies this
      ensures Valid()
      ensures Rem() == From(old(Rem()), target)
      ensures ok == (curDoc != INVALID_DOC)
      ensures curDoc == INVALID_DOC ==> pos == old(pos)
    {
      if curDoc == INVALID_DOC { return false; }
      if curDoc >= target { return true; }
      TailStep(docs, pos - 1);
      var idx := LowerBound(docs, pos, target);
      if idx == |docs| {
        curDoc := INVALID_DOC;
        return false;
      }
      pos := idx;
      curDoc := docs[pos];
      curTf := TfAt(tfs, pos);
      pos := pos + 1;
      return true;
    }
  }

  // The frequency the cursor shows is the one that belongs to its document.
  lemma TfBelongs(docs: seq<DocId>, tfs: seq<nat>, i: nat)
    requires Ascending(docs) && i < |docs|
    ensures TfOf(docs, tfs, docs[i]) == TfAt(tfs, i)
  {
  }
}
