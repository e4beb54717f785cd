// Positions on disk: what a .pos file holds of a term, and the cursor that
// streams it into a merge.
module PosFiles {
  import opened Bits
  import opened MemoryPages

  // Per document its id, how many positions follow, and the positions.
  ghost function EntryWords(p: Posting): seq<nat> {
    [p.doc, |p.positions|] + p.positions
  }

  ghost function ListWords(ps: seq<Posting>): seq<nat> {
    if ps == [] then [] else ListWords(ps[..|ps| - 1]) + EntryWords(ps[|ps| - 1])
  }

  lemma WordsKept(file: seq<byte>, file': seq<byte>, at: nat, part: seq<nat>)
    requires WordsAt(file, at, part) && |file| <= |file'| && file'[..|file|] == file
    ensures WordsAt(file', at, part)
  {
    assert SameBytes(file, file', at, at + 4 * |part|) by {
      assert forall k :: 0 <= k < |file| ==> file'[..|file|][k] == file'[k];
    }
    WordsStay(file, file', at, part);
  }

  lemma WordsJoin(file: seq<byte>, at: nat, a: seq<nat>, b: seq<nat>)
    ensures WordsAt(file, at, a + b) <==> WordsAt(file, at, a) && WordsAt(file, at + 4 * |a|, b)
  {
    hide Get32;
    if WordsAt(file, at, a + b) {
      assert forall j :: 0 <= j < |a| ==> (a + b)[j] == a[j];
      forall j | 0 <= j < |b|
        ensures Get32(file, at + 4 * |a| + 4 * j) == b[j]
      {
        assert (a + b)[|a| + j] == b[j];
      }
    }
  }

  method AppendWord(file: seq<byte>, w: nat) returns (file': seq<byte>)
    requires w <= MAX_U32
    ensures |file'| == |file| + 4 && file'[..|file|] == file && WordsAt(file', |file|, [w])
  {
    file' := file + Le32(w);
    FieldsBack(w);
    WordHere(file, Le32(w));
  }

  lemma WordHere(file: seq<byte>, bytes: seq<byte>)
    requires |bytes| == 4
    ensures Get32(file + bytes, |file|) == Get32(bytes, 0)
  {
  }

  method AppendWords(file: seq<byte>, ws: seq<nat>) returns (file': seq<byte>)
    requires Words(ws)
    ensures |file'| == |file| + 4 * |ws| && file'[..|file|] == file && WordsAt(file', |file|, ws)
  {
    hide Get32;
    file' := file;
    for i := 0 to |ws|
      invariant |file'| == |file| + 4 * i && file'[..|file|] == file && WordsAt(file', |file|, ws[..i])
    {
      ghost var before := file';
      file' := AppendWord(file', ws[i]);
      WordsKept(before, file', |file|, ws[..i]);
      WordsJoin(file', |file|, ws[..i], [ws[i]]);
      assert ws[..i + 1] == ws[..i] + [ws[i]];
      assert file'[..|file|] == before[..|file|];
    }
    assert ws[..|ws|] == ws;
  }

  // Append a term's postings to a .pos file.
  method WritePositionList(file: seq<byte>, entries: seq<Posting>) returns (file': seq<byte>, at: nat)
    requires forall p :: p in entries ==> EntryFits(p)
    ensures at == |file| <= |file'| && file'[..|file|] == file
    ensures WordsAt(file', at, ListWords(entries))
  {
    hide Get32, WordsAt, EntryWords;
    file', at := file, |file|;
    NoWords(file);
    for i := 0 to |entries|
      invariant at <= |file'| && file'[..at] == file && |file'| == at + 4 * |ListWords(entries[..i])|
      invariant WordsAt(file', at, ListWords(entries[..i]))
    {
      ghost var before := file';
      EntryIsWords(entries[i]);
      assert EntryFits(entries[i]);
      file' := AppendWord(file', entries[i].doc);
      ghost var one := file';
      file' := AppendWord(file', |entries[i].positions|);
      ghost var two := file';
      file' := AppendWords(file', entries[i].positions);
      EntryWritten(before, one, two, file', entries[i]);
      Longer(file, before, one, at);
      Longer(file, one, two, at);
      Longer(file, two, file', at);
      WordsKept(before, file', at, ListWords(entries[..i]));
      WordsJoin(file', at, ListWords(entries[..i]), EntryWords(entries[i]));
      assert entries[..i + 1][..i] == entries[..i];
    }
    assert entries[..|entries|] == entries;
  }

  lemma NoWords(file: seq<byte>)
    ensures WordsAt(file, |file|, [])
  {
  }

  lemma EntryIsWords(p: Posting)
    ensures |EntryWords(p)| == |p.positions| + 2
  {
  }

  lemma Longer(file: seq<byte>, a: seq<byte>, b: seq<byte>, at: nat)
    requires at == |file| <= |a| <= |b| && a[..at] == file && b[..|a|] == a
    ensures b[..at] == file
  {
    assert b[..at] == b[..|a|][..at];
  }

  lemma EntryWritten(before: seq<byte>, one: seq<byte>, two: seq<byte>, after: seq<byte>, p: Posting)
    requires |one| == |before| + 4 && one[..|before|] == before && WordsAt(one, |before|, [p.doc])
    requires |two| == |one| + 4 && two[..|one|] == one && WordsAt(two, |one|, [|p.positions|])
    requires |after| >= |two| && after[..|two|] == two && WordsAt(after, |two|, p.positions)
    ensures after[..|before|] == before && WordsAt(after, |before|, EntryWords(p))
  {
    hide WordsAt;
    WordsKept(one, two, |before|, [p.doc]);
    WordsKept(two, after, |before|, [p.doc]);
    WordsKept(two, after, |one|, [|p.positions|]);
    WordsJoin(after, |before|, [p.doc], [|p.positions|]);
    assert [p.doc] + [|p.positions|] == [p.doc, |p.positions|];
    WordsJoin(after, |before|, [p.doc, |p.positions|], p.positions);
    assert after[..|before|] == after[..|two|][..|one|][..|before|];
  }

  // ---------------------------------------------------------------- reading

  // Streams a term's postings, one document at a time.
  class PosIterator {
    const file: seq<byte>
    var filePos: nat
    var remaining: nat        // documents not read yet
    var preloaded: bool       // is there a current document?
    var curDoc: nat
    var curTf: nat
    var curPositions: seq<nat>

    ghost const at: nat
    ghost const entries: seq<Posting>
    ghost var taken: bool     // the current positions have been moved out

    ghost predicate Valid()
      reads this
    {
      && remaining <= |entries| && WordsAt(file, at, ListWords(entries))
      && filePos == at + 4 * |ListWords(entries[..|entries| - remaining])|
      && (preloaded ==>
            && remaining < |entries|
            && curDoc == Current().doc && curTf == |Current().positions|
            && (!taken ==> curPositions == Current().positions))
      && (!preloaded ==> remaining == 0)
    }

    ghost function Current(): Posting
      requires remaining < |entries|
      reads this
    {
      entries[|entries| - remaining - 1]
    }

    // The postings still to come, the current one included.
    ghost function Rest(): seq<Posting>
      requires Valid()
      reads this
    {
      if preloaded then entries[|entries| - remaining - 1..] else []
    }

    constructor (file: seq<byte>, posOffset: nat, docFreq: nat, ghost entries: seq<Posting>)
      requires WordsAt(file, posOffset, ListWords(entries)) && docFreq == |entries|
      ensures Valid() && Rest() == entries && (preloaded ==> !taken)
      ensures this.file == file && this.entries == entries
    {
      this.file, this.filePos, this.remaining, this.preloaded := file, posOffset, docFreq, false;
      this.curDoc, this.curTf, this.curPositions := 0, 0, [];
      this.at, this.entries, this.taken := posOffset, entries, false;
      new;
      if docFreq != 0 {
        LoadNext();
      }
    }

    predicate IsEnd()
      reads this
    {
      remaining == 0 && !preloaded
    }

    lemma Loaded()
      requires Valid()
      ensures preloaded <==> !IsEnd()
      ensures IsEnd() <==> Rest() == []
    {
    }

    // Reads the next document's entry, if one remains.
    method LoadNext()
      requires remaining <= |entries| && WordsAt(file, at, ListWords(entries))
      requires filePos == at + 4 * |ListWords(entries[..|entries| - remaining])|
      modifies this
      ensures Valid() && Rest() == entries[|entries| - old(remaining)..] && !taken
      ensures preloaded == (old(remaining) > 0)
    {
      hide Get32, WordsAt, ListWords;
      taken := false;
      if remaining == 0 {
        preloaded := false;
        return;
      }
      ghost var n := |entries| - remaining;
      EntryThere(file, at, entries, n);
      remaining := remaining - 1;
      curDoc, curTf := ReadHead(file, filePos, entries[n]);
      curPositions := ReadWords(file, filePos + 8, curTf, entries[n].positions);
      filePos := filePos + 8 + 4 * curTf;
      preloaded := true;
    }

    method Next()
      requires Valid() && !IsEnd()
      modifies this
      ensures Valid() && Rest() == old(Rest())[1..] && !taken
    {
      LoadNext();
    }

    // Moves the current positions out; they are gone afterwards.
    method TakePositions() returns (positions: seq<nat>)
      requires Valid() && !IsEnd() && !taken
      modifies this`curPositions, this`taken
      ensures Valid() && taken && Rest() == old(Rest())
      ensures Rest() != [] && positions == Rest()[0].positions && curDoc == Rest()[0].doc && curTf == |positions|
    {
      positions := curPositions;
      curPositions, taken := [], true;
    }
  }

  // Where the n-th entry of a list stands.
  lemma EntryThere(file: seq<byte>, at: nat, entries: seq<Posting>, n: nat)
    requires n < |entries| && WordsAt(file, at, ListWords(entries))
    ensures var here := at + 4 * |ListWords(entries[..n])|;
            && WordsAt(file, here, EntryWords(entries[n]))
            && WordsAt(file, here, [entries[n].doc, |entries[n].positions|])
            && WordsAt(file, here + 8, entries[n].positions)
            && at + 4 * |ListWords(entries[..n + 1])| == here + 8 + 4 * |entries[n].positions|
  {
    hide WordsAt;
    ListPrefix(file, at, entries, n + 1);
    assert entries[..n + 1][..n] == entries[..n];
    WordsJoin(file, at, ListWords(entries[..n]), EntryWords(entries[n]));
    WordsJoin(file, at + 4 * |ListWords(entries[..n])|, [entries[n].doc, |entries[n].positions|], entries[n].positions);
  }

  lemma {:induction false} ListPrefix(file: seq<byte>, at: nat, entries: seq<Posting>, n: nat)
    requires n <= |entries| && WordsAt(file, at, ListWords(entries))
    ensures WordsAt(file, at, ListWords(entries[..n]))
    decreases |entries|
  {
    hide WordsAt;
    if n == |entries| {
      assert entries[..n] == entries;
    } else {
      var m := |entries| - 1;
      WordsJoin(file, at, ListWords(entries[..m]), EntryWords(entries[m]));
      ListPrefix(file, at, entries[..m], n);
      assert entries[..m][..n] == entries[..n];
    }
  }

  method ReadHead(file: seq<byte>, pos: nat, ghost p: Posting) returns (doc: nat, tf: nat)
    requires WordsAt(file, pos, [p.doc, |p.positions|])
    ensures doc == p.doc && tf == |p.positions|
  {
    hide Get32;
    ghost var ws := [p.doc, |p.positions|];
    assert Get32(file, pos + 4 * 0) == ws[0] && Get32(file, pos + 4 * 1) == ws[1];
    doc, tf := Get32(file, pos), Get32(file, pos + 4);
  }

  method ReadWords(file: seq<byte>, pos: nat, n: nat, ghost ws: seq<nat>) returns (words: seq<nat>)
    requires WordsAt(file, pos, ws) && n == |ws|
    ensures words == ws
  {
    hide Get32;
    words := [];
    for i := 0 to n
      invariant words == ws[..i]
    {
      words := words + [Get32(file, pos + 4 * i)];
    }
  }

  // Reading a written list back gives the postings in order.
  method ReadPositionList(file: seq<byte>, posOffset: nat, docFreq: nat, ghost entries: seq<Posting>) returns (out: seq<Posting>)
    requires WordsAt(file, posOffset, ListWords(entries)) && docFreq == |entries|
    ensures out == entries
  {
    hide WordsAt, ListWords, PosIterator.Valid;
    out := [];
    var iter := new PosIterator(file, posOffset, docFreq, entries);
    while !iter.IsEnd()
      invariant iter.Valid() && out + iter.Rest() == entries && (iter.preloaded ==> !iter.taken)
      decreases |iter.Rest()|
    {
      iter.Loaded();
      var doc := iter.curDoc;
      ghost var rest := iter.Rest();
      var positions := iter.TakePositions();
      iter.Next();
      HeadOver(out, rest, entries);
      out := out + [Posting(doc, positions)];
    }
    iter.Loaded();
  }

  lemma HeadOver(out: seq<Posting>, rest: seq<Posting>, all: seq<Posting>)
    requires rest != [] && out + rest == all
    ensures (out + [rest[0]]) + rest[1..] == all
  {
  }
}
