// The memory segment: documents are tokenised into postings whose chains live
// in the arena and whose heads live in the hash table.
module MemorySegments {
  import opened Prelude
  import opened Sorting
  import opened Bits
  import opened Arena
  import opened MemoryPages
  import opened StoredFields
  import T = TermHashTables

  // A token as the analyser delivers it.
  datatype Token = Token(term: string, position: nat)

  datatype FieldTokens = FieldTokens(name: string, tokens: seq<Token>)

  datatype Document = Document(indexed: seq<FieldTokens>, stored: seq<Field>)

  function Key(field: string, term: string): string {
    field + ":" + term
  }

  // ---------------------------------------------------------------- what documents mean

  // Where the term stands in the field, in token order.
  ghost function PositionsIn(field: string, tokens: seq<Token>, key: string): seq<nat> {
    if tokens == [] then []
    else
      var front, tok := PositionsIn(field, tokens[..|tokens| - 1], key), tokens[|tokens| - 1];
      if Key(field, tok.term) == key then front + [tok.position] else front
  }

  // The postings of a key after these documents and the fields of one more,
  // newest first; documents are numbered from 1. Each field in which the key
  // occurs makes a posting of its own.
  ghost function Partial(docs: seq<Document>, fields: seq<FieldTokens>, key: string): seq<Posting>
    decreases |docs|, |fields|
  {
    if fields != [] then
      var last, older := fields[|fields| - 1], Partial(docs, fields[..|fields| - 1], key);
      var ps := PositionsIn(last.name, last.tokens, key);
      if ps == [] then older else [Posting(|docs| + 1, ps)] + older
    else if docs == [] then []
    else Partial(docs[..|docs| - 1], docs[|docs| - 1].indexed, key)
  }

  ghost function PostingsOf(docs: seq<Document>, key: string): seq<Posting> {
    Partial(docs, [], key)
  }

  ghost function TfSum(ps: seq<Posting>): nat {
    if ps == [] then 0 else |ps[0].positions| + TfSum(ps[1..])
  }

  ghost predicate Descending(ps: seq<Posting>) {
    forall i, j :: 0 <= i < j < |ps| ==> ps[i].doc > ps[j].doc
  }

  ghost predicate TokensFit(tokens: seq<Token>) {
    |tokens| <= MAX_U32 && forall t :: t in tokens ==> t.position <= MAX_U32
  }

  // Some term of one field has the key of some term of the other.
  ghost predicate Clash(f: string, g: string) {
    f + ":" <= g || g + ":" <= f
  }

  // Field names are distinct, and no two of them share a key.
  ghost predicate Separable(fields: seq<FieldTokens>) {
    && (forall i, j :: 0 <= i < j < |fields| ==> fields[i].name != fields[j].name && !Clash(fields[i].name, fields[j].name))
    && AllFit(fields)
  }

  ghost predicate AllFit(fields: seq<FieldTokens>) {
    forall i :: 0 <= i < |fields| ==> TokensFit(fields[i].tokens)
  }

  ghost predicate AllSeparable(docs: seq<Document>) {
    forall d :: d in docs ==> Separable(d.indexed)
  }

  // No document has another field that shares a key with this one.
  ghost predicate Alone(docs: seq<Document>, name: string) {
    forall d, f :: d in docs && f in d.indexed ==> TokensFit(f.tokens) && (f.name == name || !Clash(f.name, name))
  }

  // ---------------------------------------------------------------- the same in terms of the text

  // The i-th token has this key.
  ghost predicate HasKey(name: string, tokens: seq<Token>, key: string, i: nat) {
    i < |tokens| && name + ":" + tokens[i].term == key
  }

  // The tokens at these places, in order, are all that have the key, and ps
  // are their positions.
  ghost predicate AreAll(name: string, tokens: seq<Token>, key: string, places: seq<nat>, ps: seq<nat>) {
    && (forall i, j :: 0 <= i < j < |places| ==> places[i] < places[j])
    && (forall i: nat :: i in places <==> HasKey(name, tokens, key, i))
    && |ps| == |places| && forall j :: 0 <= j < |places| ==> places[j] < |tokens| && ps[j] == tokens[places[j]].position
  }

  // ps are the positions of the tokens with this key, in token order.
  ghost predicate InText(name: string, tokens: seq<Token>, key: string, ps: seq<nat>) {
    exists places :: AreAll(name, tokens, key, places, ps)
  }

  ghost predicate Occurs(field: FieldTokens, key: string) {
    exists i: nat :: HasKey(field.name, field.tokens, key, i)
  }

  lemma {:induction false} PositionsInText(name: string, tokens: seq<Token>, key: string) returns (places: seq<nat>)
    ensures AreAll(name, tokens, key, places, PositionsIn(name, tokens, key))
    ensures PositionsIn(name, tokens, key) != [] <==> Occurs(FieldTokens(name, tokens), key)
  {
    hide HasKey, AreAll;
    if tokens == [] {
      places := [];
      NoTokens(name, key);
    } else {
      var n := |tokens| - 1;
      var front, last := tokens[..n], tokens[n];
      assert tokens == front + [last];
      places := PositionsInText(name, front, key);
      OneMoreToken(name, front, last, key, places, PositionsIn(name, front, key));
      if Key(name, last.term) == key {
        places := places + [n];
      }
    }
  }

  lemma NoTokens(name: string, key: string)
    ensures AreAll(name, [], key, [], []) && !Occurs(FieldTokens(name, []), key)
  {
  }

  lemma OneMoreToken(name: string, front: seq<Token>, last: Token, key: string, places: seq<nat>, ps: seq<nat>)
    requires AreAll(name, front, key, places, ps)
    ensures if Key(name, last.term) == key then AreAll(name, front + [last], key, places + [|front|], ps + [last.position])
            else AreAll(name, front + [last], key, places, ps)
    ensures Occurs(FieldTokens(name, front + [last]), key) <==> Occurs(FieldTokens(name, front), key) || Key(name, last.term) == key
  {
    hide Key;
    var tokens, n := front + [last], |front|;
    var same := Key(name, last.term) == key;
    forall i: nat
      ensures HasKey(name, tokens, key, i) <==> HasKey(name, front, key, i) || (same && i == n)
    {
      KeyOfMore(name, front, last, key, i);
    }
    assert same ==> HasKey(name, tokens, key, n);
    var more := if same then places + [n] else places;
    forall i: nat
      ensures i in more <==> HasKey(name, tokens, key, i)
    {
      assert i in more <==> i in places || (same && i == n);
    }
    assert forall j :: 0 <= j < |places| ==> places[j] < n && tokens[places[j]] == front[places[j]];
  }

  lemma KeyOfMore(name: string, front: seq<Token>, last: Token, key: string, i: nat)
    ensures HasKey(name, front + [last], key, i) <==> HasKey(name, front, key, i) || (Key(name, last.term) == key && i == |front|)
  {
  }

  // Field f of document d; the fields of one more document may follow.
  ghost predicate HasField(docs: seq<Document>, fields: seq<FieldTokens>, d: nat, f: nat) {
    if 1 <= d <= |docs| then f < |docs[d - 1].indexed| else d == |docs| + 1 && f < |fields|
  }

  ghost function FieldOf(docs: seq<Document>, fields: seq<FieldTokens>, d: nat, f: nat): FieldTokens
    requires HasField(docs, fields, d, f)
  {
    if d <= |docs| then docs[d - 1].indexed[f] else fields[f]
  }

  ghost predicate OccursAt(docs: seq<Document>, fields: seq<FieldTokens>, key: string, d: nat, f: nat) {
    HasField(docs, fields, d, f) && Occurs(FieldOf(docs, fields, d, f), key)
  }

  // The posting is of field f of document d.
  ghost predicate IsPosting(docs: seq<Document>, fields: seq<FieldTokens>, key: string, d: nat, f: nat, p: Posting) {
    && OccursAt(docs, fields, key, d, f) && p.doc == d && p.positions != []
    && InText(FieldOf(docs, fields, d, f).name, FieldOf(docs, fields, d, f).tokens, key, p.positions)
  }

  ghost predicate Later(a: (nat, nat), b: (nat, nat)) {
    a.0 > b.0 || (a.0 == b.0 && a.1 > b.1)
  }

  // One posting for each field of each document in which the key occurs, the
  // latest first.
  ghost predicate Listed(docs: seq<Document>, fields: seq<FieldTokens>, key: string, at: seq<(nat, nat)>, ps: seq<Posting>) {
    && |at| == |ps|
    && (forall i, j :: 0 <= i < j < |at| ==> Later(at[i], at[j]))
    && (forall i :: 0 <= i < |at| ==> IsPosting(docs, fields, key, at[i].0, at[i].1, ps[i]))
    && (forall d: nat, f: nat :: OccursAt(docs, fields, key, d, f) ==> (d, f) in at)
  }

  lemma {:induction false} PostingsListed(docs: seq<Document>, fields: seq<FieldTokens>, key: string) returns (at: seq<(nat, nat)>)
    ensures Listed(docs, fields, key, at, Partial(docs, fields, key))
    decreases |docs|, |fields|
  {
    hide Listed, PositionsIn, Occurs;
    if fields != [] {
      var front, last := fields[..|fields| - 1], fields[|fields| - 1];
      at := PostingsListed(docs, front, key);
      var places := PositionsInText(last.name, last.tokens, key);
      OneMoreField(docs, fields, key, at, Partial(docs, front, key), PositionsIn(last.name, last.tokens, key));
      if PositionsIn(last.name, last.tokens, key) != [] {
        at := [(|docs| + 1, |fields| - 1)] + at;
      }
    } else if docs == [] {
      at := [];
      assert Listed([], [], key, [], []) by { NothingListed(key); }
    } else {
      var n := |docs| - 1;
      at := PostingsListed(docs[..n], docs[n].indexed, key);
      SameListed(docs, key, at, Partial(docs, [], key));
    }
  }

  lemma NothingListed(key: string)
    ensures Listed([], [], key, [], [])
  {
  }

  lemma SameListed(docs: seq<Document>, key: string, at: seq<(nat, nat)>, ps: seq<Posting>)
    requires docs != [] && Listed(docs[..|docs| - 1], docs[|docs| - 1].indexed, key, at, ps)
    ensures Listed(docs, [], key, at, ps)
  {
    hide InText, Occurs;
    var front, fields := docs[..|docs| - 1], docs[|docs| - 1].indexed;
    forall d: nat, f: nat
      ensures HasField(docs, [], d, f) <==> HasField(front, fields, d, f)
      ensures HasField(docs, [], d, f) ==> FieldOf(docs, [], d, f) == FieldOf(front, fields, d, f)
    {
    }
  }

  lemma OneMoreField(docs: seq<Document>, fields: seq<FieldTokens>, key: string, at: seq<(nat, nat)>, older: seq<Posting>, ps: seq<nat>)
    requires fields != [] && Listed(docs, fields[..|fields| - 1], key, at, older)
    requires var last := fields[|fields| - 1]; InText(last.name, last.tokens, key, ps) && (ps != [] <==> Occurs(last, key))
    ensures var n := |docs| + 1;
            if ps == [] then Listed(docs, fields, key, at, older)
            else Listed(docs, fields, key, [(n, |fields| - 1)] + at, [Posting(n, ps)] + older)
  {
    hide IsPosting, OccursAt, InText, Occurs, Listed;
    if ps == [] {
      NotInField(docs, fields, key, at, older);
    } else {
      InLastField(docs, fields, key, at, older, ps);
    }
  }

  lemma NotInField(docs: seq<Document>, fields: seq<FieldTokens>, key: string, at: seq<(nat, nat)>, older: seq<Posting>)
    requires fields != [] && Listed(docs, fields[..|fields| - 1], key, at, older) && !Occurs(fields[|fields| - 1], key)
    ensures Listed(docs, fields, key, at, older)
  {
    hide IsPosting, OccursAt, Occurs;
    var front := fields[..|fields| - 1];
    forall i | 0 <= i < |at|
      ensures IsPosting(docs, fields, key, at[i].0, at[i].1, older[i])
    {
      FieldsBefore(docs, fields, key, at[i].0, at[i].1);
    }
    forall d: nat, f: nat | OccursAt(docs, fields, key, d, f)
      ensures (d, f) in at
    {
      FieldsBefore(docs, fields, key, d, f);
    }
  }

  lemma InLastField(docs: seq<Document>, fields: seq<FieldTokens>, key: string, at: seq<(nat, nat)>, older: seq<Posting>, ps: seq<nat>)
    requires fields != [] && Listed(docs, fields[..|fields| - 1], key, at, older) && ps != []
    requires var last := fields[|fields| - 1]; InText(last.name, last.tokens, key, ps) && Occurs(last, key)
    ensures Listed(docs, fields, key, [(|docs| + 1, |fields| - 1)] + at, [Posting(|docs| + 1, ps)] + older)
  {
    hide IsPosting, OccursAt, Occurs, InText;
    var front, m, n := fields[..|fields| - 1], |fields| - 1, |docs| + 1;
    var more, list := [(n, m)] + at, [Posting(n, ps)] + older;
    LastPosting(docs, fields, key, ps);
    EarlierPostings(docs, front, key, at, older);
    forall i | 0 <= i < |more|
      ensures IsPosting(docs, fields, key, more[i].0, more[i].1, list[i])
      ensures i > 0 ==> more[i] == at[i - 1]
    {
      if i > 0 {
        FieldsBefore(docs, fields, key, at[i - 1].0, at[i - 1].1);
      }
    }
    forall d: nat, f: nat | OccursAt(docs, fields, key, d, f)
      ensures (d, f) in more
    {
      FieldsBefore(docs, fields, key, d, f);
      assert more[0] == (n, m);
    }
  }

  lemma FieldsBefore(docs: seq<Document>, fields: seq<FieldTokens>, key: string, d: nat, f: nat)
    requires fields != []
    ensures var front, m, n := fields[..|fields| - 1], |fields| - 1, |docs| + 1;
            && (OccursAt(docs, fields, key, d, f) <==> OccursAt(docs, front, key, d, f) || (Occurs(fields[m], key) && d == n && f == m))
            && forall p :: IsPosting(docs, front, key, d, f, p) ==> IsPosting(docs, fields, key, d, f, p)
  {
    hide InText, Occurs;
  }

  lemma LastPosting(docs: seq<Document>, fields: seq<FieldTokens>, key: string, ps: seq<nat>)
    requires fields != [] && ps != []
    requires var last := fields[|fields| - 1]; InText(last.name, last.tokens, key, ps) && Occurs(last, key)
    ensures IsPosting(docs, fields, key, |docs| + 1, |fields| - 1, Posting(|docs| + 1, ps))
  {
    hide InText, Occurs;
  }

  lemma EarlierPostings(docs: seq<Document>, front: seq<FieldTokens>, key: string, at: seq<(nat, nat)>, older: seq<Posting>)
    requires Listed(docs, front, key, at, older)
    ensures forall i :: 0 <= i < |at| ==> Later((|docs| + 1, |front|), at[i])
  {
    hide InText, Occurs;
    forall i | 0 <= i < |at|
      ensures Later((|docs| + 1, |front|), at[i])
    {
      assert IsPosting(docs, front, key, at[i].0, at[i].1, older[i]);
    }
  }

  // The postings of a key, by what the documents say.
  ghost predicate TextPosting(docs: seq<Document>, key: string, p: Posting) {
    exists f: nat :: IsPosting(docs, [], key, p.doc, f, p)
  }

  lemma PostingsMean(docs: seq<Document>, key: string)
    ensures forall p :: p in PostingsOf(docs, key) ==> TextPosting(docs, key, p)
    ensures forall d: nat, f: nat :: OccursAt(docs, [], key, d, f) ==> exists p :: p in PostingsOf(docs, key) && IsPosting(docs, [], key, d, f, p)
  {
    hide OccursAt, InText, Partial;
    var ps := PostingsOf(docs, key);
    var at := PostingsListed(docs, [], key);
    forall p | p in ps
      ensures TextPosting(docs, key, p)
    {
      var i :| 0 <= i < |ps| && ps[i] == p;
      assert IsPosting(docs, [], key, at[i].0, at[i].1, ps[i]);
    }
    forall d: nat, f: nat | OccursAt(docs, [], key, d, f)
      ensures exists p :: p in ps && IsPosting(docs, [], key, d, f, p)
    {
      var i :| 0 <= i < |at| && at[i] == (d, f);
      assert ps[i] in ps && IsPosting(docs, [], key, at[i].0, at[i].1, ps[i]);
    }
  }

  // ---------------------------------------------------------------- keys

  // Equal keys, with the shorter field name first.
  lemma KeyPrefix(f: string, t: string, g: string, u: string)
    requires Key(f, t) == Key(g, u) && |f| < |g|
    ensures f + ":" <= g
  {
    var k := Key(f, t);
    assert k[..|f| + 1] == f + ":";
    assert k[..|g|] == g;
  }

  lemma SameLength(f: string, t: string, g: string, u: string)
    requires Key(f, t) == Key(g, u) && f != g
    ensures |f| != |g|
  {
    assert Key(f, t)[..|f|] == f && Key(g, u)[..|g|] == g;
  }

  // Two fields share a key exactly when one name with a separator behind it
  // begins the other.
  lemma KeysClashIff(f: string, g: string)
    requires f != g
    ensures (exists t, u :: Key(f, t) == Key(g, u)) <==> Clash(f, g)
  {
    if t, u :| Key(f, t) == Key(g, u) {
      SameLength(f, t, g, u);
      if |f| < |g| {
        KeyPrefix(f, t, g, u);
      } else {
        KeyPrefix(g, u, f, t);
      }
    }
    if f + ":" <= g {
      SharedKey(f, g);
    } else if g + ":" <= f {
      SharedKey(g, f);
      assert Key(f, "") == Key(g, f[|g| + 1..] + ":");
    }
  }

  lemma SharedKey(f: string, g: string)
    requires f + ":" <= g
    ensures Key(f, g[|f| + 1..] + ":") == Key(g, "")
  {
    assert g == (f + ":") + g[|f| + 1..];
  }

  lemma {:induction false} PositionsFit(field: string, tokens: seq<Token>, key: string)
    requires TokensFit(tokens)
    ensures |PositionsIn(field, tokens, key)| <= |tokens| && Words(PositionsIn(field, tokens, key))
    ensures PositionsIn(field, tokens, key) != [] <==> exists t :: t in tokens && Key(field, t.term) == key
  {
    if tokens != [] {
      var front, last := tokens[..|tokens| - 1], tokens[|tokens| - 1];
      assert tokens == front + [last];
      PositionsFit(field, front, key);
    }
  }

  // A field that shares no key with `name` has none of its terms.
  lemma ForeignField(name: string, other: string, tokens: seq<Token>, term: string)
    requires name != other && !Clash(name, other) && TokensFit(tokens)
    ensures PositionsIn(other, tokens, Key(name, term)) == []
  {
    hide Clash;
    PositionsFit(other, tokens, Key(name, term));
    forall t | t in tokens
      ensures Key(other, t.term) != Key(name, term)
    {
      KeysClashIff(name, other);
    }
  }

  // Fields without the key leave its postings as they are.
  lemma {:induction false} Silent(docs: seq<Document>, fields: seq<FieldTokens>, key: string)
    requires forall f :: f in fields ==> PositionsIn(f.name, f.tokens, key) == []
    ensures Partial(docs, fields, key) == PostingsOf(docs, key)
  {
    if fields != [] {
      Silent(docs, fields[..|fields| - 1], key);
    }
  }

  // Ids are in range and no posting is empty.
  lemma {:induction false} PartialFacts(docs: seq<Document>, fields: seq<FieldTokens>, key: string)
    ensures forall p :: p in Partial(docs, fields, key) ==>
              1 <= p.doc <= |docs| + (if fields == [] then 0 else 1) && p.positions != []
    decreases |docs|, |fields|
  {
    if fields != [] {
      PartialFacts(docs, fields[..|fields| - 1], key);
    } else if docs != [] {
      PartialFacts(docs[..|docs| - 1], docs[|docs| - 1].indexed, key);
    }
  }

  // Where no document has two fields that share a key, a key has at most one
  // posting in each, and its postings are strictly newest first.
  lemma {:induction false} NewestFirst(docs: seq<Document>, fields: seq<FieldTokens>, key: string)
    requires AllSeparable(docs) && Separable(fields)
    ensures Descending(Partial(docs, fields, key))
    decreases |docs|, |fields|
  {
    hide Separable, Descending, PositionsIn;
    if fields != [] {
      var front, last := fields[..|fields| - 1], fields[|fields| - 1];
      SeparableFront(fields);
      NewestFirst(docs, front, key);
      var ps := PositionsIn(last.name, last.tokens, key);
      if ps != [] {
        OthersSilent(front, last, key);
        Silent(docs, front, key);
        PartialFacts(docs, [], key);
        DescendingMore(Posting(|docs| + 1, ps), PostingsOf(docs, key));
      }
    } else if docs != [] {
      assert docs[|docs| - 1] in docs;
      NewestFirst(docs[..|docs| - 1], docs[|docs| - 1].indexed, key);
    } else {
      NoPostings();
    }
  }

  lemma SeparableFront(fields: seq<FieldTokens>)
    requires Separable(fields) && fields != []
    ensures Separable(fields[..|fields| - 1])
    ensures fields == fields[..|fields| - 1] + [fields[|fields| - 1]]
  {
    hide Clash;
  }

  lemma OthersSilent(before: seq<FieldTokens>, field: FieldTokens, key: string)
    requires Separable(before + [field]) && PositionsIn(field.name, field.tokens, key) != []
    ensures forall f :: f in before ==> PositionsIn(f.name, f.tokens, key) == []
  {
    hide Clash, PositionsIn;
    var all := before + [field];
    assert all[|before|] == field;
    PositionsFit(field.name, field.tokens, key);
    var t :| t in field.tokens && Key(field.name, t.term) == key;
    forall f | f in before
      ensures PositionsIn(f.name, f.tokens, key) == []
    {
      var i :| 0 <= i < |before| && before[i] == f;
      assert all[i] == f && TokensFit(all[i].tokens);
      NotClashing(f.name, field.name);
      ForeignField(field.name, f.name, f.tokens, t.term);
    }
  }

  lemma NotClashing(f: string, g: string)
    ensures Clash(f, g) == Clash(g, f)
  {
  }

  lemma DescendingMore(p: Posting, older: seq<Posting>)
    requires Descending(older) && forall q :: q in older ==> q.doc < p.doc
    ensures Descending([p] + older)
  {
  }

  lemma NoPostings()
    ensures Descending([])
  {
  }

  // ---------------------------------------------------------------- the segment

  ghost function FieldLen(fields: seq<FieldTokens>, name: string): nat {
    if fields == [] then 0
    else
      FieldLen(fields[..|fields| - 1], name)
      + if fields[|fields| - 1].name == name then |fields[|fields| - 1].tokens| else 0
  }

  ghost function FieldTotal(docs: seq<Document>, name: string): nat {
    if docs == [] then 0 else FieldTotal(docs[..|docs| - 1], name) + FieldLen(docs[|docs| - 1].indexed, name)
  }

  function Get<K(==)>(m: map<K, nat>, k: K): nat {
    if k in m then m[k] else 0
  }

  // The length tables while the fields `before` of one more document are in.
  ghost predicate LensOk(lens: map<(nat, string), nat>, totals: map<string, nat>, docs: seq<Document>, before: seq<FieldTokens>) {
    && (forall d, f :: 1 <= d <= |docs| ==> Get(lens, (d, f)) == FieldLen(docs[d - 1].indexed, f))
    && (forall f :: Get(lens, (|docs| + 1, f)) == FieldLen(before, f))
    && (forall d, f :: |docs| + 1 < d ==> (d, f) !in lens)
    && (forall f :: Get(totals, f) == FieldTotal(docs, f) + FieldLen(before, f))
  }

  lemma LensMore(lens: map<(nat, string), nat>, totals: map<string, nat>, docs: seq<Document>, before: seq<FieldTokens>, field: FieldTokens)
    requires LensOk(lens, totals, docs, before)
    ensures LensOk(lens[(|docs| + 1, field.name) := Get(lens, (|docs| + 1, field.name)) + |field.tokens|],
                   totals[field.name := Get(totals, field.name) + |field.tokens|], docs, before + [field])
  {
    var all, n := before + [field], |docs| + 1;
    assert all[..|before|] == before;
    var lens' := lens[(n, field.name) := Get(lens, (n, field.name)) + |field.tokens|];
    forall f
      ensures Get(lens', (n, f)) == FieldLen(all, f)
    {
      assert Get(lens, (n, f)) == FieldLen(before, f);
    }
    forall d, f | 1 <= d <= |docs|
      ensures Get(lens', (d, f)) == FieldLen(docs[d - 1].indexed, f)
    {
      assert Get(lens, (d, f)) == FieldLen(docs[d - 1].indexed, f);
    }
  }

  lemma LensSame(lens: map<(nat, string), nat>, totals: map<string, nat>, docs: seq<Document>, before: seq<FieldTokens>, field: FieldTokens)
    requires LensOk(lens, totals, docs, before) && field.tokens == []
    ensures LensOk(lens, totals, docs, before + [field])
  {
    assert (before + [field])[..|before|] == before;
  }

  lemma LensDone(lens: map<(nat, string), nat>, totals: map<string, nat>, docs: seq<Document>, doc: Document)
    requires LensOk(lens, totals, docs, doc.indexed)
    ensures LensOk(lens, totals, docs + [doc], [])
  {
    var more := docs + [doc];
    assert more[..|docs|] == docs;
    forall d, f | 1 <= d <= |more|
      ensures Get(lens, (d, f)) == FieldLen(more[d - 1].indexed, f)
    {
      if d <= |docs| {
        assert more[d - 1] == docs[d - 1];
      }
    }
  }

  // What the segment should hold for each key at that point.
  ghost function Wanted(docs: seq<Document>, fields: seq<FieldTokens>): string -> seq<Posting> {
    (key: string) => Partial(docs, fields, key)
  }

  ghost function WithPosting(want: string -> seq<Posting>, key: string, p: Posting): string -> seq<Posting> {
    (k: string) => if k == key then [p] + want(k) else want(k)
  }

  // The chain and the counters of a key are those of the postings ps.
  ghost predicate HoldsPostings(mem: seq<byte>, contents: map<string, T.Entry>, key: string, ps: seq<Posting>) {
    if ps == [] then key !in contents
    else
      && key in contents && Chain(mem, contents[key].head, ps)
      && contents[key].docFreq == |ps| && contents[key].totalTf == TfSum(ps)
  }

  ghost predicate AllKept(mem: seq<byte>, contents: map<string, T.Entry>, want: string -> seq<Posting>) {
    forall key :: HoldsPostings(mem, contents, key, want(key))
  }

  // The stored fields of every document can be found.
  ghost predicate AllStored(mem: seq<byte>, docs: seq<Document>, heads: map<nat, nat>, pages: map<nat, seq<nat>>) {
    forall d :: 1 <= d <= |docs| ==>
      d in pages && Stored(mem, if d in heads then heads[d] else INVALID_OFFSET, pages[d], d, docs[d - 1].stored)
  }

  // Pages written later disturb nothing.
  lemma KeptStays(mem: seq<byte>, mem': seq<byte>, contents: map<string, T.Entry>, want: string -> seq<Posting>)
    requires AllKept(mem, contents, want) && Extends(mem, mem')
    ensures AllKept(mem', contents, want)
  {
    hide Chain, Extends;
    forall key
      ensures HoldsPostings(mem', contents, key, want(key))
    {
      assert HoldsPostings(mem, contents, key, want(key));
      if want(key) != [] {
        ChainStays(mem, mem', contents[key].head, want(key));
      }
    }
  }

  lemma StoredStays(mem: seq<byte>, mem': seq<byte>, docs: seq<Document>, heads: map<nat, nat>, pages: map<nat, seq<nat>>)
    requires AllStored(mem, docs, heads, pages) && Extends(mem, mem')
    ensures AllStored(mem', docs, heads, pages)
  {
    hide Extends, StoredPages;
    forall d | 1 <= d <= |docs|
      ensures Stored(mem', if d in heads then heads[d] else INVALID_OFFSET, pages[d], d, docs[d - 1].stored)
    {
      StoredPagesStay(mem, mem', pages[d], d, Payload(Kept(docs[d - 1].stored)));
    }
  }

  // ---------------------------------------------------------------- room

  // Bytes of the arena, slots of the table, characters of the string arena.
  datatype Needs = Needs(bytes: nat, slots: nat, chars: nat)
  {
    function Plus(n: Needs): Needs {
      Needs(bytes + n.bytes, slots + n.slots, chars + n.chars)
    }

    predicate Within(limit: Needs) {
      bytes <= limit.bytes && slots <= limit.slots && chars <= limit.chars
    }
  }

  // One need met, and the rest still to be.
  lemma OneMet(level: Needs, n: Needs, rest: Needs, limit: Needs)
    ensures level.Plus(n.Plus(rest)) == level.Plus(n).Plus(rest)
    ensures !level.Plus(n).Within(limit) ==> !level.Plus(n.Plus(rest)).Within(limit)
    ensures level.Plus(Needs(0, 0, 0)) == level
  {
  }

  // Stored fields take bytes only.
  lemma StoredRoom(level: Needs, size: nat, limit: Needs)
    requires level.Within(limit)
    ensures level.Plus(Needs(size, 0, 0)) == level.(bytes := level.bytes + size)
    ensures level.Plus(Needs(size, 0, 0)).Within(limit) <==> level.bytes + size <= limit.bytes
  {
  }

  // Where there is no room for a part there is none for the whole.
  lemma PartMet(part: Needs, rest: Needs, limit: Needs)
    requires !part.Within(limit)
    ensures !part.Plus(rest).Within(limit)
  {
  }

  // What one more posting of a key takes.
  function PostingNeeds(unknown: bool, key: string, tf: nat): Needs {
    Needs(PostingBytes(tf), if unknown then 1 else 0, if unknown then |key| else 0)
  }

  ghost function SumNeeds(keys: set<string>, f: string -> Needs): Needs {
    Needs(SumOver(keys, (k: string) => f(k).bytes), SumOver(keys, (k: string) => f(k).slots), SumOver(keys, (k: string) => f(k).chars))
  }

  lemma SumNeedsPick(keys: set<string>, f: string -> Needs, k: string)
    requires k in keys
    ensures SumNeeds(keys, f) == f(k).Plus(SumNeeds(keys - {k}, f))
  {
    SumOverPick(keys, (k: string) => f(k).bytes, k);
    SumOverPick(keys, (k: string) => f(k).slots, k);
    SumOverPick(keys, (k: string) => f(k).chars, k);
  }

  lemma SumNeedsNone(f: string -> Needs)
    ensures SumNeeds({}, f) == Needs(0, 0, 0)
  {
  }

  function FieldKeys(field: FieldTokens): set<string> {
    set t | t in field.tokens :: Key(field.name, t.term)
  }

  // What the postings of one field take after the fields before it.
  ghost function KeyNeeds(docs: seq<Document>, before: seq<FieldTokens>, field: FieldTokens): string -> Needs {
    (k: string) => PostingNeeds(Partial(docs, before, k) == [], k, |PositionsIn(field.name, field.tokens, k)|)
  }

  ghost function FieldsNeeds(docs: seq<Document>, fields: seq<FieldTokens>): Needs {
    if fields == [] then Needs(0, 0, 0)
    else
      var front, last := fields[..|fields| - 1], fields[|fields| - 1];
      FieldsNeeds(docs, front).Plus(SumNeeds(FieldKeys(last), KeyNeeds(docs, front, last)))
  }

  ghost function StoredNeeds(fields: seq<Field>): Needs
    requires |fields| <= MAX_U32 && forall f :: f in fields ==> FieldFits(f)
  {
    Needs(PagesNeeded(|DocPayload(fields)|) * STORED_PAGE_SIZE, 0, 0)
  }

  class MemorySegment {
    const arena: SegmentArena
    const table: T.TermHashTable
    var docCount: nat
    var totalTokens: nat
    var docFieldLen: map<(nat, string), nat>
    var fieldTotalTokens: map<string, nat>
    var storedHeads: map<nat, nat>
    ghost var docs: seq<Document>             // the documents added so far
    ghost var pages: map<nat, seq<nat>>       // where their stored fields lie

    ghost predicate Whole()
      reads arena, arena.base, table, table.buckets, table.strArena, table.strArena.base
    {
      arena.Valid() && table.Valid()
    }

    // How far arena, table and string arena are filled, and how far they can be.
    ghost function Level(): Needs
      reads this, arena, table, table.strArena
    {
      Needs(arena.offset, table.size, table.strArena.offset)
    }

    ghost function Limit(): Needs {
      Needs(arena.capacity, table.capacity, table.strArena.base.Length)
    }

    ghost predicate KeepsAll(want: string -> seq<Posting>)
      requires Whole()
      reads arena, arena.base, table, table.buckets, table.strArena, table.strArena.base
    {
      AllKept(arena.Mem(), table.contents, want)
    }

    // Between documents: every chain is exactly what the documents say.
    ghost predicate Valid()
      reads this, arena, arena.base, table, table.buckets, table.strArena, table.strArena.base
    {
      && Whole() && docCount == |docs| < INVALID_DOC
      && KeepsAll(Wanted(docs, []))
      && AllStored(arena.Mem(), docs, storedHeads, pages)
      && (forall d :: d in storedHeads ==> d <= |docs|)
      && LensOk(docFieldLen, fieldTotalTokens, docs, [])
    }

    constructor (arenaBytes: nat, strBytes: nat, cap: nat, hash: string -> nat)
      requires arenaBytes <= INVALID_OFFSET && cap > 0 && forall s :: 0 < hash(s)
      ensures Valid() && docs == []
    {
      this.arena := new SegmentArena(arenaBytes);
      this.table := new T.TermHashTable(cap, strBytes, hash);
      this.docCount, this.totalTokens := 0, 0;
      this.docFieldLen, this.fieldTotalTokens, this.storedHeads := map[], map[], map[];
      this.docs, this.pages := [], map[];
    }

    // One posting more for a key.
    method IndexTerm(doc: nat, key: string, positions: seq<nat>, ghost want: string -> seq<Posting>) returns (ok: bool)
      requires Whole() && KeepsAll(want) && doc <= MAX_U32 && positions != [] && Words(positions) && |positions| <= MAX_U32
      modifies arena, arena.base, table, table.buckets, table.strArena, table.strArena.base
      ensures Whole() && Extends(old(arena.Mem()), arena.Mem())
      ensures var after := old(Level()).Plus(PostingNeeds(want(key) == [], key, |positions|));
              ok == after.Within(Limit()) && (ok ==> Level() == after)
      ensures ok ==> KeepsAll(WithPosting(want, key, Posting(doc, positions)))
    {
      hide Chain, Extends, T.TermHashTable.Valid;
      ghost var mem, contents, older := arena.Mem(), table.contents, want(key);
      assert HoldsPostings(mem, contents, key, older);
      var existing := table.Lookup(key);
      if existing.TableFull? { ExtendsSelf(mem); return false; }
      var next := if existing.Found? then existing.entry.head else INVALID_OFFSET;
      assert Chain(mem, next, older) by { EmptyChain(mem); }
      var p := Posting(doc, positions);
      var at;
      at, ok := WritePosting(arena, p, next, older);
      if !ok { return; }
      var r := table.Upsert(key, at, |positions|);
      if !r.Ok? { return false; }
      TfSumMore(p, older);
      forall k
        ensures HoldsPostings(arena.Mem(), table.contents, k, WithPosting(want, key, p)(k))
      {
        assert HoldsPostings(mem, contents, k, want(k));
        if k != key && want(k) != [] {
          ChainStays(mem, arena.Mem(), contents[k].head, want(k));
        }
      }
    }

    // Group the tokens of a field by term.
    method GroupTokens(name: string, tokens: seq<Token>) returns (groups: map<string, seq<nat>>)
      modifies this`totalTokens
      ensures totalTokens == old(totalTokens) + |tokens|
      ensures forall key :: key in groups <==> PositionsIn(name, tokens, key) != []
      ensures forall key :: key in groups ==> groups[key] == PositionsIn(name, tokens, key)
      ensures forall key :: key in groups <==> Occurs(FieldTokens(name, tokens), key)
      ensures forall key :: key in groups ==> InText(name, tokens, key, groups[key])
    {
      groups := map[];
      for i := 0 to |tokens|
        invariant totalTokens == old(totalTokens) + i
        invariant forall key :: key in groups <==> PositionsIn(name, tokens[..i], key) != []
        invariant forall key :: key in groups ==> groups[key] == PositionsIn(name, tokens[..i], key)
      {
        var key := Key(name, tokens[i].term);
        assert tokens[..i + 1][..i] == tokens[..i];
        groups := groups[key := (if key in groups then groups[key] else []) + [tokens[i].position]];
        totalTokens := totalTokens + 1;
      }
      assert tokens[..|tokens|] == tokens;
      forall key
        ensures PositionsIn(name, tokens, key) != [] <==> Occurs(FieldTokens(name, tokens), key)
        ensures InText(name, tokens, key, PositionsIn(name, tokens, key))
      {
        var places := PositionsInText(name, tokens, key);
      }
    }

    // Index one field of document |docs| + 1 whose fields `before` are done.
    method IndexField(doc: nat, name: string, tokens: seq<Token>, ghost before: seq<FieldTokens>) returns (ok: bool)
      requires Whole() && doc == |docs| + 1 <= MAX_U32
      requires KeepsAll(Wanted(docs, before)) && TokensFit(tokens)
      modifies this`totalTokens, this`docFieldLen, this`fieldTotalTokens
      modifies arena, arena.base, table, table.buckets, table.strArena, table.strArena.base
      ensures Whole() && Extends(old(arena.Mem()), arena.Mem())
      ensures var field := FieldTokens(name, tokens);
              var after := old(Level()).Plus(SumNeeds(FieldKeys(field), KeyNeeds(docs, before, field)));
              ok == after.Within(Limit()) && (ok ==> Level() == after)
      ensures ok ==> KeepsAll(Wanted(docs, before + [FieldTokens(name, tokens)]))
      ensures docFieldLen == old(docFieldLen)[(doc, name) := Get(old(docFieldLen), (doc, name)) + |tokens|]
      ensures fieldTotalTokens == old(fieldTotalTokens)[name := Get(old(fieldTotalTokens), name) + |tokens|]
      ensures totalTokens == old(totalTokens) + |tokens|
    {
      hide Extends, T.TermHashTable.Valid, HoldsPostings, SumNeeds, Needs.Plus, Needs.Within, FieldKeys, KeyNeeds;
      ghost var field := FieldTokens(name, tokens);
      assert (before + [field])[|before|] == field;
      var groups := GroupTokens(name, tokens);
      docFieldLen := docFieldLen[(doc, name) := Get(docFieldLen, (doc, name)) + |tokens|];
      fieldTotalTokens := fieldTotalTokens[name := Get(fieldTotalTokens, name) + |tokens|];
      ok := IndexGroups(doc, groups, before, field);
    }

    method IndexGroups(doc: nat, groups: map<string, seq<nat>>, ghost before: seq<FieldTokens>, ghost field: FieldTokens)
      returns (ok: bool)
      requires Whole() && doc == |docs| + 1 <= MAX_U32
      requires KeepsAll(Wanted(docs, before)) && TokensFit(field.tokens)
      requires forall key :: key in groups <==> PositionsIn(field.name, field.tokens, key) != []
      requires forall key :: key in groups ==> groups[key] == PositionsIn(field.name, field.tokens, key)
      modifies arena, arena.base, table, table.buckets, table.strArena, table.strArena.base
      ensures Whole() && Extends(old(arena.Mem()), arena.Mem())
      ensures var after := old(Level()).Plus(SumNeeds(FieldKeys(field), KeyNeeds(docs, before, field)));
              ok == after.Within(Limit()) && (ok ==> Level() == after)
      ensures ok ==> KeepsAll(Wanted(docs, before + [field]))
    {
      hide Extends, T.TermHashTable.Valid, HoldsPostings, Partial, SumNeeds, PostingNeeds, Needs.Plus, Needs.Within, FieldKeys;
      ghost var mem, level, f := arena.Mem(), Level(), KeyNeeds(docs, before, field);
      GroupKeys(field, groups);
      assert (before + [field])[|before|] == field;
      ExtendsSelf(mem);
      var rest := groups.Keys;
      KeepsSame(Wanted(docs, before), Grouped(docs, before, groups, rest));
      while rest != {}
        invariant Whole() && Extends(mem, arena.Mem()) && rest <= groups.Keys
        invariant Level().Plus(SumNeeds(rest, f)) == level.Plus(SumNeeds(FieldKeys(field), f))
        invariant KeepsAll(Grouped(docs, before, groups, rest))
      {
        var key :| key in rest;
        PositionsFit(field.name, field.tokens, key);
        ghost var now := arena.Mem();
        SumNeedsPick(rest, f, key);
        OneMet(Level(), f(key), SumNeeds(rest - {key}, f), Limit());
        ok := IndexTerm(doc, key, groups[key], Grouped(docs, before, groups, rest));
        ExtendsTransitive(mem, now, arena.Mem());
        if !ok { return; }
        GroupDone(docs, before, groups, rest, key, doc);
        KeepsSame(WithPosting(Grouped(docs, before, groups, rest), key, Posting(doc, groups[key])),
                  Grouped(docs, before, groups, rest - {key}));
        rest := rest - {key};
      }
      ok := true;
      SumNeedsNone(f);
      OneMet(Level(), Needs(0, 0, 0), Needs(0, 0, 0), Limit());
      InLimit();
      AllGroups(docs, before, field, groups);
      KeepsSame(Grouped(docs, before, groups, {}), Wanted(docs, before + [field]));
    }

    lemma InLimit()
      requires Whole()
      ensures Level().Within(Limit())
    {
      hide T.TermHashTable.Valid;
    }

    // The stored fields of document |docs| + 1.
    method WriteStoredFields(id: nat, ghost doc: Document, fields: seq<Field>) returns (ok: bool)
      requires Valid() && id == |docs| + 1 <= MAX_U32 && fields == doc.stored
      requires |fields| <= MAX_U32 && forall f :: f in fields ==> FieldFits(f)
      modifies this`storedHeads, this`pages, arena, arena.base
      ensures Whole() && KeepsAll(Wanted(docs, []))
      ensures var after := old(Level()).Plus(StoredNeeds(fields));
              ok == after.Within(Limit()) && (ok ==> Level() == after)
      ensures ok ==> AllStored(arena.Mem(), docs + [doc], storedHeads, pages) && forall d :: d in storedHeads ==> d <= id
    {
      hide Extends, T.TermHashTable.Valid, Stored, Partial, Wanted, AllKept, AllStored, LensOk, DocPayload, PagesNeeded,
           Needs.Plus, Needs.Within;
      ghost var mem := arena.Mem();
      InLimit();
      StoredRoom(Level(), PagesNeeded(|DocPayload(fields)|) * STORED_PAGE_SIZE, Limit());
      var head;
      ghost var stored;
      head, ok, stored := StoreFields(arena, id, fields);
      KeptStays(mem, arena.Mem(), table.contents, Wanted(docs, []));
      if !ok { return; }
      InLimit();
      StoredStays(mem, arena.Mem(), docs, storedHeads, pages);
      OneMoreStored(arena.Mem(), docs, storedHeads, pages, doc, head, stored);
      if head != INVALID_OFFSET {
        storedHeads := storedHeads[id := head];
      }
      pages := pages[id := stored];
    }

    // Add one document: its stored fields first, then field after field. A
    // failure can leave a document half indexed; nothing is promised then.
    method AddDocument(doc: Document) returns (ok: bool)
      requires Valid() && docCount + 1 < INVALID_DOC && AllFit(doc.indexed)
      requires |doc.stored| <= MAX_U32 && forall f :: f in doc.stored ==> FieldFits(f)
      modifies this, arena, arena.base, table, table.buckets, table.strArena, table.strArena.base
      ensures var stored := old(Level()).Plus(StoredNeeds(doc.stored));
              var after := stored.Plus(FieldsNeeds(old(docs), doc.indexed));
              ok == after.Within(Limit()) && (ok ==> Level() == after)
      ensures ok ==> Valid() && docs == old(docs) + [doc]
      ensures ok ==> totalTokens == old(totalTokens) + TokenCount(doc.indexed)
    {
      hide Extends, T.TermHashTable.Valid, Partial, Wanted, AllKept, AllStored, LensOk, FieldsNeeds, StoredNeeds,
           Needs.Plus, Needs.Within;
      var id := docCount + 1;
      ghost var level := Level();
      ok := WriteStoredFields(id, doc, doc.stored);
      if !ok {
        PartMet(level.Plus(StoredNeeds(doc.stored)), FieldsNeeds(docs, doc.indexed), Limit());
        return;
      }
      ghost var mem := arena.Mem();
      ok := IndexFields(id, doc.indexed);
      if !ok { return; }
      docCount := docCount + 1;
      StoredStays(mem, arena.Mem(), docs + [doc], storedHeads, pages);
      DocAdded(docs, doc);
      LensDone(docFieldLen, fieldTotalTokens, docs, doc);
      KeepsSame(Wanted(docs, doc.indexed), Wanted(docs + [doc], []));
      docs := docs + [doc];
    }

    // All fields of document |docs| + 1.
    method IndexFields(doc: nat, fields: seq<FieldTokens>) returns (ok: bool)
      requires Whole() && doc == |docs| + 1 <= MAX_U32 && KeepsAll(Wanted(docs, [])) && AllFit(fields)
      requires LensOk(docFieldLen, fieldTotalTokens, docs, [])
      modifies this`totalTokens, this`docFieldLen, this`fieldTotalTokens
      modifies arena, arena.base, table, table.buckets, table.strArena, table.strArena.base
      ensures Whole() && Extends(old(arena.Mem()), arena.Mem())
      ensures var after := old(Level()).Plus(FieldsNeeds(docs, fields));
              ok == after.Within(Limit()) && (ok ==> Level() == after)
      ensures ok ==> KeepsAll(Wanted(docs, fields)) && totalTokens == old(totalTokens) + TokenCount(fields)
      ensures ok ==> LensOk(docFieldLen, fieldTotalTokens, docs, fields)
    {
      hide Extends, T.TermHashTable.Valid, AllKept, Partial, Wanted, LensOk, SumNeeds, FieldsNeeds, Needs.Plus, Needs.Within, KeyNeeds;
      NothingNeeded(docs, Level());
      ghost var mem, level := arena.Mem(), Level();
      ExtendsSelf(mem);
      assert fields[..0] == [];
      for i := 0 to |fields|
        invariant Whole() && Extends(mem, arena.Mem())
        invariant Level() == level.Plus(FieldsNeeds(docs, fields[..i]))
        invariant LensOk(docFieldLen, fieldTotalTokens, docs, fields[..i])
        invariant KeepsAll(Wanted(docs, fields[..i])) && totalTokens == old(totalTokens) + TokenCount(fields[..i])
      {
        ghost var now := arena.Mem();
        var field := fields[i];
        FieldStep(docs, fields, i, level, Limit());
        assert fields[..i + 1] == fields[..i] + [FieldTokens(field.name, field.tokens)];
        assert fields[..i + 1][..i] == fields[..i];
        if field.tokens != [] {
          LensMore(docFieldLen, fieldTotalTokens, docs, fields[..i], field);
          ok := IndexField(doc, field.name, field.tokens, fields[..i]);
          ExtendsTransitive(mem, now, arena.Mem());
          if !ok { return; }
        } else {
          LensSame(docFieldLen, fieldTotalTokens, docs, fields[..i], field);
          EmptyField(docs, fields, i);
          KeepsSame(Wanted(docs, fields[..i]), Wanted(docs, fields[..i + 1]));
        }
      }
      ok := true;
      InLimit();
      assert fields[..|fields|] == fields;
    }

    // The postings of a key: the chain, newest first, sorted into document
    // order, and the lists of its documents and frequencies.
    method KeyList(key: string) returns (found: bool, docIds: seq<DocId>, tfs: seq<nat>, entries: seq<Posting>)
      requires Valid()
      ensures found ==> SortedInto(docIds, tfs, PostingsOf(docs, key))
      ensures found ==> multiset(entries) == multiset(PostingsOf(docs, key)) && Columns(entries, docIds, tfs)
      ensures forall p :: p in entries ==> EntryFits(p) && TextPosting(docs, key, p)
      ensures forall d: nat, f: nat :: OccursAt(docs, [], key, d, f) ==> exists p :: p in entries && IsPosting(docs, [], key, d, f, p)
      ensures found && AllSeparable(docs) ==> Ascending(docIds)
      ensures found <==> PostingsOf(docs, key) != []
    {
      hide T.TermHashTable.Valid, AllStored, LensOk, Chain, SortedInto, Descending, TfSum, Partial, OccursAt, InText, TextPosting;
      ghost var ps := PostingsOf(docs, key);
      PostingsMean(docs, key);
      assert Wanted(docs, [])(key) == ps;
      assert HoldsPostings(arena.Mem(), table.contents, key, ps);
      var r := table.Lookup(key);
      found, docIds, tfs, entries := false, [], [], [];
      if !r.Found? { return; }
      var chain := ReadChain(arena, r.entry.head, ps);
      entries := Sort(chain, (p: Posting) => p.doc as real);
      PermutationMembers(chain, entries);
      for i := 0 to |entries|
        invariant |docIds| == |tfs| == i && Columns(entries[..i], docIds, tfs)
      {
        docIds, tfs := docIds + [entries[i].doc], tfs + [|entries[i].positions|];
      }
      assert entries[..|entries|] == entries;
      PartialFacts(docs, [], key);
      SortedPostings(ps, entries, docIds, tfs);
      if AllSeparable(docs) {
        NewestFirst(docs, [], key);
        StrictlySorted(ps, entries, docIds);
      }
      found := true;
    }

    // The posting list of a term for searching.
    method PostingList(field: string, term: string) returns (found: bool, docIds: seq<DocId>, tfs: seq<nat>)
      requires Valid()
      ensures found ==> SortedInto(docIds, tfs, PostingsOf(docs, Key(field, term)))
      ensures found && AllSeparable(docs) ==> Ascending(docIds)
      ensures found <==> PostingsOf(docs, Key(field, term)) != []
    {
      hide SortedInto, Partial;
      var entries;
      found, docIds, tfs, entries := KeyList(Key(field, term));
    }

    method ReadStoredDoc(d: nat) returns (m: map<seq<byte>, seq<byte>>)
      requires Valid() && 1 <= d <= docCount
      ensures m == AsMap(Kept(docs[d - 1].stored))
    {
      hide T.TermHashTable.Valid, AllKept, LensOk, Stored;
      var head := if d in storedHeads then storedHeads[d] else INVALID_OFFSET;
      m := ReadFields(arena, head, pages[d], d, docs[d - 1].stored);
    }

    lemma KeepsSame(a: string -> seq<Posting>, b: string -> seq<Posting>)
      requires Whole() && KeepsAll(a) && forall key :: a(key) == b(key)
      ensures KeepsAll(b)
    {
      hide HoldsPostings;
    }
  }

  ghost function TokenCount(fields: seq<FieldTokens>): nat {
    if fields == [] then 0 else TokenCount(fields[..|fields| - 1]) + |fields[|fields| - 1].tokens|
  }

  lemma NoKeys(docs: seq<Document>, before: seq<FieldTokens>, field: FieldTokens)
    requires field.tokens == []
    ensures SumNeeds(FieldKeys(field), KeyNeeds(docs, before, field)) == Needs(0, 0, 0)
  {
    assert FieldKeys(field) == {};
    SumNeedsNone(KeyNeeds(docs, before, field));
  }

  lemma NothingNeeded(docs: seq<Document>, level: Needs)
    ensures level.Plus(FieldsNeeds(docs, [])) == level
  {
  }

  // One field more: its needs come on top, and where they find no room the
  // whole document finds none.
  lemma FieldStep(docs: seq<Document>, fields: seq<FieldTokens>, i: nat, level: Needs, limit: Needs)
    requires i < |fields|
    ensures var n, field := FieldsNeeds(docs, fields[..i]), FieldTokens(fields[i].name, fields[i].tokens);
            var after := level.Plus(n).Plus(SumNeeds(FieldKeys(field), KeyNeeds(docs, fields[..i], field)));
            && level.Plus(FieldsNeeds(docs, fields[..i + 1])) == after
            && (!after.Within(limit) ==> !level.Plus(FieldsNeeds(docs, fields)).Within(limit))
            && (fields[i].tokens == [] ==> after == level.Plus(n))
  {
    hide SumNeeds, KeyNeeds, FieldKeys;
    assert fields[..i + 1][..i] == fields[..i];
    NeedsGrow(docs, fields, i + 1);
    if fields[i].tokens == [] {
      NoKeys(docs, fields[..i], fields[i]);
    }
  }

  // More fields never need less.
  lemma {:induction false} NeedsGrow(docs: seq<Document>, fields: seq<FieldTokens>, i: nat)
    requires i <= |fields|
    ensures FieldsNeeds(docs, fields[..i]).Within(FieldsNeeds(docs, fields))
    decreases |fields| - i
  {
    if i < |fields| {
      NeedsGrow(docs, fields, i + 1);
      assert fields[..i + 1][..i] == fields[..i];
    } else {
      assert fields[..i] == fields;
    }
  }

  // Grouping finds exactly the field's keys.
  lemma GroupKeys(field: FieldTokens, groups: map<string, seq<nat>>)
    requires TokensFit(field.tokens)
    requires forall key :: key in groups <==> PositionsIn(field.name, field.tokens, key) != []
    ensures groups.Keys == FieldKeys(field)
  {
    forall key
      ensures key in groups.Keys <==> key in FieldKeys(field)
    {
      PositionsFit(field.name, field.tokens, key);
    }
  }

  lemma EmptyField(docs: seq<Document>, fields: seq<FieldTokens>, i: nat)
    requires i < |fields| && fields[i].tokens == []
    ensures forall key :: Wanted(docs, fields[..i])(key) == Wanted(docs, fields[..i + 1])(key)
  {
    assert fields[..i + 1][..i] == fields[..i];
  }

  // With all its fields indexed, the document counts as added.
  lemma DocAdded(docs: seq<Document>, doc: Document)
    ensures forall key :: Wanted(docs, doc.indexed)(key) == Wanted(docs + [doc], [])(key)
  {
  }

  lemma OneMoreStored(mem: seq<byte>, docs: seq<Document>, heads: map<nat, nat>, pages: map<nat, seq<nat>>,
                      doc: Document, head: nat, stored: seq<nat>)
    requires AllStored(mem, docs, heads, pages) && (forall d :: d in heads ==> d <= |docs|)
    requires Stored(mem, head, stored, |docs| + 1, doc.stored)
    ensures var id := |docs| + 1;
            AllStored(mem, docs + [doc], if head != INVALID_OFFSET then heads[id := head] else heads, pages[id := stored])
  {
    hide Stored;
    var id := |docs| + 1;
    var heads' := if head != INVALID_OFFSET then heads[id := head] else heads;
    forall d | 1 <= d <= id
      ensures Stored(mem, if d in heads' then heads'[d] else INVALID_OFFSET, pages[id := stored][d], d, (docs + [doc])[d - 1].stored)
    {
    }
  }

  ghost predicate HasPosting(ps: seq<Posting>, doc: nat, tf: nat) {
    exists p :: p in ps && p.doc == doc && |p.positions| == tf
  }

  // Documents and frequencies of the entries, one by one.
  ghost predicate Columns(entries: seq<Posting>, docIds: seq<DocId>, tfs: seq<nat>) {
    && |docIds| == |tfs| == |entries|
    && forall i :: 0 <= i < |entries| ==> docIds[i] == entries[i].doc && tfs[i] == |entries[i].positions|
  }

  // The lists hold the same postings in document order.
  ghost predicate SortedInto(docIds: seq<DocId>, tfs: seq<nat>, ps: seq<Posting>) {
    && (forall i, j :: 0 <= i < j < |docIds| ==> docIds[i] <= docIds[j]) && |docIds| == |tfs| == |ps|
    && (forall i :: 0 <= i < |docIds| ==> docIds[i] < INVALID_DOC)
    && (forall i :: 0 <= i < |docIds| ==> HasPosting(ps, docIds[i], tfs[i]))
    && (forall p :: p in ps ==> exists i :: 0 <= i < |docIds| && docIds[i] == p.doc && tfs[i] == |p.positions|)
  }

  lemma SortedPostings(ps: seq<Posting>, sorted: seq<Posting>, docIds: seq<DocId>, tfs: seq<nat>)
    requires forall p :: p in ps ==> p.doc < INVALID_DOC
    requires multiset(sorted) == multiset(ps) && SortedBy(sorted, (p: Posting) => p.doc as real)
    requires |docIds| == |tfs| == |sorted|
    requires forall i :: 0 <= i < |sorted| ==> docIds[i] == sorted[i].doc && tfs[i] == |sorted[i].positions|
    ensures SortedInto(docIds, tfs, ps)
  {
    PermutationMembers(ps, sorted);
    var key := (p: Posting) => p.doc as real;
    forall i, j | 0 <= i < j < |docIds|
      ensures docIds[i] <= docIds[j]
    {
      assert key(sorted[i]) <= key(sorted[j]);
    }
    forall i | 0 <= i < |docIds|
      ensures HasPosting(ps, docIds[i], tfs[i])
    {
      var p := sorted[i];
      assert p in ps && p.doc == docIds[i] && |p.positions| == tfs[i];
    }
    forall p | p in ps
      ensures exists i :: 0 <= i < |docIds| && docIds[i] == p.doc && tfs[i] == |p.positions|
    {
      var i :| 0 <= i < |sorted| && sorted[i] == p;
      assert docIds[i] == p.doc;
    }
  }

  lemma StrictlySorted(ps: seq<Posting>, sorted: seq<Posting>, docIds: seq<DocId>)
    requires Descending(ps) && multiset(sorted) == multiset(ps) && SortedBy(sorted, (p: Posting) => p.doc as real)
    requires |docIds| == |sorted| && forall i :: 0 <= i < |sorted| ==> docIds[i] == sorted[i].doc
    ensures Ascending(docIds)
  {
    SortedApart(ps, sorted);
    forall i, j | 0 <= i < j < |docIds|
      ensures docIds[i] < docIds[j]
    {
      assert sorted[i].doc < sorted[j].doc;
    }
  }

  // Distinct documents in order are in strict order.
  lemma SortedApart(ps: seq<Posting>, sorted: seq<Posting>)
    requires Descending(ps) && multiset(sorted) == multiset(ps) && SortedBy(sorted, (p: Posting) => p.doc as real)
    ensures forall i, j :: 0 <= i < j < |sorted| ==> sorted[i].doc < sorted[j].doc
  {
    PermutationMembers(ps, sorted);
    PermutationDistinct(ps, sorted);
    var key := (p: Posting) => p.doc as real;
    forall i, j | 0 <= i < j < |sorted|
      ensures sorted[i].doc < sorted[j].doc
    {
      assert key(sorted[i]) <= key(sorted[j]);
      assert sorted[i] in ps && sorted[j] in ps && sorted[i] != sorted[j];
      if sorted[i].doc == sorted[j].doc {
        SameDocSamePosting(ps, sorted[i], sorted[j]);
      }
    }
  }

  lemma SameDocSamePosting(ps: seq<Posting>, p: Posting, q: Posting)
    requires Descending(ps) && p in ps && q in ps && p.doc == q.doc
    ensures p == q
  {
  }

  // Half way through a field: the keys in `rest` are still to be indexed.
  ghost function Grouped(docs: seq<Document>, before: seq<FieldTokens>, groups: map<string, seq<nat>>, rest: set<string>)
    : string -> seq<Posting>
  {
    (key: string) =>
      if key in groups && key !in rest then [Posting(|docs| + 1, groups[key])] + Partial(docs, before, key)
      else Partial(docs, before, key)
  }

  lemma GroupDone(docs: seq<Document>, before: seq<FieldTokens>, groups: map<string, seq<nat>>, rest: set<string>, key: string, doc: nat)
    requires key in rest && key in groups && doc == |docs| + 1
    ensures forall k :: WithPosting(Grouped(docs, before, groups, rest), key, Posting(doc, groups[key]))(k)
                        == Grouped(docs, before, groups, rest - {key})(k)
  {
  }

  lemma AllGroups(docs: seq<Document>, before: seq<FieldTokens>, field: FieldTokens, groups: map<string, seq<nat>>)
    requires forall key :: key in groups <==> PositionsIn(field.name, field.tokens, key) != []
    requires forall key :: key in groups ==> groups[key] == PositionsIn(field.name, field.tokens, key)
    ensures forall key :: Grouped(docs, before, groups, {})(key) == Wanted(docs, before + [field])(key)
  {
    assert (before + [field])[..|before|] == before;
  }

  lemma EmptyChain(mem: seq<byte>)
    ensures Chain(mem, INVALID_OFFSET, [])
  {
  }

  lemma TfSumMore(p: Posting, older: seq<Posting>)
    ensures TfSum([p] + older) == |p.positions| + TfSum(older)
  {
  }

  // ---------------------------------------------------------------- conservation

  ghost function SumOver(keys: set<string>, f: string -> nat): nat {
    if keys == {} then 0
    else
      var k :| k in keys;
      f(k) + SumOver(keys - {k}, f)
  }

  lemma {:induction false} SumOverPick(keys: set<string>, f: string -> nat, k: string)
    requires k in keys
    ensures SumOver(keys, f) == f(k) + SumOver(keys - {k}, f)
    decreases |keys|
  {
    var j :| j in keys && SumOver(keys, f) == f(j) + SumOver(keys - {j}, f);
    if j != k {
      SumOverPick(keys - {j}, f, k);
      SumOverPick(keys - {k}, f, j);
      assert keys - {j} - {k} == keys - {k} - {j};
    }
  }

  lemma {:induction false} SumOverAdd(keys: set<string>, f: string -> nat, g: string -> nat, h: string -> nat)
    requires forall k :: k in keys ==> h(k) == f(k) + g(k)
    ensures SumOver(keys, h) == SumOver(keys, f) + SumOver(keys, g)
    decreases |keys|
  {
    if keys != {} {
      var k :| k in keys;
      SumOverPick(keys, f, k);
      SumOverPick(keys, g, k);
      SumOverPick(keys, h, k);
      SumOverAdd(keys - {k}, f, g, h);
    }
  }

  lemma {:induction false} SumOverZero(keys: set<string>, f: string -> nat)
    requires forall k :: k in keys ==> f(k) == 0
    ensures SumOver(keys, f) == 0
    decreases |keys|
  {
    if keys != {} {
      var k :| k in keys;
      SumOverPick(keys, f, k);
      SumOverZero(keys - {k}, f);
    }
  }

  lemma SumOverOne(keys: set<string>, f: string -> nat, k: string)
    requires k in keys && f(k) == 1 && forall j :: j in keys && j != k ==> f(j) == 0
    ensures SumOver(keys, f) == 1
  {
    SumOverPick(keys, f, k);
    SumOverZero(keys - {k}, f);
  }

  ghost predicate KeysOfField(keys: set<string>, name: string) {
    forall k :: k in keys ==> exists t :: k == Key(name, t)
  }

  ghost predicate CoversField(keys: set<string>, tokens: seq<Token>, name: string) {
    forall t :: t in tokens ==> Key(name, t.term) in keys
  }

  // Grouping a field's tokens by key loses and repeats none.
  lemma {:induction false} TokensByKey(keys: set<string>, name: string, tokens: seq<Token>)
    requires CoversField(keys, tokens, name)
    ensures SumOver(keys, (k: string) => |PositionsIn(name, tokens, k)|) == |tokens|
  {
    var h := (k: string) => |PositionsIn(name, tokens, k)|;
    if tokens == [] {
      SumOverZero(keys, h);
    } else {
      var front, last := tokens[..|tokens| - 1], tokens[|tokens| - 1];
      assert tokens == front + [last];
      var one: string -> nat := (k: string) => if Key(name, last.term) == k then 1 else 0;
      TokensByKey(keys, name, front);
      SumOverOne(keys, one, Key(name, last.term));
      forall k | k in keys
        ensures h(k) == |PositionsIn(name, front, k)| + one(k)
      {
      }
      hide PositionsIn, CoversField;
      SumOverAdd(keys, (k: string) => |PositionsIn(name, front, k)|, one, h);
    }
  }

  ghost function TtfIn(docs: seq<Document>, fields: seq<FieldTokens>): string -> nat {
    (k: string) => TfSum(Partial(docs, fields, k))
  }

  lemma TfStep(docs: seq<Document>, fields: seq<FieldTokens>, key: string)
    requires fields != []
    ensures var last := fields[|fields| - 1];
            TtfIn(docs, fields)(key) == TtfIn(docs, fields[..|fields| - 1])(key) + |PositionsIn(last.name, last.tokens, key)|
  {
    var last := fields[|fields| - 1];
    TfSumMore(Posting(|docs| + 1, PositionsIn(last.name, last.tokens, key)), Partial(docs, fields[..|fields| - 1], key));
  }

  // A field's token total is the sum of its terms' frequencies, in whatever
  // documents no other field shares a key with it.
  lemma {:induction false} TotalsByKey(keys: set<string>, name: string, docs: seq<Document>, fields: seq<FieldTokens>)
    requires KeysOfField(keys, name) && Alone(docs, name)
    requires forall f :: f in fields ==> TokensFit(f.tokens) && (f.name == name || !Clash(f.name, name))
    requires forall f :: f in fields && f.name == name ==> CoversField(keys, f.tokens, name)
    requires forall d, f :: d in docs && f in d.indexed && f.name == name ==> CoversField(keys, f.tokens, name)
    ensures SumOver(keys, TtfIn(docs, fields)) == FieldTotal(docs, name) + FieldLen(fields, name)
    decreases |docs|, |fields|
  {
    hide KeysOfField, CoversField, Partial, TfSum, PositionsIn, Clash;
    if fields != [] {
      var front, last := fields[..|fields| - 1], fields[|fields| - 1];
      assert fields == front + [last];
      TotalsByKey(keys, name, docs, front);
      FieldByKey(keys, name, last);
      forall k | k in keys
        ensures TtfIn(docs, fields)(k) == TtfIn(docs, front)(k) + |PositionsIn(last.name, last.tokens, k)|
      {
        TfStep(docs, fields, k);
      }
      SumOverAdd(keys, TtfIn(docs, front), (k: string) => |PositionsIn(last.name, last.tokens, k)|, TtfIn(docs, fields));
    } else if docs != [] {
      var front, last := docs[..|docs| - 1], docs[|docs| - 1];
      assert docs == front + [last];
      TotalsByKey(keys, name, front, last.indexed);
      SameTtf(docs);
      SumOverSame(keys, TtfIn(docs, []), TtfIn(front, last.indexed));
    } else {
      NoTtf();
      SumOverZero(keys, TtfIn(docs, fields));
    }
  }

  lemma SameTtf(docs: seq<Document>)
    requires docs != []
    ensures forall k :: TtfIn(docs, [])(k) == TtfIn(docs[..|docs| - 1], docs[|docs| - 1].indexed)(k)
  {
    hide TfSum;
  }

  lemma NoTtf()
    ensures forall k :: TtfIn([], [])(k) == 0
  {
  }

  lemma {:induction false} SumOverSame(keys: set<string>, f: string -> nat, g: string -> nat)
    requires forall k :: k in keys ==> f(k) == g(k)
    ensures SumOver(keys, f) == SumOver(keys, g)
    decreases |keys|
  {
    if keys != {} {
      var k :| k in keys;
      SumOverPick(keys, f, k);
      SumOverPick(keys, g, k);
      SumOverSame(keys - {k}, f, g);
    }
  }

  // What one field adds to a field's keys: its tokens, if it is that field.
  lemma FieldByKey(keys: set<string>, name: string, field: FieldTokens)
    requires KeysOfField(keys, name) && TokensFit(field.tokens) && (field.name == name || !Clash(field.name, name))
    requires field.name == name ==> CoversField(keys, field.tokens, name)
    ensures SumOver(keys, (k: string) => |PositionsIn(field.name, field.tokens, k)|) == if field.name == name then |field.tokens| else 0
  {
    if field.name == name {
      TokensByKey(keys, name, field.tokens);
    } else {
      NotClashing(field.name, name);
      var g := (k: string) => |PositionsIn(field.name, field.tokens, k)|;
      forall k | k in keys
        ensures g(k) == 0
      {
        var t :| k == Key(name, t);
        ForeignField(name, field.name, field.tokens, t);
      }
      SumOverZero(keys, g);
    }
  }
}
