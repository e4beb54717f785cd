// The open-addressing hash table from terms to posting-list heads, with its
// append-only string storage.
module TermHashTables {
  import Bits

  datatype Outcome<+T> = Ok(value: T) | BadAlloc | Overflow

  // Term strings, back to back; nothing stored is ever overwritten until the
  // whole arena is reset.
  class StringArena {
    const base: array<char>
    var offset: nat

    ghost predicate Valid()
      reads this
    {
      offset <= base.Length
    }

    ghost function Text(): string
      requires Valid()
      reads this, base
    {
      base[..offset]
    }

    constructor (capacity: nat)
      ensures Valid() && Text() == "" && base.Length == capacity && fresh(base)
    {
      base := new char[capacity];
      offset := 0;
    }

    method Store(s: string) returns (r: Outcome<nat>)
      requires Valid()
      modifies this, base
      ensures Valid()
      ensures if old(offset) + |s| > base.Length then r == BadAlloc && Text() == old(Text())
              else r == Ok(old(offset)) && Text() == old(Text()) + s && offset == old(offset) + |s|
    {
      if offset + |s| > base.Length { return BadAlloc; }
      forall i | 0 <= i < |s| {
        base[offset + i] := s[i];
      }
      r := Ok(offset);
      offset := offset + |s|;
    }

    function Get(at: nat, len: nat): string
      requires at + len <= base.Length
      reads base
    {
      base[at..at + len]
    }

    method Reset()
      modifies this
      ensures Valid() && Text() == ""
    {
      offset := 0;
    }
  }

  datatype LookupResult = Found(entry: Entry) | NotFound | TableFull

  // A slot; a hash of 0 marks it empty.
  datatype Bucket = Bucket(termHash: nat, strOffset: nat, strLen: nat, head: nat, docFreq: nat, totalTf: nat)

  const EMPTY := Bucket(0, 0, 0, 0, 0, 0)

  // What the table says about a term.
  datatype Entry = Entry(head: nat, docFreq: nat, totalTf: nat)

  // ---------------------------------------------------------------- probing

  // The slot j places on from start, around the end of the table.
  function At(start: nat, j: nat, cap: nat): (i: nat)
    requires start < cap && j < cap
    ensures i < cap
  {
    if start + j < cap then start + j else start + j - cap
  }

  // How many places slot i is on from start.
  function Dist(start: nat, i: nat, cap: nat): (j: nat)
    requires start < cap && i < cap
    ensures j < cap && At(start, j, cap) == i
  {
    if i >= start then i - start else i + cap - start
  }

  // A slot as the table means it.
  datatype Slot = Free | Full(term: string, entry: Entry)

  // The slots of a table and the hash that places terms in them.
  datatype Table = Table(slots: seq<Slot>, hash: string -> nat)
  {
    function Start(s: string): (i: nat)
      requires |slots| > 0
      ensures i < |slots|
    {
      hash(s) % |slots|
    }

    ghost predicate Holds(s: string, i: nat) {
      i < |slots| && slots[i].Full? && slots[i].term == s
    }

    // No probe for the term in slot i meets a gap before slot i.
    ghost predicate Reachable(i: nat)
      requires i < |slots| && slots[i].Full?
    {
      forall j :: 0 <= j < Dist(Start(slots[i].term), i, |slots|) ==> slots[At(Start(slots[i].term), j, |slots|)].Full?
    }

    // Terms are held once, and every one can be reached.
    ghost predicate Ok() {
      && |slots| > 0
      && (forall i, k :: 0 <= i < k < |slots| && slots[i].Full? && slots[k].Full? ==> slots[i].term != slots[k].term)
      && (forall i :: 0 <= i < |slots| && slots[i].Full? ==> Reachable(i))
    }

    // The map the table stands for.
    ghost predicate Represents(m: map<string, Entry>) {
      && (forall s :: s in m ==> exists i: nat :: Holds(s, i) && m[s] == slots[i].entry)
      && (forall i :: 0 <= i < |slots| && slots[i].Full? ==> slots[i].term in m)
    }

    // The first p probes for s meet full slots that hold other terms.
    ghost predicate Passed(s: string, p: nat)
      requires |slots| > 0
    {
      p <= |slots| && forall j :: 0 <= j < p ==> slots[At(Start(s), j, |slots|)].Full? && slots[At(Start(s), j, |slots|)].term != s
    }

    // Probing for a held term cannot pass its slot or find a gap before it.
    lemma NotPassed(s: string, p: nat, i: nat)
      requires Ok() && Passed(s, p) && Holds(s, i)
      ensures p < |slots| && p <= Dist(Start(s), i, |slots|)
      ensures p == Dist(Start(s), i, |slots|) || slots[At(Start(s), p, |slots|)].Full?
    {
      var d := Dist(Start(s), i, |slots|);
      assert At(Start(s), d, |slots|) == i;
      assert forall j :: 0 <= j < p ==> At(Start(s), j, |slots|) != i;
    }

    // A search that runs around the whole table has seen every slot.
    lemma PassedAll(s: string)
      requires Ok() && Passed(s, |slots|)
      ensures forall i :: 0 <= i < |slots| ==> slots[i].Full? && !Holds(s, i)
    {
      forall i | 0 <= i < |slots|
        ensures slots[i].Full? && !Holds(s, i)
      {
        var j := Dist(Start(s), i, |slots|);
        assert At(Start(s), j, |slots|) == i;
      }
    }

    // Filling slots leaves every term where it can be reached.
    lemma ReachStays(u: Table, i: nat)
      requires i < |slots| == |u.slots| && hash == u.hash && slots[i].Full? && Reachable(i)
      requires u.slots[i].Full? && u.slots[i].term == slots[i].term
      requires forall k :: 0 <= k < |slots| && slots[k].Full? ==> u.slots[k].Full?
      ensures u.Reachable(i)
    {
      var start := Start(slots[i].term);
      assert u.Start(u.slots[i].term) == start;
      forall j | 0 <= j < Dist(start, i, |slots|)
        ensures u.slots[At(start, j, |slots|)].Full?
      {
        assert slots[At(start, j, |slots|)].Full?;
      }
    }

    // A slot of s is filled, or filled again.
    lemma PutMap(m: map<string, Entry>, s: string, at: nat, e: Entry)
      requires Represents(m) && at < |slots|
      requires if slots[at].Free? then s !in m else slots[at].term == s
      ensures this.(slots := slots[at := Full(s, e)]).Represents(m[s := e])
    {
      var u, m' := this.(slots := slots[at := Full(s, e)]), m[s := e];
      forall x | x in m'
        ensures exists i: nat :: u.Holds(x, i) && m'[x] == u.slots[i].entry
      {
        if x == s {
          assert u.Holds(s, at);
        } else {
          var i: nat :| Holds(x, i) && m[x] == slots[i].entry;
          assert u.Holds(x, i);
        }
      }
    }

    // A new term goes into the free slot its probe ended at.
    lemma Inserted(m: map<string, Entry>, s: string, p: nat, e: Entry)
      requires Ok() && Represents(m) && s !in m && p < |slots| && Passed(s, p)
      requires slots[At(Start(s), p, |slots|)].Free?
      ensures this.(slots := slots[At(Start(s), p, |slots|) := Full(s, e)]).Ok()
    {
      var at := At(Start(s), p, |slots|);
      var u := this.(slots := slots[at := Full(s, e)]);
      forall i | 0 <= i < |slots| && u.slots[i].Full?
        ensures u.Reachable(i)
      {
        if i == at {
          assert Dist(Start(s), at, |slots|) == p;
        } else {
          ReachStays(u, i);
        }
      }
    }

    // A known term's slot gets a new entry.
    lemma Updated(s: string, at: nat, e: Entry)
      requires Ok() && Holds(s, at)
      ensures this.(slots := slots[at := Full(s, e)]).Ok()
    {
      var u := this.(slots := slots[at := Full(s, e)]);
      forall i | 0 <= i < |slots| && u.slots[i].Full?
        ensures u.Reachable(i)
      {
        ReachStays(u, i);
      }
    }

    // Each term stands in one slot, with its entry.
    lemma EntryOf(m: map<string, Entry>, i: nat)
      requires Ok() && Represents(m) && i < |slots| && slots[i].Full?
      ensures slots[i].term in m && m[slots[i].term] == slots[i].entry
    {
    }
  }

  // The bucket b, with the stored text, stands for the slot x.
  ghost predicate Stands(b: Bucket, text: string, hash: string -> nat, x: Slot) {
    match x
    case Free => b.termHash == 0
    case Full(term, entry) =>
      && b.termHash == hash(term)
      && b.strOffset + b.strLen <= |text| && text[b.strOffset..b.strOffset + b.strLen] == term
      && entry == Entry(b.head, b.docFreq, b.totalTf)
  }

  // Text stored later does not change what is there.
  lemma StandsOn(b: Bucket, text: string, more: string, hash: string -> nat, x: Slot)
    requires Stands(b, text, hash, x)
    ensures Stands(b, text + more, hash, x)
  {
  }

  lemma FreeIsZero(b: Bucket, text: string, hash: string -> nat, x: Slot)
    requires Stands(b, text, hash, x) && forall s :: 0 < hash(s)
    ensures b.termHash == 0 <==> x.Free?
  {
  }

  lemma NewStands(text: string, term: string, hash: string -> nat, e: Entry)
    ensures Stands(Bucket(hash(term), |text|, |term|, e.head, e.docFreq, e.totalTf), text + term, hash, Full(term, e))
  {
  }

  lemma Restands(b: Bucket, text: string, hash: string -> nat, x: Slot, newHead: nat, tf: nat)
    requires Stands(b, text, hash, x) && x.Full?
    ensures Stands(b.(head := newHead, docFreq := b.docFreq + 1, totalTf := b.totalTf + tf), text, hash,
                   Full(x.term, Entry(newHead, x.entry.docFreq + 1, x.entry.totalTf + tf)))
  {
  }

  // ---------------------------------------------------------------- the table

  ghost function Occupied(slots: seq<Slot>): nat {
    if slots == [] then 0 else Occupied(slots[..|slots| - 1]) + if slots[|slots| - 1].Full? then 1 else 0
  }

  lemma {:induction false} OccupiedAll(slots: seq<Slot>)
    ensures Occupied(slots) <= |slots|
    ensures Occupied(slots) == |slots| <==> forall i :: 0 <= i < |slots| ==> slots[i].Full?
  {
    if slots != [] {
      OccupiedAll(slots[..|slots| - 1]);
    }
  }

  lemma {:induction false} OccupiedUpdate(slots: seq<Slot>, at: nat, x: Slot)
    requires at < |slots| && x.Full?
    ensures Occupied(slots[at := x]) == Occupied(slots) + if slots[at].Full? then 0 else 1
  {
    var n := |slots| - 1;
    if at < n {
      OccupiedUpdate(slots[..n], at, x);
      assert slots[at := x][..n] == slots[..n][at := x];
    } else {
      assert slots[at := x][..n] == slots[..n];
    }
  }

  lemma {:induction false} OccupiedNone(slots: seq<Slot>)
    requires forall i :: 0 <= i < |slots| ==> slots[i].Free?
    ensures Occupied(slots) == 0
  {
    if slots != [] {
      OccupiedNone(slots[..|slots| - 1]);
    }
  }

  // One posting more for a term.
  function Bumped(m: map<string, Entry>, term: string, newHead: nat, tf: nat): Entry {
    if term in m then Entry(newHead, m[term].docFreq + 1, m[term].totalTf + tf) else Entry(newHead, 1, tf)
  }

  lemma StepAround(start: nat, p: nat, cap: nat)
    requires start < cap && p + 1 < cap
    ensures (At(start, p, cap) + 1) % cap == At(start, p + 1, cap)
  {
    var i := At(start, p, cap);
    if i + 1 < cap {
      SmallMod(i + 1, cap);
    } else {
      WholeMod(cap);
    }
  }

  lemma NextAround(i: nat, cap: nat)
    requires cap > 0
    ensures (i % cap + 1) % cap == (i + 1) % cap
  {
    var q, r := i / cap, i % cap;
    assert i == q * cap + r;
    if r + 1 < cap {
      SmallMod(r + 1, cap);
      Remainder(i + 1, cap, q, r + 1);
    } else {
      WholeMod(cap);
      assert i + 1 == (q + 1) * cap + 0;
      Remainder(i + 1, cap, q + 1, 0);
    }
  }

  lemma Remainder(i: nat, cap: nat, q: nat, r: nat)
    requires r < cap && i == q * cap + r
    ensures i % cap == r
  {
    Bits.QuotientIs(i, cap, q, r);
  }

  lemma WholeMod(cap: nat)
    requires cap > 0
    ensures cap % cap == 0
  {
  }

  lemma SmallMod(i: nat, cap: nat)
    requires i < cap
    ensures i % cap == i
  {
  }

  class TermHashTable {
    const buckets: array<Bucket>
    const capacity: nat
    var size: nat
    const strArena: StringArena
    const hash: string -> nat
    ghost var slots: seq<Slot>
    ghost var contents: map<string, Entry>

    ghost predicate Valid()
      reads this, buckets, strArena, strArena.base
      ensures Valid() ==> size <= capacity && strArena.offset <= strArena.base.Length
    {
      OccupiedAll(slots);
      && strArena.Valid()
      && capacity == buckets.Length == |slots| && capacity > 0
      && (forall s :: 0 < hash(s))
      && View().Ok() && View().Represents(contents)
      && (forall i :: 0 <= i < capacity ==> Stands(buckets[i], strArena.Text(), hash, slots[i]))
      && size == Occupied(slots)
    }

    ghost function View(): Table
      reads this
    {
      Table(slots, hash)
    }

    constructor (capacity: nat, strBytes: nat, hash: string -> nat)
      requires capacity > 0 && forall s :: 0 < hash(s)
      ensures Valid() && contents == map[] && size == 0 && this.capacity == capacity
      ensures fresh(buckets) && fresh(strArena) && fresh(strArena.base)
    {
      this.capacity, this.hash, this.size := capacity, hash, 0;
      this.buckets := new Bucket[capacity](_ => EMPTY);
      this.strArena := new StringArena(strBytes);
      this.slots := seq(capacity, _ => Free);
      this.contents := map[];
      OccupiedNone(seq(capacity, _ => Free));
    }

    // The slot the term is in, or the free slot where it belongs; Overflow
    // when the table is full and does not hold it.
    method FindSlot(term: string, h: nat) returns (r: Outcome<nat>, ghost p: nat)
      requires Valid() && h == hash(term)
      ensures View().Passed(term, p) && r != BadAlloc
      ensures r == Overflow ==> p == capacity
      ensures r.Ok? ==> p < capacity && r.value == At(View().Start(term), p, capacity)
      ensures r.Ok? ==> slots[r.value].Free? || slots[r.value].term == term
      ensures r.Ok? ==> r.value == (h + p) % capacity
    {
      hide Table.Ok, Table.Represents, Stands;
      var idx := h % capacity;
      var probe := 0;
      while probe < capacity
        invariant probe <= capacity && View().Passed(term, probe)
        invariant probe < capacity ==> idx == At(View().Start(term), probe, capacity) == (h + probe) % capacity
      {
        var free, same := Compare(idx, term, h);
        if free || same {
          return Ok(idx), probe;
        }
        NextAround(h + probe, capacity);
        if probe + 1 < capacity {
          StepAround(View().Start(term), probe, capacity);
        }
        idx := (idx + 1) % capacity;
        probe := probe + 1;
      }
      return Overflow, probe;
    }

    // Is the slot empty, or does it hold this term?
    method Compare(idx: nat, term: string, h: nat) returns (free: bool, same: bool)
      requires Valid() && h == hash(term) && idx < capacity
      ensures free == slots[idx].Free?
      ensures same == (slots[idx].Full? && slots[idx].term == term)
    {
      hide Table.Ok, Table.Represents;
      var b := buckets[idx];
      assert Stands(b, strArena.Text(), hash, slots[idx]);
      PrefixSlice(strArena.base[..], strArena.offset, b.strOffset, b.strOffset + b.strLen);
      free := b.termHash == 0;
      same := !free && b.termHash == h && b.strLen == |term| && strArena.Get(b.strOffset, b.strLen) == term;
    }

    // What FindSlot's answer means for the map.
    lemma SlotMeans(term: string, r: Outcome<nat>, p: nat)
      requires Valid() && View().Passed(term, p)
      requires r == Overflow ==> p == capacity
      requires r.Ok? ==> p < capacity && r.value == At(View().Start(term), p, capacity)
      requires r.Ok? ==> slots[r.value].Free? || slots[r.value].term == term
      ensures r == Overflow ==> term !in contents && size == capacity
      ensures r.Ok? && slots[r.value].Free? ==> term !in contents && size < capacity
      ensures r.Ok? && slots[r.value].Full? ==> term in contents && contents[term] == slots[r.value].entry
    {
      OccupiedAll(slots);
      if term in contents {
        var i: nat :| View().Holds(term, i) && contents[term] == slots[i].entry;
        View().NotPassed(term, p, i);
      }
      if r == Overflow {
        View().PassedAll(term);
      }
    }

    // A posting for a term: its head moves to the newest page and its
    // counters grow; a new term takes a slot. A full table, or a full string
    // arena, refuses a new term and changes nothing.
    method Upsert(term: string, newHead: nat, tf: nat) returns (r: Outcome<nat>)
      requires Valid()
      modifies this, buckets, strArena, strArena.base
      ensures Valid()
      ensures r == Overflow <==> term !in old(contents) && old(size) == capacity
      ensures r == BadAlloc <==> term !in old(contents) && old(size) < capacity && old(strArena.offset) + |term| > strArena.base.Length
      ensures r.Ok? ==> contents == old(contents)[term := Bumped(old(contents), term, newHead, tf)]
      ensures r.Ok? ==> size == old(size) + if term in old(contents) then 0 else 1
      ensures r.Ok? ==> strArena.offset == old(strArena.offset) + if term in old(contents) then 0 else |term|
      ensures !r.Ok? ==> contents == old(contents) && size == old(size) && View() == old(View())
    {
      hide Table.Ok, Table.Represents, Stands, Table.Passed;
      var h := hash(term);
      ghost var p;
      r, p := FindSlot(term, h);
      SlotMeans(term, r, p);
      if r == Overflow { return; }
      var idx := r.value;
      var b := buckets[idx];
      FreeIsZero(b, strArena.Text(), hash, slots[idx]);
      if b.termHash == 0 {
        var ok := InsertAt(term, h, idx, p, newHead, tf);
        r := if ok then r else BadAlloc;
      } else {
        UpdateAt(term, idx, newHead, tf);
      }
    }

    method InsertAt(term: string, h: nat, idx: nat, ghost p: nat, newHead: nat, tf: nat) returns (ok: bool)
      requires Valid() && h == hash(term) && term !in contents
      requires p < capacity && View().Passed(term, p) && idx == At(View().Start(term), p, capacity) && slots[idx].Free?
      modifies this, buckets, strArena, strArena.base
      ensures Valid()
      ensures ok == (old(strArena.offset) + |term| <= strArena.base.Length)
      ensures ok ==> contents == old(contents)[term := Entry(newHead, 1, tf)] && size == old(size) + 1
      ensures ok ==> strArena.offset == old(strArena.offset) + |term|
      ensures !ok ==> contents == old(contents) && size == old(size) && View() == old(View())
    {
      hide Table.Ok, Table.Represents, Stands, Table.Passed;
      ghost var text := strArena.Text();
      var off := strArena.Store(term);
      if off == BadAlloc { return false; }
      forall i | 0 <= i < capacity
        ensures Stands(buckets[i], strArena.Text(), hash, slots[i])
      {
        StandsOn(buckets[i], text, term, hash, slots[i]);
      }
      ghost var e := Entry(newHead, 1, tf);
      View().Inserted(contents, term, p, e);
      View().PutMap(contents, term, idx, e);
      OccupiedUpdate(slots, idx, Full(term, e));
      NewStands(text, term, hash, e);
      buckets[idx] := Bucket(h, off.value, |term|, newHead, 1, tf);
      size := size + 1;
      slots, contents := slots[idx := Full(term, e)], contents[term := e];
      return true;
    }

    method UpdateAt(term: string, idx: nat, newHead: nat, tf: nat)
      requires Valid() && idx < capacity && View().Holds(term, idx) && term in contents && contents[term] == slots[idx].entry
      modifies this, buckets
      ensures Valid()
      ensures contents == old(contents)[term := Bumped(old(contents), term, newHead, tf)] && size == old(size)
    {
      hide Table.Ok, Table.Represents, Stands;
      var b := buckets[idx];
      ghost var e := Bumped(contents, term, newHead, tf);
      View().Updated(term, idx, e);
      View().PutMap(contents, term, idx, e);
      OccupiedUpdate(slots, idx, Full(term, e));
      Restands(b, strArena.Text(), hash, slots[idx], newHead, tf);
      buckets[idx] := b.(head := newHead, docFreq := b.docFreq + 1, totalTf := b.totalTf + tf);
      slots, contents := slots[idx := Full(term, e)], contents[term := e];
    }

    // The entry of a term, none if it was never inserted; asking a full table
    // for a term it does not hold is an error.
    method Lookup(term: string) returns (r: LookupResult)
      requires Valid()
      ensures r == if term in contents then Found(contents[term]) else if size == capacity then TableFull else NotFound
    {
      var slot;
      ghost var p;
      slot, p := FindSlot(term, hash(term));
      SlotMeans(term, slot, p);
      if slot == Overflow { return TableFull; }
      var b := buckets[slot.value];
      assert Stands(b, strArena.Text(), hash, slots[slot.value]);
      if b.termHash == 0 { return NotFound; }
      r := Found(Entry(b.head, b.docFreq, b.totalTf));
    }

    // Visits every term once, with its entry.
    method ForEach() returns (visited: seq<(string, Entry)>)
      requires Valid()
      ensures forall i, k :: 0 <= i < k < |visited| ==> visited[i].0 != visited[k].0
      ensures forall i :: 0 <= i < |visited| ==> visited[i].0 in contents && contents[visited[i].0] == visited[i].1
      ensures forall t :: t in contents ==> exists i :: 0 <= i < |visited| && visited[i].0 == t
      ensures |visited| == size
    {
      visited := [];
      for i := 0 to capacity
        invariant visited == Entries(slots[..i])
      {
        var b := buckets[i];
        assert Stands(b, strArena.Text(), hash, slots[i]);
        assert slots[..i + 1][..i] == slots[..i];
        if b.termHash != 0 {
          PrefixSlice(strArena.base[..], strArena.offset, b.strOffset, b.strOffset + b.strLen);
          visited := visited + [(strArena.Get(b.strOffset, b.strLen), Entry(b.head, b.docFreq, b.totalTf))];
        }
      }
      assert slots[..capacity] == slots;
      EntriesAre(View(), contents);
    }

    method Reset()
      requires Valid()
      modifies this, buckets, strArena
      ensures Valid() && contents == map[] && size == 0
    {
      forall i | 0 <= i < capacity {
        buckets[i] := EMPTY;
      }
      size := 0;
      strArena.Reset();
      slots, contents := seq(capacity, _ => Free), map[];
      OccupiedNone(slots);
    }
  }

  lemma PrefixSlice(s: string, n: nat, lo: nat, hi: nat)
    ensures n <= |s| && lo <= hi <= n ==> s[..n][lo..hi] == s[lo..hi]
  {
  }

  ghost function Entries(slots: seq<Slot>): seq<(string, Entry)> {
    if slots == [] then []
    else
      var front, x := Entries(slots[..|slots| - 1]), slots[|slots| - 1];
      if x.Full? then front + [(x.term, x.entry)] else front
  }

  lemma {:induction false} EntriesFrom(slots: seq<Slot>)
    ensures forall v :: v in Entries(slots) <==> exists i :: 0 <= i < |slots| && slots[i] == Full(v.0, v.1)
    ensures |Entries(slots)| == Occupied(slots)
  {
    if slots != [] {
      var front, x := slots[..|slots| - 1], slots[|slots| - 1];
      EntriesFrom(front);
      assert slots == front + [x];
      forall v
        ensures v in Entries(slots) <==> exists i :: 0 <= i < |slots| && slots[i] == Full(v.0, v.1)
      {
        assert v in Entries(slots) <==> v in Entries(front) || x == Full(v.0, v.1);
        if i :| 0 <= i < |front| && front[i] == Full(v.0, v.1) {
          assert slots[i] == front[i];
        }
        if x == Full(v.0, v.1) {
          assert slots[|slots| - 1] == Full(v.0, v.1);
        }
      }
    }
  }

  lemma {:induction false} EntriesDistinct(slots: seq<Slot>)
    requires forall i, k :: 0 <= i < k < |slots| && slots[i].Full? && slots[k].Full? ==> slots[i].term != slots[k].term
    ensures forall i, k :: 0 <= i < k < |Entries(slots)| ==> Entries(slots)[i].0 != Entries(slots)[k].0
  {
    if slots != [] {
      var front, x := slots[..|slots| - 1], slots[|slots| - 1];
      EntriesDistinct(front);
      EntriesFrom(front);
      forall i | 0 <= i < |Entries(front)| && x.Full?
        ensures Entries(front)[i].0 != x.term
      {
        var v := Entries(front)[i];
        assert v in Entries(front);
        var k :| 0 <= k < |front| && front[k] == Full(v.0, v.1);
        assert slots[k] == front[k];
      }
    }
  }

  lemma EntriesAre(t: Table, m: map<string, Entry>)
    requires t.Ok() && t.Represents(m)
    ensures var vs := Entries(t.slots);
            && (forall i, k :: 0 <= i < k < |vs| ==> vs[i].0 != vs[k].0)
            && (forall i :: 0 <= i < |vs| ==> vs[i].0 in m && m[vs[i].0] == vs[i].1)
            && (forall s :: s in m ==> exists i :: 0 <= i < |vs| && vs[i].0 == s)
            && |vs| == Occupied(t.slots)
  {
    var vs := Entries(t.slots);
    EntriesFrom(t.slots);
    EntriesDistinct(t.slots);
    forall i | 0 <= i < |vs|
      ensures vs[i].0 in m && m[vs[i].0] == vs[i].1
    {
      assert vs[i] in vs;
      var k: nat :| k < |t.slots| && t.slots[k] == Full(vs[i].0, vs[i].1);
      t.EntryOf(m, k);
    }
    forall s | s in m
      ensures exists i :: 0 <= i < |vs| && vs[i].0 == s
    {
      var k: nat :| t.Holds(s, k) && m[s] == t.slots[k].entry;
      assert (s, t.slots[k].entry) in vs;
    }
  }
}
