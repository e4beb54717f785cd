// The bump arena of a memory segment: one block of bytes, allocated from the
// bottom up in pages that are addressed by 32-bit offsets.
module Arena {
  import opened Bits

  const INVALID_OFFSET: nat := 0xFFFF_FFFF

  function AlignUp(offset: nat, align: nat): nat
    requires align > 0
  {
    (offset + align - 1) / align * align
  }

  // The first multiple of `align` from the offset on.
  lemma AlignsUp(offset: nat, align: nat)
    requires align > 0
    ensures exists n: nat :: AlignUp(offset, align) == n * align
    ensures offset <= AlignUp(offset, align) < offset + align
  {
    var n := (offset + align - 1) / align;
    assert offset + align - 1 == n * align + (offset + align - 1) % align;
  }

  lemma AlignedStays(offset: nat)
    requires offset % 4 == 0
    ensures AlignUp(offset, 4) == offset
  {
  }

  // What was written earlier is still there.
  ghost predicate Extends(mem: seq<byte>, mem': seq<byte>) {
    |mem| <= |mem'| && mem'[..|mem|] == mem
  }

  lemma ExtendsSelf(mem: seq<byte>)
    ensures Extends(mem, mem)
  {
  }

  lemma ExtendsTransitive(a: seq<byte>, b: seq<byte>, c: seq<byte>)
    requires Extends(a, b) && Extends(b, c)
    ensures Extends(a, c)
  {
  }

  lemma WordStays(mem: seq<byte>, mem': seq<byte>, at: nat)
    requires Extends(mem, mem') && at + 4 <= |mem|
    ensures Get32(mem', at) == Get32(mem, at)
  {
  }

  class SegmentArena {
    const base: array<byte>
    const capacity: nat
    var offset: nat

    ghost predicate Valid()
      reads this
    {
      capacity == base.Length && capacity <= INVALID_OFFSET && offset <= capacity && offset % 4 == 0
    }

    // The bytes handed out so far.
    ghost function Mem(): seq<byte>
      requires Valid()
      reads this, base
    {
      base[..offset]
    }

    constructor (capacity: nat)
      requires capacity <= INVALID_OFFSET
      ensures Valid() && offset == 0 && this.capacity == capacity && fresh(base)
    {
      this.capacity := capacity;
      base := new byte[capacity](_ => 0);
      offset := 0;
    }

    // A page of whole words. Because every page is one, rounding up to the
    // alignment never costs a byte.
    method Alloc(size: nat, align: nat) returns (at: nat, ok: bool)
      requires Valid() && size % 4 == 0 && align == 4
      modifies this
      ensures Valid() && at == old(offset)
      ensures ok == (old(offset) + size <= capacity)
      ensures offset == if ok then at + size else at
      ensures Extends(old(Mem()), Mem())
    {
      AlignedStays(offset);
      var aligned := AlignUp(offset, align);
      if aligned + size > capacity { return aligned, false; }
      offset := aligned + size;
      assert base[..offset][..aligned] == base[..aligned];
      return aligned, true;
    }

    function Full(needed: nat): bool
      reads this
    {
      offset + needed > capacity
    }

    // Store a 32-bit field.
    method Put(at: nat, v: nat)
      requires Valid() && at + 4 <= offset && v <= 0xFFFF_FFFF
      modifies base
      ensures Valid() && |Mem()| == |old(Mem())|
      ensures Get32(Mem(), at) == v
      ensures forall k :: 0 <= k < offset && !(at <= k < at + 4) ==> Mem()[k] == old(Mem())[k]
    {
      var bytes := Le32(v);
      base[at], base[at + 1], base[at + 2], base[at + 3] := bytes[0], bytes[1], bytes[2], bytes[3];
      FieldsBack(v);
    }

    // Copy bytes into an allocated page.
    method PutBytes(at: nat, data: seq<byte>)
      requires Valid() && at + |data| <= offset
      modifies base
      ensures Valid() && |Mem()| == |old(Mem())|
      ensures Mem()[at..at + |data|] == data
      ensures forall k :: 0 <= k < offset && !(at <= k < at + |data|) ==> Mem()[k] == old(Mem())[k]
    {
      forall i | 0 <= i < |data| {
        base[at + i] := data[i];
      }
      assert Mem()[at..at + |data|] == data;
    }

    function Word(at: nat): (v: nat)
      requires Valid() && at + 4 <= offset
      reads this, base
      ensures v == Get32(Mem(), at) && v <= 0xFFFF_FFFF
    {
      base[at] as int + 0x100 * base[at + 1] as int + 0x1_0000 * base[at + 2] as int + 0x100_0000 * base[at + 3] as int
    }
  }

  // Writing above what was there keeps it.
  lemma ExtendsAbove(mem: seq<byte>, a: seq<byte>, b: seq<byte>)
    requires Extends(mem, a) && |a| <= |b|
    requires forall k :: 0 <= k < |mem| ==> b[k] == a[k]
    ensures Extends(mem, b)
  {
  }

  // A word is what its four bytes make it.
  lemma SameWord(a: seq<byte>, b: seq<byte>, at: nat)
    requires at + 4 <= |a| && at + 4 <= |b| && forall k :: at <= k < at + 4 ==> b[k] == a[k]
    ensures Get32(b, at) == Get32(a, at)
  {
  }
}
