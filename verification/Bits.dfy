// Bits of natural numbers, little-endian fields, and bit runs inside byte
// sequences: what shifts, masks and memcpy do, in arithmetic.
module Bits {

  const MAX_U32: nat := 0xFFFF_FFFF

  function Min(a: nat, b: nat): nat {
    if a < b then a else b
  }

  type byte = n: nat | n < 256

  function Pow2(n: nat): (p: nat)
    ensures p >= 1
  {
    if n == 0 then 1 else 2 * Pow2(n - 1)
  }

  // (v >> i) & 1
  predicate Bit(v: nat, i: nat) {
    if i == 0 then v % 2 == 1 else Bit(v / 2, i - 1)
  }

  // The i-th bit is what is odd or even after i halvings.
  lemma {:induction false} BitIs(v: nat, i: nat)
    ensures Bit(v, i) <==> v / Pow2(i) % 2 == 1
  {
    if i > 0 {
      BitIs(v / 2, i - 1);
      HalfFirst(v, Pow2(i - 1));
    }
  }

  lemma HalfFirst(v: nat, p: nat)
    requires p > 0
    ensures v / 2 / p == v / (2 * p)
  {
    var q, r := v / 2 / p, v / 2 % p;
    assert v == 2 * (q * p + r) + v % 2;
    assert v == q * (2 * p) + (2 * r + v % 2) && 2 * r + v % 2 < 2 * p;
    QuotientIs(v, 2 * p, q, 2 * r + v % 2);
  }

  lemma QuotientIs(v: nat, d: nat, q: nat, r: nat)
    requires r < d && v == q * d + r
    ensures v / d == q
  {
    var q', r' := v / d, v % d;
    assert v == q' * d + r';
    assert (q - q') * d == r' - r;
    if q != q' {
      AtLeastOnce(if q > q' then q - q' else q' - q, d);
    }
  }

  lemma AtLeastOnce(k: nat, d: nat)
    requires k > 0
    ensures k * d >= d
  {
    assert k * d == (k - 1) * d + d;
  }

  // v | (1 << i)
  function WithBit(v: nat, i: nat): nat {
    if i == 0 then (if v % 2 == 1 then v else v + 1)
    else 2 * WithBit(v / 2, i - 1) + v % 2
  }

  lemma {:induction false} WithBitBits(v: nat, i: nat, j: nat)
    ensures Bit(WithBit(v, i), j) == (i == j || Bit(v, j))
  {
    if i > 0 {
      assert WithBit(v, i) / 2 == WithBit(v / 2, i - 1);
      if j > 0 {
        WithBitBits(v / 2, i - 1, j - 1);
      }
    } else if j > 0 {
      assert WithBit(v, 0) / 2 == v / 2;
    }
  }

  lemma {:induction false} WithBitBound(v: nat, i: nat, n: nat)
    requires v < Pow2(n) && i < n
    ensures WithBit(v, i) < Pow2(n)
  {
    if i > 0 {
      WithBitBound(v / 2, i - 1, n - 1);
    } else {
      assert Pow2(n) == 2 * Pow2(n - 1);
    }
  }

  lemma {:induction false} HighBitsClear(v: nat, n: nat, j: nat)
    requires v < Pow2(n) && n <= j
    ensures !Bit(v, j)
  {
    if n > 0 {
      HighBitsClear(v / 2, n - 1, j - 1);
    } else if j > 0 {
      HighBitsClear(v / 2, 0, j - 1);
    }
  }

  // A number is determined by its bits.
  lemma {:induction false} SameBits(v: nat, w: nat, n: nat)
    requires v < Pow2(n) && w < Pow2(n)
    requires forall j: nat :: j < n ==> Bit(v, j) == Bit(w, j)
    ensures v == w
  {
    if n > 0 {
      assert Bit(v, 0) == Bit(w, 0);
      forall j: nat | j < n - 1
        ensures Bit(v / 2, j) == Bit(w / 2, j)
      {
        assert Bit(v, j + 1) == Bit(w, j + 1);
      }
      SameBits(v / 2, w / 2, n - 1);
    }
  }

  lemma {:induction false} ZeroBits(j: nat)
    ensures !Bit(0, j)
  {
    if j > 0 {
      ZeroBits(j - 1);
    }
  }

  lemma Pow2Values()
    ensures Pow2(8) == 256 && Pow2(16) == 0x1_0000 && Pow2(32) == 0x1_0000_0000
  {
    assert Pow2(4) == 16;
    assert Pow2(8) == 256;
    assert Pow2(12) == 4096;
    assert Pow2(16) == 0x1_0000;
    assert Pow2(20) == 0x10_0000;
    assert Pow2(24) == 0x100_0000;
    assert Pow2(28) == 0x1000_0000;
  }

  // ---------------------------------------------------------------- bytes

  predicate BitAt(bytes: seq<byte>, p: nat)
    requires p < 8 * |bytes|
  {
    Bit(bytes[p / 8], p % 8)
  }

  // The b-bit number whose lowest bit is at position p.
  function ReadBits(bytes: seq<byte>, p: nat, b: nat): (v: nat)
    requires p + b <= 8 * |bytes|
    ensures v < Pow2(b)
  {
    if b == 0 then 0
    else ReadBits(bytes, p, b - 1) + (if BitAt(bytes, p + b - 1) then Pow2(b - 1) else 0)
  }

  // Setting a bit above all others adds its weight.
  lemma {:induction false} WithBitAdds(v: nat, j: nat)
    requires v < Pow2(j)
    ensures WithBit(v, j) == v + Pow2(j)
  {
    if j > 0 {
      WithBitAdds(v / 2, j - 1);
    }
  }

  lemma {:induction false} AddHighBit(v: nat, n: nat, j: nat)
    requires v < Pow2(n)
    ensures Bit(v + Pow2(n), j) == (j == n || Bit(v, j))
  {
    if n == 0 {
      ZeroBits(j);
      if j > 0 {
        ZeroBits(j - 1);
      }
    } else {
      assert (v + Pow2(n)) / 2 == v / 2 + Pow2(n - 1);
      assert (v + Pow2(n)) % 2 == v % 2;
      if j > 0 {
        AddHighBit(v / 2, n - 1, j - 1);
      }
    }
  }

  lemma {:induction false} ReadBitsBits(bytes: seq<byte>, p: nat, b: nat, j: nat)
    requires p + b <= 8 * |bytes| && j < b
    ensures Bit(ReadBits(bytes, p, b), j) == BitAt(bytes, p + j)
  {
    hide BitAt, Bit, Pow2;
    var low := ReadBits(bytes, p, b - 1);
    AddHighBit(low, b - 1, j);
    if j < b - 1 {
      ReadBitsBits(bytes, p, b - 1, j);
    } else {
      HighBitsClear(low, b - 1, j);
    }
  }

  // If the bits at p are the low bits of v, reading them gives v back.
  lemma ReadBitsBack(bytes: seq<byte>, p: nat, b: nat, v: nat)
    requires p + b <= 8 * |bytes| && v < Pow2(b)
    requires forall j: nat :: j < b ==> BitAt(bytes, p + j) == Bit(v, j)
    ensures ReadBits(bytes, p, b) == v
  {
    forall j: nat | j < b
      ensures Bit(ReadBits(bytes, p, b), j) == Bit(v, j)
    {
      ReadBitsBits(bytes, p, b, j);
    }
    SameBits(ReadBits(bytes, p, b), v, b);
  }

  // ---------------------------------------------------------------- fields

  // The bytes of `part` stand at `at`.
  ghost predicate Holds(file: seq<byte>, at: nat, part: seq<byte>) {
    at + |part| <= |file| && file[at..at + |part|] == part
  }

  function Le16(v: nat): (s: seq<byte>)
    requires v < 0x1_0000
    ensures |s| == 2
  {
    [v % 256, v / 256]
  }

  function Le32(v: nat): (s: seq<byte>)
    requires v < 0x1_0000_0000
    ensures |s| == 4
  {
    [v % 256, v / 0x100 % 256, v / 0x1_0000 % 256, v / 0x100_0000]
  }

  function Get16(s: seq<byte>, i: nat): (v: nat)
    requires i + 2 <= |s|
    ensures v < 0x1_0000
  {
    s[i] as int + 0x100 * s[i + 1] as int
  }

  function Get32(s: seq<byte>, i: nat): (v: nat)
    requires i + 4 <= |s|
    ensures v < 0x1_0000_0000
  {
    s[i] as int + 0x100 * s[i + 1] as int + 0x1_0000 * s[i + 2] as int + 0x100_0000 * s[i + 3] as int
  }

  // A byte on, the bits are those of the number without its lowest byte.
  lemma ByteOn(v: nat, i: nat)
    ensures Bit(v, i + 8) <==> Bit(v / 256, i)
  {
    assert Bit(v, i + 8) == Bit(v / 2, i + 7) == Bit(v / 2 / 2, i + 6) == Bit(v / 2 / 2 / 2, i + 5) == Bit(v / 2 / 2 / 2 / 2, i + 4);
    assert v / 2 / 2 / 2 / 2 == v / 16;
    var w := v / 16;
    assert Bit(w, i + 4) == Bit(w / 2, i + 3) == Bit(w / 2 / 2, i + 2) == Bit(w / 2 / 2 / 2, i + 1) == Bit(w / 2 / 2 / 2 / 2, i);
    assert w / 2 / 2 / 2 / 2 == w / 16 == v / 256;
  }

  // The first n bits are those of the remainder.
  lemma {:induction false} LowBits(v: nat, i: nat, n: nat)
    requires i < n
    ensures Bit(v, i) <==> Bit(v % Pow2(n), i)
  {
    HalfRemainder(v, Pow2(n - 1));
    if i > 0 {
      LowBits(v / 2, i - 1, n - 1);
    }
  }

  lemma HalfRemainder(v: nat, p: nat)
    requires p > 0
    ensures v % (2 * p) % 2 == v % 2 && v % (2 * p) / 2 == v / 2 % p
  {
    var q, r := v / 2 / p, v / 2 % p;
    var rest := 2 * r + v % 2;
    assert v / 2 == q * p + r;
    assert v == q * (2 * p) + rest;
    QuotientIs(v, 2 * p, q, rest);
    assert v % (2 * p) == rest;
  }

  // The bits from n on are those of the quotient.
  lemma {:induction false} Halvings(v: nat, n: nat, q: nat, i: nat)
    requires q == v / Pow2(n)
    ensures Bit(v, i + n) <==> Bit(q, i)
  {
    if n > 0 {
      HalfFirst(v, Pow2(n - 1));
      Halvings(v / 2, n - 1, q, i);
    }
  }

  // Bit i of a number is bit i % 8 of byte i / 8 of its field: lowest byte
  // first.
  lemma LowestFirst(v: nat, i: nat)
    ensures v < 0x1_0000 && i < 16 ==> (Bit(v, i) <==> Bit(Le16(v)[i / 8], i % 8))
    ensures v < 0x1_0000_0000 && i < 32 ==> (Bit(v, i) <==> Bit(Le32(v)[i / 8], i % 8))
  {
    hide Bit;
    var k, j := i / 8, i % 8;
    BytesOn(v, j);
    if k == 0 {
      assert i == j;
    } else if k == 1 {
      assert i == j + 8;
    } else if k == 2 {
      assert i == j + 16;
    } else if k == 3 {
      assert i == j + 24;
    }
  }

  // The bits of the first four bytes; the last of these is all the rest.
  lemma BytesOn(v: nat, j: nat)
    requires j < 8
    ensures Bit(v, j) <==> Bit(v % 256, j)
    ensures Bit(v, j + 8) <==> Bit(v / 256 % 256, j)
    ensures Bit(v, j + 8) <==> Bit(v / 256, j)
    ensures Bit(v, j + 16) <==> Bit(v / 0x1_0000 % 256, j)
    ensures Bit(v, j + 24) <==> Bit(v / 0x100_0000, j)
  {
    hide Bit;
    Pow2Values();
    LowBits(v, j, 8);
    LowBits(v / 256, j, 8);
    LowBits(v / 0x1_0000, j, 8);
    ByteOn(v, j);
    ByteOn(v, j + 8);
    ByteOn(v, j + 16);
    ByteOn(v / 256, j);
    ByteOn(v / 256, j + 8);
    ByteOn(v / 0x1_0000, j);
    assert v / 256 / 256 == v / 0x1_0000 && v / 0x1_0000 / 256 == v / 0x100_0000;
  }

  lemma LongLowestFirst(v: nat, i: nat)
    requires v < 0x1_0000_0000_0000_0000 && i < 64
    ensures Bit(v, i) <==> Bit(Le64(v)[i / 8], i % 8)
  {
    hide Bit, Le32;
    if i < 32 {
      Pow2Values();
      LowBits(v, i, 32);
      LowestFirst(v % 0x1_0000_0000, i);
    } else {
      HalfOn(v, i - 32);
      LowestFirst(v / 0x1_0000_0000, i - 32);
    }
  }

  lemma HalfOn(v: nat, i: nat)
    ensures Bit(v, i + 32) <==> Bit(v / 0x1_0000_0000, i)
  {
    hide Bit;
    ByteOn(v, i + 24);
    ByteOn(v / 256, i + 16);
    ByteOn(v / 256 / 256, i + 8);
    ByteOn(v / 256 / 256 / 256, i);
    assert v / 256 / 256 / 256 / 256 == v / 0x1_0000_0000;
  }

  lemma FieldsBack(v: nat)
    ensures v < 0x1_0000 ==> Get16(Le16(v), 0) == v
    ensures v < 0x1_0000_0000 ==> Get32(Le32(v), 0) == v
  {
    if v < 0x1_0000_0000 {
      var w := v / 0x100;
      var x := w / 0x100;
      assert v == v % 256 + 0x100 * w;
      assert w == w % 256 + 0x100 * x;
      assert x == v / 0x1_0000 && x == x % 256 + 0x100 * (x / 0x100);
      assert x / 0x100 == v / 0x100_0000;
    }
  }

  function Le64(v: nat): (s: seq<byte>)
    requires v < 0x1_0000_0000_0000_0000
    ensures |s| == 8
  {
    Le32(v % 0x1_0000_0000) + Le32(v / 0x1_0000_0000)
  }

  function Get64(s: seq<byte>, i: nat): (v: nat)
    requires i + 8 <= |s|
  {
    Get32(s, i) + 0x1_0000_0000 * Get32(s, i + 4)
  }
}
