// Packing fixed-width values into bytes and taking them out again.
module BitPacking {
  import opened Bits

  // Where the m-th b-bit value starts: m * b, by addition.
  function Off(m: nat, b: nat): nat {
    if m == 0 then 0 else Off(m - 1, b) + b
  }

  lemma {:induction false} OffMonotone(m: nat, n: nat, b: nat)
    requires m <= n
    ensures Off(m, b) <= Off(n, b)
    decreases n
  {
    if m < n {
      OffMonotone(m, n - 1, b);
    }
  }

  lemma {:induction false} OffIsProduct(m: nat, b: nat)
    ensures Off(m, b) == m * b
  {
    if m > 0 {
      OffIsProduct(m - 1, b);
    }
  }

  function BytesFor(count: nat, b: nat): nat {
    (count * b + 7) / 8
  }

  lemma BytesForHolds(m: nat, count: nat, b: nat)
    requires m <= count
    ensures Off(m, b) <= Off(count, b) <= 8 * BytesFor(count, b)
  {
    OffMonotone(m, count, b);
    OffIsProduct(count, b);
  }

  lemma BytesForIs(count: nat, b: nat)
    ensures count * b <= 8 * BytesFor(count, b) < count * b + 8
  {
  }

  // The bits at position p are the low b bits of v.
  ghost predicate HoldsAt(area: seq<byte>, p: nat, b: nat, v: nat) {
    p + b <= 8 * |area| && forall j: nat :: j < b ==> BitAt(area, p + j) == Bit(v, j)
  }

  ghost predicate HoldsAll(area: seq<byte>, b: nat, values: seq<nat>) {
    forall m :: 0 <= m < |values| ==> HoldsAt(area, Off(m, b), b, values[m])
  }

  ghost predicate ClearFrom(area: seq<byte>, p: nat) {
    forall r: nat :: p <= r < 8 * |area| ==> !BitAt(area, r)
  }

  // Bits count from the lowest of the first byte.
  lemma BitAtIs(area: seq<byte>, p: nat)
    requires p < 8 * |area|
    ensures BitAt(area, p) <==> area[p / 8] / Pow2(p % 8) % 2 == 1
  {
    BitIs(area[p / 8], p % 8);
  }

  function SetBitAt(area: seq<byte>, q: nat): (r: seq<byte>)
    requires q < 8 * |area|
    ensures |r| == |area|
    ensures forall p: nat :: p < 8 * |area| ==> BitAt(r, p) == (p == q || BitAt(area, p))
  {
    WithBitBound(area[q / 8], q % 8, 8);
    Pow2Values();
    var r := area[q / 8 := WithBit(area[q / 8], q % 8)];
    assert forall p: nat :: p < 8 * |area| ==> BitAt(r, p) == (p == q || BitAt(area, p)) by {
      forall p: nat | p < 8 * |area|
        ensures BitAt(r, p) == (p == q || BitAt(area, p))
      {
        WithBitBits(area[q / 8], q % 8, p % 8);
      }
    }
    r
  }

  // OR the low b bits of v into the area at position p.
  method PutBits(area: seq<byte>, p: nat, b: nat, v: nat) returns (area': seq<byte>)
    requires p + b <= 8 * |area| && ClearFrom(area, p)
    ensures |area'| == |area|
    ensures forall r: nat :: r < p ==> BitAt(area', r) == BitAt(area, r)
    ensures HoldsAt(area', p, b, v) && ClearFrom(area', p + b)
  {
    area' := area;
    for i := 0 to b
      invariant |area'| == |area|
      invariant forall r: nat :: r < p ==> BitAt(area', r) == BitAt(area, r)
      invariant forall j: nat :: j < i ==> BitAt(area', p + j) == Bit(v, j)
      invariant ClearFrom(area', p + i)
    {
      if Bit(v, i) {
        area' := SetBitAt(area', p + i);
      }
    }
  }

  // Appends ceil(count * b / 8) bytes holding the values back to back.
  method PackBits(values: seq<nat>, b: nat, out: seq<byte>) returns (out': seq<byte>)
    ensures |out'| == |out| + BytesFor(|values|, b) && out'[..|out|] == out
    ensures |values| * b <= 8 * (|out'| - |out|) < |values| * b + 8
    ensures HoldsAll(out'[|out|..], b, values) && ClearFrom(out'[|out|..], |values| * b)
  {
    if b == 0 || values == [] {
      OffIsProduct(|values|, b);
      forall m | 0 <= m < |values|
        ensures HoldsAt([], Off(m, b), b, values[m])
      {
        OffIsProduct(m, b);
      }
      assert out[|out|..] == [];
      return out;
    }
    var area := seq(BytesFor(|values|, b), i => 0);
    forall r: nat | r < 8 * |area|
      ensures !BitAt(area, r)
    {
      ZeroBits(r % 8);
    }
    var bitPos := 0;
    for k := 0 to |values|
      invariant |area| == BytesFor(|values|, b) && bitPos == Off(k, b)
      invariant HoldsAll(area, b, values[..k]) && ClearFrom(area, bitPos)
    {
      BytesForHolds(k + 1, |values|, b);
      ghost var before := area;
      area := PutBits(area, bitPos, b, values[k]);
      forall m | 0 <= m < k + 1
        ensures HoldsAt(area, Off(m, b), b, values[..k + 1][m])
      {
        if m < k {
          OffMonotone(m + 1, k, b);
          assert HoldsAt(before, Off(m, b), b, values[..k][m]);
        }
      }
      bitPos := bitPos + b;
    }
    assert values[..|values|] == values;
    OffIsProduct(|values|, b);
    out' := out + area;
    assert out'[|out|..] == area;
  }

  // The values read back.
  ghost function Unpacked(data: seq<byte>, b: nat, count: nat): (vs: seq<nat>)
    requires Off(count, b) <= 8 * |data|
    ensures |vs| == count
  {
    if count == 0 then []
    else Unpacked(data, b, count - 1) + [ReadBits(data, Off(count - 1, b), b)]
  }

  method ReadValue(data: seq<byte>, p: nat, b: nat) returns (v: nat)
    requires p + b <= 8 * |data|
    ensures v == ReadBits(data, p, b)
  {
    hide BitAt, WithBit, Pow2;
    v := 0;
    for j := 0 to b
      invariant v == ReadBits(data, p, j)
    {
      if BitAt(data, p + j) {
        WithBitAdds(v, j);
        v := WithBit(v, j);
      }
    }
  }

  method UnpackBits(data: seq<byte>, b: nat, count: nat) returns (result: seq<nat>)
    requires Off(count, b) <= 8 * |data|
    ensures result == Unpacked(data, b, count)
  {
    result := [];
    var bitPos := 0;
    for i := 0 to count
      invariant bitPos == Off(i, b) <= 8 * |data|
      invariant result == Unpacked(data, b, i)
    {
      OffMonotone(i + 1, count, b);
      var v := ReadValue(data, bitPos, b);
      result := result + [v];
      bitPos := bitPos + b;
    }
  }

  // A run of bits does not change when bytes are put around it.
  lemma {:induction false} ReadBitsInside(pre: seq<byte>, s: seq<byte>, post: seq<byte>, p: nat, b: nat)
    requires p + b <= 8 * |s|
    ensures ReadBits(pre + s + post, 8 * |pre| + p, b) == ReadBits(s, p, b)
  {
    if b > 0 {
      ReadBitsInside(pre, s, post, p, b - 1);
      BitInside(pre, s, post, p + b - 1);
    }
  }

  lemma BitInside(pre: seq<byte>, s: seq<byte>, post: seq<byte>, p: nat)
    requires p < 8 * |s|
    ensures BitAt(pre + s + post, 8 * |pre| + p) == BitAt(s, p)
  {
    assert (8 * |pre| + p) / 8 == |pre| + p / 8 && (8 * |pre| + p) % 8 == p % 8;
    assert (pre + s + post)[|pre| + p / 8] == s[p / 8];
  }

  // Each packed value reads back on its own.
  lemma ValueBack(area: seq<byte>, b: nat, values: seq<nat>, k: nat)
    requires HoldsAll(area, b, values) && k < |values| && values[k] < Pow2(b)
    ensures k * b + b <= 8 * |area| && ReadBits(area, k * b, b) == values[k]
  {
    hide HoldsAt, ReadBits, Pow2, Off;
    OffIsProduct(k, b);
    assert HoldsAt(area, Off(k, b), b, values[k]);
    HeldBack(area, Off(k, b), b, values[k]);
  }

  lemma HeldBack(area: seq<byte>, p: nat, b: nat, v: nat)
    requires HoldsAt(area, p, b, v) && v < Pow2(b)
    ensures p + b <= 8 * |area| && ReadBits(area, p, b) == v
  {
    ReadBitsBack(area, p, b, v);
  }

  // Unpacking what was packed gives the values back, when b bits hold them.
  lemma {:induction false} PackedBack(area: seq<byte>, b: nat, values: seq<nat>)
    requires HoldsAll(area, b, values) && Off(|values|, b) <= 8 * |area|
    requires forall i :: 0 <= i < |values| ==> values[i] < Pow2(b)
    ensures Unpacked(area, b, |values|) == values
  {
    hide BitAt, ReadBits;
    if values != [] {
      var m := |values| - 1;
      assert forall i :: 0 <= i < m ==> values[..m][i] == values[i];
      PackedBack(area, b, values[..m]);
      assert HoldsAt(area, Off(m, b), b, values[m]);
      ReadBitsBack(area, Off(m, b), b, values[m]);
    }
  }
}
