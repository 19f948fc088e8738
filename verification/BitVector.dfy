/** A vector of 32-bit words used as a vector of bits. */
module BitVector {
  type Words = seq<bv32>

  // The word with the single bit `k` set: 1 shifted left `k` times.
  function Mask(k: int): bv32
    requires 0 <= k < 32
  {
    if k == 0 then 1 else Mask(k - 1) << 1
  }

  function GetBit(v: Words, i: int): bool
    requires 0 <= i < 32 * |v|
  {
    v[i / 32] & Mask(i % 32) != 0
  }

  function FlipBit(v: Words, i: int): Words
    requires 0 <= i < 32 * |v|
  {
    v[i / 32 := v[i / 32] ^ Mask(i % 32)]
  }

  lemma {:induction false} MaskNotZero(k: int)
    requires 0 <= k < 32
    ensures Mask(k) != 0
    decreases 31 - k
  {
    if k == 31 {
      assert Mask(4) == 16;
      assert Mask(8) == 256;
      assert Mask(12) == 0x1000;
      assert Mask(16) == 0x1_0000;
      assert Mask(20) == 0x10_0000;
      assert Mask(24) == 0x100_0000;
      assert Mask(28) == 0x1000_0000;
    } else {
      MaskNotZero(k + 1);
    }
  }

  lemma {:induction false} MasksApart(i: int, j: int)
    requires 0 <= i < j < 32
    ensures Mask(i) & Mask(j) == 0
  {
    if i == 0 { LowBitClear(Mask(j - 1)); } else {
      MasksApart(i - 1, j - 1);
      ShiftedApart(Mask(i - 1), Mask(j - 1));
    }
  }

  lemma LowBitClear(x: bv32)
    ensures 1 & (x << 1) == 0
  {
  }

  lemma ShiftedApart(x: bv32, y: bv32)
    requires x & y == 0
    ensures (x << 1) & (y << 1) == 0
  {
  }

  lemma MaskAlone(k: int)
    requires 0 <= k < 32
    ensures OneBit(Mask(k))
  {
    MaskNotZero(k);
    if k == 0 { } else { MaskAlone(k - 1); ShiftedOneBit(Mask(k - 1)); }
  }

  predicate OneBit(x: bv32) { x != 0 && x & (x - 1) == 0 }

  lemma ShiftedOneBit(x: bv32)
    requires OneBit(x) && x << 1 != 0
    ensures OneBit(x << 1)
  {
  }

  lemma FlippedOneBit(w: bv32, x: bv32, y: bv32)
    requires OneBit(x) && OneBit(y) && (x == y || x & y == 0)
    ensures ((w ^ x) & y != 0) <==> ((w & y != 0) != (x == y))
  {
  }

  /** Flipping changes the bit that is named, and no other. */
  lemma FlipGet(v: Words, i: int, j: int)
    requires 0 <= i < 32 * |v| && 0 <= j < 32 * |v|
    ensures GetBit(FlipBit(v, i), j) <==> (GetBit(v, j) != (i == j))
  {
    hide Mask, OneBit;
    var a, b := i % 32, j % 32;
    MaskAlone(a);
    MaskAlone(b);
    if a < b { MasksApart(a, b); } else if b < a { MasksApart(b, a); }
    MasksDiffer(a, b);
    FlippedOneBit(v[i / 32], Mask(a), Mask(b));
    assert i == j <==> i / 32 == j / 32 && a == b;
  }

  lemma MasksDiffer(i: int, j: int)
    requires 0 <= i < 32 && 0 <= j < 32
    ensures Mask(i) == Mask(j) <==> i == j
    ensures i != j ==> Mask(i) & Mask(j) == 0
  {
    MaskNotZero(i);
    if i < j { MasksApart(i, j); } else if j < i { MasksApart(j, i); }
  }
}
