/** The two bit trees of the frame allocator: one bit for each block of order one or more. */
module BuddyBits {
  import opened Arithmetic
  import opened BuddyTree
  import opened BitVector
  import opened Powers

  /** The number of a block: the blocks of the largest order come first. */
  function Id(n: nat, b: Block): int
    requires 0 <= b.order <= n
  {
    Pow2(n - b.order) - 1 + b.index
  }

  ghost predicate Numbered(n: nat, b: Block) { InRange(n, b) && b.order >= 1 }

  lemma IdInRange(n: nat, b: Block)
    requires Numbered(n, b)
    ensures 0 <= Id(n, b) < Pow2(n) - 1
  {
    PowMonotone(n - b.order + 1, n);
  }

  lemma IdUnique(n: nat, b: Block, c: Block)
    requires Numbered(n, b) && Numbered(n, c)
    ensures Id(n, b) == Id(n, c) <==> b == c
  {
    if b.order < c.order {
      PowMonotone(n - c.order + 1, n - b.order);
    } else if c.order < b.order {
      PowMonotone(n - b.order + 1, n - c.order);
    }
  }

  predicate Bit(v: Words, i: int) { 0 <= i < 32 * |v| && GetBit(v, i) }

  // ----- What the bits say ------------------------------------------------------------

  /** Exactly one half of the block is free as a whole. */
  predicate OneHalfFree(t: Tree, b: Block) { IsFree(t, LeftHalf(b)) != IsFree(t, RightHalf(b)) }

  ghost predicate NeedAt(n: nat, t: Tree, v: Words, b: Block) {
    Numbered(n, b) ==> (Bit(v, Id(n, b)) <==> OneHalfFree(t, b))
  }

  ghost predicate SplitAt(n: nat, t: Tree, v: Words, b: Block) {
    Numbered(n, b) ==> (Bit(v, Id(n, b)) <==> IsSplit(t, b))
  }

  ghost predicate NeedsOk(n: nat, t: Tree, v: Words) {
    |v| == Pow2(n) - 1 && forall b {:trigger NeedAt(n, t, v, b)} :: NeedAt(n, t, v, b)
  }

  ghost predicate SplitsOk(n: nat, t: Tree, v: Words) {
    |v| == Pow2(n) - 1 && forall b {:trigger SplitAt(n, t, v, b)} :: SplitAt(n, t, v, b)
  }

  // Nothing else is flipped with the bit of a block.
  lemma FlipOne(n: nat, v: Words, b: Block, c: Block)
    requires |v| == Pow2(n) - 1 && Numbered(n, b) && Numbered(n, c)
    ensures 0 <= Id(n, b) < 32 * |v|
    ensures Bit(FlipBit(v, Id(n, b)), Id(n, c)) <==> (Bit(v, Id(n, c)) != (b == c))
  {
    hide GetBit, FlipBit, Id, InRange;
    OrderBound(n, b);
    OrderBound(n, c);
    IdInRange(n, b);
    IdInRange(n, c);
    IdUnique(n, b, c);
    FlipGet(v, Id(n, b), Id(n, c));
    FlipLength(v, Id(n, b));
  }

  lemma FlipLength(v: Words, i: int)
    requires 0 <= i < 32 * |v|
    ensures |FlipBit(v, i)| == |v|
  {
  }

  /** When only the parent of one block changes, flipping its bit keeps the bits right. */
  lemma NeedFlipped(n: nat, t: Tree, t': Tree, v: Words, b: Block)
    requires NeedsOk(n, t, v) && InRange(n, b)
    requires forall c :: OneHalfFree(t', c) <==> (OneHalfFree(t, c) != (c == Parent(b)))
    ensures b.order == n ==> NeedsOk(n, t', v)
    ensures b.order < n ==> Numbered(n, Parent(b)) && 0 <= Id(n, Parent(b)) < 32 * |v|
    ensures b.order < n ==> NeedsOk(n, t', FlipBit(v, Id(n, Parent(b))))
  {
    hide Id, LeftHalf, RightHalf, Parent, Buddy, IsFree, FlipBit, Bit, InRange, OneHalfFree;
    HalvesOfParent(b);
    OrderBound(n, b);
    HalfInRange(n, b);
    var p := Parent(b);
    if b.order < n { IdInRange(n, p); FlipLength(v, Id(n, p)); }
    var v' := if b.order < n then FlipBit(v, Id(n, p)) else v;
    forall c ensures NeedAt(n, t', v', c) {
      assert NeedAt(n, t, v, c);
      if Numbered(n, c) {
        HalvesOfParent(c);
        OrderBound(n, c);
        if b.order < n { FlipOne(n, v, p, c); }
      }
    }
  }

  lemma OrderBound(n: nat, c: Block)
    requires InRange(n, c)
    ensures 0 <= c.order <= n
  {
  }

  /** When one block starts or ceases to be free, its parent changes. */
  lemma ToggledHalf(t: Tree, t': Tree, b: Block)
    requires forall c :: IsFree(t', c) <==> (IsFree(t, c) != (c == b))
    ensures forall c :: OneHalfFree(t', c) <==> (OneHalfFree(t, c) != (c == Parent(b)))
  {
    hide LeftHalf, RightHalf, Parent, Buddy, IsFree;
    forall c ensures OneHalfFree(t', c) <==> (OneHalfFree(t, c) != (c == Parent(b))) {
      HalvesOfParent(b);
      HalvesOfParent(c);
    }
  }

  /** When two free buddies become one free block, its parent changes. */
  lemma JoinedHalf(n: nat, t: Tree, p: Block)
    requires WellFormed(n, t) && IsSplit(t, p) && IsFree(t, LeftHalf(p)) && IsFree(t, RightHalf(p))
    ensures var t' := Join(t, p)[p := State.Free];
            forall c :: OneHalfFree(t', c) <==> (OneHalfFree(t, c) != (c == Parent(p)))
  {
    hide LeftHalf, RightHalf, Parent, Buddy;
    var t' := Join(t, p)[p := State.Free];
    HalvesOfParent(p);
    forall c ensures OneHalfFree(t', c) <==> (OneHalfFree(t, c) != (c == Parent(p))) {
      HalvesOfParent(c);
    }
  }

  /** The split bit of one block is set to what the new tree says. */
  lemma SplitFlipped(n: nat, t: Tree, t': Tree, v: Words, b: Block)
    requires SplitsOk(n, t, v) && Numbered(n, b)
    requires forall c :: IsSplit(t', c) <==> (IsSplit(t, c) != (c == b))
    ensures 0 <= Id(n, b) < 32 * |v| && SplitsOk(n, t', FlipBit(v, Id(n, b)))
  {
    hide Id, IsSplit, FlipBit, Bit, InRange;
    OrderBound(n, b);
    IdInRange(n, b);
    var v' := FlipBit(v, Id(n, b));
    FlipLength(v, Id(n, b));
    forall c ensures SplitAt(n, t', v', c) {
      assert SplitAt(n, t, v, c);
      if Numbered(n, c) { FlipOne(n, v, b, c); }
    }
  }

  lemma SplitsKept(n: nat, t: Tree, t': Tree, v: Words)
    requires SplitsOk(n, t, v) && forall c :: IsSplit(t', c) <==> IsSplit(t, c)
    ensures SplitsOk(n, t', v)
  {
    hide Id, Bit, InRange, IsSplit;
    forall c ensures SplitAt(n, t', v, c) { assert SplitAt(n, t, v, c); }
  }

  // ----- Trailing zeros ---------------------------------------------------------------

  /** The number of times two divides `x`. */
  function TrailingZeros(x: int): nat
    requires x > 0
    decreases x
  {
    if x % 2 == 1 then 0 else 1 + TrailingZeros(x / 2)
  }

  lemma {:induction false} TrailingZerosBound(x: int)
    requires x > 0
    ensures Pow2(TrailingZeros(x)) <= x
    decreases x
  {
    if x % 2 == 0 { TrailingZerosBound(x / 2); }
  }

  lemma TrailingZerosOfEven(x: int)
    requires x > 0
    ensures TrailingZeros(2 * x) == 1 + TrailingZeros(x)
  {
  }

  lemma TrailingZerosOfOdd(x: int)
    requires x >= 0
    ensures TrailingZeros(2 * x + 1) == 0
  {
  }

  lemma OddProduct(a: int, b: int)
    ensures (2 * a + 1) * (2 * b + 1) == 2 * (2 * (a * b) + a + b) + 1
  {
  }

  lemma ProductPositive(x: int, y: int)
    requires x > 0 && y > 0
    ensures x * y > 0
  {
  }

  lemma DoubledFactor(x: int, y: int)
    ensures (2 * x) * y == 2 * (x * y) && y * (2 * x) == 2 * (y * x)
  {
  }

  lemma {:induction false} TrailingZerosOfProduct(x: int, y: int)
    requires x > 0 && y > 0
    ensures x * y > 0 && TrailingZeros(x * y) == TrailingZeros(x) + TrailingZeros(y)
    decreases x + y
  {
    hide Pow2, TrailingZeros;
    ProductPositive(x, y);
    var a, b := x / 2, y / 2;
    if x == 2 * a {
      TrailingZerosOfProduct(a, y);
      DoubledFactor(a, y);
      TrailingZerosOfEven(a);
      TrailingZerosOfEven(a * y);
    } else if y == 2 * b {
      TrailingZerosOfProduct(x, b);
      DoubledFactor(b, x);
      TrailingZerosOfEven(b);
      TrailingZerosOfEven(x * b);
    } else {
      OddProduct(a, b);
      TrailingZerosOfOdd(a);
      TrailingZerosOfOdd(b);
      NotNegative(a, b);
      TrailingZerosOfOdd(2 * (a * b) + a + b);
    }
  }

  lemma NotNegative(a: int, b: int)
    requires a >= 0 && b >= 0
    ensures a * b >= 0
  {
  }

  /** The largest order of which a block may start at frame `x`. */
  lemma LargestOrder(f: int, i: int, k: nat, n: nat)
    requires f > 0 && i > 0 && k <= n && i < Pow2(n - k)
    ensures f * (i * Pow2(k)) > 0
    ensures k <= TrailingZeros(f * (i * Pow2(k))) - TrailingZeros(f) < n
  {
    hide TrailingZeros;
    var x := i * Pow2(k);
    TrailingZerosOfProduct(i, Pow2(k));
    TrailingZerosOfPow(k);
    TrailingZerosOfProduct(f, x);
    TrailingZerosBound(x);
    PowSum(n - k, k);
    Below(i, Pow2(n - k), Pow2(k));
    if TrailingZeros(x) >= n { PowMonotone(n, TrailingZeros(x)); }
  }

  lemma Below(i: int, c: int, u: int)
    requires i < c && u > 0
    ensures i * u < c * u
  {
  }

  lemma {:induction false} TrailingZerosOfPow(k: nat)
    ensures TrailingZeros(Pow2(k)) == k
  {
    if k > 0 { TrailingZerosOfPow(k - 1); }
  }

  // ----- Trailing zeros as they are counted -------------------------------------------

  const WORD := 0x1_0000_0000

  // The and of a number and its negative.
  function LargestPowerOf2Divisor(x: int): int
    requires x > 0
  {
    Pow2(TrailingZeros(x))
  }

  /** The instruction that counts is given the low 32 bits, and is undefined for zero. */
  predicate Countable(x: int)
    requires x > 0
  {
    LargestPowerOf2Divisor(x) % WORD > 0
  }

  function LargestPowerOf2DivisorOrder(x: int): nat
    requires x > 0 && Countable(x)
  {
    TrailingZeros(LargestPowerOf2Divisor(x) % WORD)
  }

  /** Up to 31 trailing zeros are counted right, more are not counted at all. */
  lemma CountedRight(x: int)
    requires x > 0
    ensures Countable(x) <==> TrailingZeros(x) < 32
    ensures Countable(x) ==> LargestPowerOf2DivisorOrder(x) == TrailingZeros(x)
  {
    hide TrailingZeros, Pow2;
    var k := TrailingZeros(x);
    WordPower();
    if k < 32 {
      PowSum(32 - k, k);
      PowMonotone(1, 32 - k);
      TwoPower();
      Below(1, Pow2(32 - k), Pow2(k));
      TrailingZerosOfPow(k);
      Small(Pow2(k), WORD);
    } else {
      PowSum(k - 32, 32);
      MultipleDivided(Pow2(k - 32), WORD);
    }
  }

  lemma WordPower()
    ensures Pow2(32) == WORD
  {
    assert Pow2(8) == 256;
    PowSum(8, 8);
    PowSum(16, 16);
  }

  lemma TwoPower()
    ensures Pow2(1) == 2
  {
  }
}
