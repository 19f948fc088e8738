/** The block allocator for physical frames: two bit trees and a free list for each order.
    No size is stored with a block that is handed out. */
module BuddyAllocator {
  import opened Arithmetic
  import opened BitVector
  import opened BuddyArena
  import opened BuddyBits
  import opened BuddyTree
  import opened FreeLists
  import opened FrameRing
  import opened Lists
  import opened Powers
  import opened Wrappers

  // ----- What the steps do to the bits ------------------------------------------------

  lemma TakenToggles(a: Arena, k: int)
    requires Valid(a) && 0 <= k <= a.n && a.free[k] != []
    ensures var t, t', b := a.tree, TakeFirst(a, k).tree, At(a.frameSize, a.free[k][0], k);
            && InRange(a.n, b) && b.order == k
            && (forall c :: OneHalfFree(t', c) <==> (OneHalfFree(t, c) != (c == Parent(b))))
            && (forall c :: IsSplit(t', c) <==> IsSplit(t, c))
  {
    hide OneHalfFree, Offset, WellFormed, Tidy, Distinct, Unit, LeftHalf, RightHalf, Parent, Buddy, InRange;
    TakeFirstValid(a, k);
    var b := At(a.frameSize, a.free[k][0], k);
    assert WellFormed(a.n, a.tree);
    InTree(a.n, a.tree, b);
    ToggledHalf(a.tree, TakeFirst(a, k).tree, b);
  }

  lemma InTree(n: nat, t: Tree, b: Block)
    requires WellFormed(n, t) && b in t
    ensures InRange(n, b)
  {
    assert Placed(n, t, b);
  }

  lemma DividedToggles(a: Arena, offset: int, m: int)
    requires Valid(a) && m >= 1 && InHand(a, offset, m)
    ensures var t, t', b := a.tree, Divided(a, offset, m).tree, At(a.frameSize, offset, m);
            && Numbered(a.n, b) && InRange(a.n, RightHalf(b)) && Parent(RightHalf(b)) == b
            && RightHalf(b).order == m - 1
            && (forall c :: OneHalfFree(t', c) <==> (OneHalfFree(t, c) != (c == b)))
            && (forall c :: IsSplit(t', c) <==> (IsSplit(t, c) != (c == b)))
  {
    hide OneHalfFree, Offset, WellFormed, Tidy, Distinct, Unit, LeftHalf, RightHalf, Parent, Buddy, InRange;
    var b := At(a.frameSize, offset, m);
    assert WellFormed(a.n, a.tree);
    HalfNotIn(a.n, a.tree, b);
    InTree(a.n, a.tree, b);
    HalfInRange(a.n, b);
    HalvesOfParent(b);
    ToggledHalf(a.tree, Divided(a, offset, m).tree, RightHalf(b));
  }

  lemma FreedToggles(a: Arena, b: Block)
    requires Valid(a) && IsUsed(a.tree, b)
    ensures InRange(a.n, b)
    ensures var t, t' := a.tree, a.tree[b := State.Free];
            && (forall c :: OneHalfFree(t', c) <==> (OneHalfFree(t, c) != (c == Parent(b))))
            && (forall c :: IsSplit(t', c) <==> IsSplit(t, c))
  {
    hide OneHalfFree, Tidy, ListsOk, LeftHalf, RightHalf, Parent, Buddy, InRange;
    InTree(a.n, a.tree, b);
    ToggledHalf(a.tree, a.tree[b := State.Free], b);
  }

  lemma JoinedToggles(a: Arena, b: Block)
    requires Valid(a) && IsUsed(a.tree, b) && b.order < a.n && IsFree(a.tree, Buddy(b))
    ensures var t, p := a.tree[b := State.Free], Parent(b);
            var t' := Join(a.tree, p)[p := State.Free];
            && Numbered(a.n, p)
            && (forall c :: OneHalfFree(t', c) <==> (OneHalfFree(t, c) != (c == Parent(p))))
            && (forall c :: IsSplit(t', c) <==> (IsSplit(t, c) != (c == p)))
  {
    hide OneHalfFree, WellFormed, Tidy, ListsOk, LeftHalf, RightHalf, Parent, Buddy, InRange;
    var t, p := a.tree[b := State.Free], Parent(b);
    HalvesOfParent(b);
    BuddyInPlace(a.n, a.tree, b);
    InTree(a.n, a.tree, p);
    MarkWellFormed(a.n, a.tree, b, State.Free);
    JoinedHalf(a.n, t, p);
    assert Join(t, p)[p := State.Free] == Join(a.tree, p)[p := State.Free];
  }

  // ----- Offsets ----------------------------------------------------------------------

  lemma AtInRange(n: nat, f: int, offset: int, j: int)
    requires f > 0 && 0 <= offset < Unit(f, n) && 0 <= j <= n
    ensures InRange(n, At(f, offset, j))
  {
    PowSum(n - j, j);
    Regroup(Pow2(n - j), f, Pow2(j));
    QuotientBelow(offset, Unit(f, j), Pow2(n - j));
  }

  lemma QuotientBelow(x: int, u: int, c: int)
    requires u > 0 && 0 <= x < c * u
    ensures 0 <= x / u < c
  {
    Division(x, u);
    if x / u >= c { MultipleMonotone(c, x / u, u); }
    if x / u < 0 { Multiple(u, x / u); }
  }

  lemma HandInArena(a: Arena, offset: int, k: int)
    requires Valid(a) && InHand(a, offset, k)
    ensures 0 <= offset < Unit(a.frameSize, a.n)
  {
    BlockExtent(a, At(a.frameSize, offset, k));
  }

  /** No block with the offset of a used one is split, up to the used one. */
  lemma {:induction false} NotSplitBelow(a: Arena, offset: int, k: int, j: int)
    requires Valid(a) && InHand(a, offset, k) && 0 <= j <= k
    ensures !IsSplit(a.tree, At(a.frameSize, offset, j))
    decreases k - j
  {
    hide At, Offset, Tidy, ListsOk, LeftHalf, RightHalf, Parent, Buddy;
    if j < k {
      var b := At(a.frameSize, offset, j);
      AtParent(a.frameSize, offset, j);
      AtOrder(a.frameSize, offset, j);
      AtOrder(a.frameSize, offset, k);
      assert b in a.tree ==> Placed(a.n, a.tree, b);
      NotSplitBelow(a, offset, k, j + 1);
    }
  }

  lemma SplitAbove(a: Arena, offset: int, k: int)
    requires Valid(a) && InHand(a, offset, k) && k < a.n
    ensures IsSplit(a.tree, At(a.frameSize, offset, k + 1))
  {
    AtParent(a.frameSize, offset, k);
    AtOrder(a.frameSize, offset, k);
    BuddyInPlace(a.n, a.tree, At(a.frameSize, offset, k));
  }

  lemma OffsetZeros(a: Arena, offset: int, k: int)
    requires Valid(a) && InHand(a, offset, k) && offset != 0
    ensures offset > 0 && k <= TrailingZeros(offset) - TrailingZeros(a.frameSize) < a.n
  {
    var b := At(a.frameSize, offset, k);
    InTree(a.n, a.tree, b);
    OffsetZerosBelow(a.n, a.frameSize, b);
  }

  lemma DoubledProduct(h: int, b: int, u: int)
    ensures (2 * h + b) * u == 2 * (h * u) + b * u && h * (2 * u) == 2 * (h * u)
  {
  }

  /** The halves of a block, told apart by an offset inside it. */
  lemma WhichHalf(f: int, offset: int, m: nat)
    requires f > 0 && m >= 1
    ensures var p, u := At(f, offset, m), Unit(f, m);
            && Offset(f, p) == u * (offset / u) && u / 2 == Unit(f, m - 1)
            && Offset(f, LeftHalf(p)) == Offset(f, p) && Offset(f, RightHalf(p)) == Offset(f, p) + u / 2
            && At(f, offset, m - 1)
               == if Offset(f, p) <= offset < Offset(f, p) + u / 2 then LeftHalf(p) else RightHalf(p)
  {
    hide Pow2, Start;
    var p, u, h := At(f, offset, m), Unit(f, m), Unit(f, m - 1);
    UnitDoubles(f, m - 1);
    OffsetInUnits(f, p);
    HalfOffsets(f, p);
    DividedTwice(offset, h, 2);
    Division(offset, h);
    DoubledProduct(p.index, (offset / h) % 2, h);
    hide At, Offset, Unit;
  }

  // ----- How large an arena may be ----------------------------------------------------

  /** Shifts of an int stay in range, byte counts stay below 2^64, and trailing zeros are
      counted right. */
  predicate Fits(n: nat, f: int) {
    && f > 0 && n <= 30 && Unit(f, n) < 0x1_0000_0000_0000_0000
    && TrailingZeros(f) < 32 && TrailingZeros(f) + n <= 32
  }

  /** Up to four gigabytes there is nothing to fear. */
  lemma SmallFits(n: nat, f: int)
    requires 0 < f < WORD && n <= 30 && Unit(f, n) <= WORD
    ensures Fits(n, f)
  {
    hide TrailingZeros, Pow2;
    var z := TrailingZeros(f);
    TrailingZerosBound(f);
    WordPower();
    MultipleMonotone(Pow2(z), f, Pow2(n));
    PowSum(z, n);
    if z >= 32 { PowMonotone(32, z); }
    if z + n > 32 {
      PowMonotone(33, z + n);
      TwoPower();
      PowSum(1, 32);
    }
  }

  /** The trailing zeros of every offset in the arena can be counted if and only if those of
      the frame size leave room for the order. */
  lemma CountableIff(n: nat, f: int)
    requires f > 0 && n >= 1
    ensures (forall b | InRange(n, b) && b.order >= 0 && Offset(f, b) > 0 :: Countable(Offset(f, b)))
            <==> TrailingZeros(f) + n <= 32
  {
    hide TrailingZeros, Countable, Pow2, Start;
    forall b | InRange(n, b) && b.order >= 0 && Offset(f, b) > 0 && TrailingZeros(f) + n <= 32
      ensures Countable(Offset(f, b))
    {
      OffsetZerosBelow(n, f, b);
      CountedRight(Offset(f, b));
    }
    var h := Block(n - 1, 1);
    HalfOffset(n, f);
    CountedRight(Offset(f, h));
    if TrailingZeros(f) + n > 32 { assert !Countable(Offset(f, h)); }
  }

  lemma OffsetZerosBelow(n: nat, f: int, b: Block)
    requires f > 0 && InRange(n, b) && b.order >= 0 && Offset(f, b) > 0
    ensures b.order <= TrailingZeros(Offset(f, b)) - TrailingZeros(f) < n
  {
    hide TrailingZeros, Pow2;
    LargestOrder(f, b.index, b.order, n);
  }

  // The upper half of the arena starts where zeros are most.
  lemma HalfOffset(n: nat, f: int)
    requires f > 0 && n >= 1
    ensures var h := Block(n - 1, 1);
            && InRange(n, h) && h.order >= 0 && Offset(f, h) > 0
            && TrailingZeros(Offset(f, h)) == TrailingZeros(f) + n - 1
  {
    hide TrailingZeros;
    TwoPower();
    TrailingZerosOfPow(n - 1);
    TrailingZerosOfProduct(f, Pow2(n - 1));
  }

  // A whole arena is halved for a block of half its size.
  lemma FirstHalf(n: nat, f: int) returns (d: Arena)
    requires f > 0 && n >= 1
    ensures Valid(Whole(n, f)) && Get(Whole(n, f), n - 1) == Granted(d, 0)
    ensures Valid(d) && d.n == n && |d.free| == n + 1 && d.free[n - 1] == [Unit(f, n - 1)]
  {
    hide TrailingZeros, Pow2, Valid, InHand, Divided, At;
    var a := Whole(n, f);
    WholeValid(n, f);
    TakeFirstValid(a, n);
    FirstIs(a, n - 1, n);
    var t := TakeFirst(a, n);
    TakenInHand(a, n);
    CutOnce(t, 0, n);
    d := Divided(t, 0, n);
    DividedFree(t, 0, n);
    DividedValid(t, 0, n);
    ListCount(d);
  }

  /** In every larger arena the second of two blocks of half its size is granted where the
      trailing zeros cannot be counted, and a release cannot tell its order. */
  lemma OrderLost(n: nat, f: int)
    requires f > 0 && n >= 1 && TrailingZeros(f) + n > 32
    ensures Valid(Whole(n, f)) && Get(Whole(n, f), n - 1).Granted?
    ensures var a := Get(Whole(n, f), n - 1).arena;
            Get(a, n - 1).Granted? && Get(a, n - 1).offset == Unit(f, n - 1) && !Countable(Unit(f, n - 1))
  {
    hide TrailingZeros, Pow2, Valid, InHand, Carved, Whole, Countable;
    HalfOffset(n, f);
    CountedRight(Unit(f, n - 1));
    var d := FirstHalf(n, f);
    FirstIs(d, n - 1, n - 1);
    TakeFirstValid(d, n - 1);
  }

  lemma FirstIs(a: Arena, k: nat, i: nat)
    requires Valid(a) && k <= i <= a.n && a.free[i] != [] && forall j | k <= j < i :: a.free[j] == []
    ensures FirstNonEmpty(a, k) == i
  {
    hide Valid;
    ListCount(a);
  }

  lemma CutOnce(a: Arena, offset: int, m: int)
    requires Valid(a) && m >= 1 && InHand(a, offset, m)
    ensures m <= |a.free| && Carved(a, offset, m, m - 1) == Divided(a, offset, m)
  {
    hide InHand, Divided, WellFormed, Tidy, ListsOk;
    HandOrder(a, offset, m);
    ListCount(a);
    DividedValid(a, offset, m);
  }

  // ----- The allocator ----------------------------------------------------------------

  class BuddyBlockAllocator {
    const order: nat
    const frameSize: int
    const frameSizeOrder: int
    var needMerge: Words
    var blockSplitted: Words
    const freeLists: FreeListVector
    ghost var arena: Arena

    /** The need-merge bits tell of `need`, the split bits of the tree of the arena. */
    ghost predicate BitsOk(need: Tree)
      reads this
    {
      && arena.n == order && arena.frameSize == frameSize
      && NeedsOk(order, need, needMerge)
      && SplitsOk(order, need, blockSplitted)
    }

    ghost predicate ShelvesOk()
      reads this, freeLists, freeLists.lists, freeLists.Nodes()
    {
      freeLists.Valid() && freeLists.Contents() == arena.free
    }

    ghost predicate Constants() {
      frameSize > 0 && Fits(order, frameSize) && Countable(frameSize)
      && frameSizeOrder == LargestPowerOf2DivisorOrder(frameSize)
    }

    ghost predicate Valid()
      reads this, freeLists, freeLists.lists, freeLists.Nodes()
    {
      Constants() && BuddyArena.Valid(arena) && BitsOk(arena.tree) && ShelvesOk()
    }

    constructor (order: nat, frameSize: int)
      requires Fits(order, frameSize)
      ensures Valid() && arena == Whole(order, frameSize)
      ensures fresh(freeLists.lists) && fresh(freeLists.Nodes())
    {
      hide BuddyArena.Valid, NeedsOk, SplitsOk, FreeListVector.Valid, FreeListVector.Nodes, FreeListVector.Contents;
      CountedRight(frameSize);
      var lists := GiantBlock(order);
      this.order := order;
      this.frameSize := frameSize;
      frameSizeOrder := LargestPowerOf2DivisorOrder(frameSize);
      needMerge := seq(Pow2(order) - 1, i => 0);
      blockSplitted := seq(Pow2(order) - 1, i => 0);
      freeLists := lists;
      arena := Whole(order, frameSize);
      new;
      WholeValid(order, frameSize);
      WholeBits();
    }

    /** The free lists with the giant block that spans the entire memory. */
    static method GiantBlock(order: nat) returns (lists: FreeListVector)
      ensures lists.Valid() && fresh(lists) && fresh(lists.lists) && fresh(lists.Nodes())
      ensures lists.Contents() == Whole(order, 1).free
    {
      lists := new FreeListVector(order);
      lists.Add(order, 0);
      assert lists.Contents() == seq(order + 1, i => [])[order := [0]] by {
        assert seq(order + 1, i => [])[order] + [0] == [0];
      }
      OneList(order, lists.Contents());
    }

    static lemma OneList(n: nat, s: seq<seq<int>>)
      requires |s| == n + 1 && s == seq(n + 1, i => [])[n := [0]]
      ensures s == Whole(n, 1).free
    {
    }

    lemma WholeBits()
      requires arena == Whole(order, frameSize)
      requires needMerge == blockSplitted == seq(Pow2(order) - 1, i => 0 as bv32)
      ensures BitsOk(arena.tree)
    {
      var t := arena.tree;
      forall b ensures NeedAt(order, t, needMerge, b) && SplitAt(order, t, blockSplitted, b) {
        NoBit(needMerge, b);
        if Numbered(order, b) { HalvesAreNotRoot(order, b); }
      }
    }

    lemma NoBit(v: Words, b: Block)
      requires v == seq(|v|, i => 0 as bv32) && (Numbered(order, b) ==> 0 <= b.order <= order)
      ensures Numbered(order, b) ==> !Bit(v, Id(order, b))
    {
    }

    twostate predicate ListsKept()
      reads freeLists, freeLists.lists, freeLists.Nodes()
    {
      && freeLists.Nodes() == old(freeLists.Nodes())
      && freeLists.Contents() == old(freeLists.Contents())
      && (old(freeLists.Valid()) ==> freeLists.Valid())
    }

    ghost method SetArena(a: Arena)
      modifies this`arena
      ensures arena == a && ListsKept()
    {
      arena := a;
    }

    // ----- Bits -----------------------------------------------------------------------

    method FlipNeedMerge(offset: int, m: int) returns (bit: bool)
      requires frameSize > 0 && |needMerge| == Pow2(order) - 1
      requires 0 <= m <= order && Numbered(order, At(frameSize, offset, m))
      modifies this`needMerge
      ensures ListsKept()
      ensures var i := Id(order, At(frameSize, offset, m));
              0 <= i < 32 * |old(needMerge)| && needMerge == FlipBit(old(needMerge), i) && bit == Bit(needMerge, i)
    {
      hide FlipBit, GetBit, InRange, Pow2, FreeListVector.Valid, FreeListVector.Nodes, FreeListVector.Contents;
      IdInRange(order, At(frameSize, offset, m));
      var chunkSize := frameSize * Pow2(m);
      var indexWithinLayer := offset / chunkSize;
      var index := Pow2(order - m) - 1 + indexWithinLayer;
      FlipLength(needMerge, index);
      needMerge := FlipBit(needMerge, index);
      bit := GetBit(needMerge, index);
    }

    predicate IsBothFreeOrOccupied(offset: int, m: int): (bit: bool)
      requires frameSize > 0 && |needMerge| == Pow2(order) - 1
      requires 0 <= m <= order && Numbered(order, At(frameSize, offset, m))
      reads this
      ensures bit == !Bit(needMerge, Id(order, At(frameSize, offset, m)))
    {
      hide GetBit, InRange, Pow2;
      IdInRange(order, At(frameSize, offset, m));
      var chunkSize := frameSize * Pow2(m);
      var indexWithinLayer := offset / chunkSize;
      !GetBit(needMerge, Pow2(order - m) - 1 + indexWithinLayer)
    }

    method SetSplitted(offset: int, m: int)
      requires frameSize > 0 && |blockSplitted| == Pow2(order) - 1
      requires 0 <= m <= order && Numbered(order, At(frameSize, offset, m))
      modifies this`blockSplitted
      ensures ListsKept()
      ensures var i := Id(order, At(frameSize, offset, m));
              && 0 <= i < 32 * |old(blockSplitted)|
              && blockSplitted
                 == if Bit(old(blockSplitted), i) then old(blockSplitted) else FlipBit(old(blockSplitted), i)
    {
      hide FlipBit, GetBit, InRange, Pow2, FreeListVector.Valid, FreeListVector.Nodes, FreeListVector.Contents;
      IdInRange(order, At(frameSize, offset, m));
      var chunkSize := frameSize * Pow2(m);
      var indexWithinLayer := offset / chunkSize;
      var index := Pow2(order - m) - 1 + indexWithinLayer;
      if !GetBit(blockSplitted, index) {
        blockSplitted := FlipBit(blockSplitted, index);
      }
    }

    method SetMerged(offset: int, m: int)
      requires frameSize > 0 && |blockSplitted| == Pow2(order) - 1
      requires 0 <= m <= order && Numbered(order, At(frameSize, offset, m))
      modifies this`blockSplitted
      ensures ListsKept()
      ensures var i := Id(order, At(frameSize, offset, m));
              && 0 <= i < 32 * |old(blockSplitted)|
              && blockSplitted
                 == if Bit(old(blockSplitted), i) then FlipBit(old(blockSplitted), i) else old(blockSplitted)
    {
      hide FlipBit, GetBit, InRange, Pow2, FreeListVector.Valid, FreeListVector.Nodes, FreeListVector.Contents;
      IdInRange(order, At(frameSize, offset, m));
      var chunkSize := frameSize * Pow2(m);
      var indexWithinLayer := offset / chunkSize;
      var index := Pow2(order - m) - 1 + indexWithinLayer;
      if GetBit(blockSplitted, index) {
        blockSplitted := FlipBit(blockSplitted, index);
      }
    }

    predicate IsSplitted(offset: int, m: int): (bit: bool)
      requires frameSize > 0 && |blockSplitted| == Pow2(order) - 1
      requires 0 <= m <= order && Numbered(order, At(frameSize, offset, m))
      reads this
      ensures bit == Bit(blockSplitted, Id(order, At(frameSize, offset, m)))
    {
      hide GetBit, InRange, Pow2;
      IdInRange(order, At(frameSize, offset, m));
      var chunkSize := frameSize * Pow2(m);
      var indexWithinLayer := offset / chunkSize;
      GetBit(blockSplitted, Pow2(order - m) - 1 + indexWithinLayer)
    }

    // ----- Allocation -----------------------------------------------------------------

    method FirstIndex(k: nat) returns (freeListIndex: int)
      requires Valid()
      ensures Valid() && freeLists.Nodes() == old(freeLists.Nodes())
      ensures freeListIndex == if FirstNonEmpty(arena, k) <= order then FirstNonEmpty(arena, k) else -1
    {
      hide NeedsOk, SplitsOk, WellFormed, Tidy, FreeListVector.Valid, FreeListVector.Nodes, FreeListVector.Contents;
      freeListIndex := -1;
      var i := k;
      while i <= order
        invariant Valid() && ListsKept()
        invariant k <= i && freeListIndex == -1
        invariant FirstNonEmpty(arena, k) == FirstNonEmpty(arena, i)
      {
        freeLists.EmptyContents(i);
        if !freeLists.IsEmpty(i) {
          freeListIndex := i;
          break;
        }
        i := i + 1;
      }
    }

    method TakeOff(i: nat) returns (addr: int)
      requires frameSize > 0 && arena.frameSize == frameSize && ShelvesOk() && i < |arena.free| && arena.free[i] != []
      modifies freeLists.lists, freeLists.Nodes()
      ensures freeLists.Valid() && freeLists.Grown()
      ensures freeLists.Contents() == TakeFirst(arena, i).free && addr == arena.free[i][0]
    {
      hide FreeListVector.Valid, FreeListVector.Nodes, FreeListVector.Contents, At;
      freeLists.Owned(i);
      var frameDesc := freeLists.RemoveFirst(i);
      addr := frameDesc.page;
    }

    method FlipTakenBit(i: nat, addr: int)
      requires frameSize > 0 && BuddyArena.Valid(arena) && BitsOk(arena.tree) && i <= order && i < |arena.free|
      requires arena.free[i] != [] && addr == arena.free[i][0]
      modifies this`needMerge
      ensures ListsKept() && BitsOk(TakeFirst(arena, i).tree)
    {
      hide NeedsOk, SplitsOk, InRange, Id, FlipBit, At, Parent, BuddyArena.Valid, TakeFirst;
      hide FreeListVector.Valid, FreeListVector.Nodes, FreeListVector.Contents;
      TakenBits(arena, i, needMerge, blockSplitted);
      NeedsLength(order, arena.tree, needMerge);
      if i < order {
        AtParent(frameSize, addr, i);
        AtOrder(frameSize, addr, i + 1);
        var _ := FlipNeedMerge(addr, i + 1);
      }
    }

    /** The first block of list `i` is taken, and the bit of its parent is flipped. */
    method Take(i: nat) returns (addr: int)
      requires Valid() && i <= order && arena.free[i] != []
      modifies this, freeLists.lists, freeLists.Nodes()
      ensures Valid() && freeLists.Grown()
      ensures addr == old(arena).free[i][0] && arena == TakeFirst(old(arena), i)
    {
      hide WellFormed, Tidy, ListsOk, NeedsOk, SplitsOk, At, BuddyArena.Valid, Fits, Countable, TakeFirst;
      hide FreeListVector.Valid, FreeListVector.Nodes, FreeListVector.Contents, IsUsed, Listed;
      ListCount(arena);
      ghost var a := arena;
      assert BuddyArena.Valid(TakeFirst(a, i)) by { TakeFirstValid(a, i); }
      TakenKept(a, i);
      addr := TakeOff(i);
      FlipTakenBit(i, addr);
      SetArena(TakeFirst(a, i));
    }

    method FlipSplitBits(offset: int, i: int)
      requires Constants() && BuddyArena.Valid(arena) && BitsOk(arena.tree) && i >= 1 && InHand(arena, offset, i)
      modifies this`needMerge, this`blockSplitted
      ensures ListsKept() && 1 <= i <= |arena.free|
      ensures NeedsOk(order, Divided(arena, offset, i).tree, needMerge)
      ensures SplitsOk(order, Divided(arena, offset, i).tree, blockSplitted)
    {
      hide WellFormed, Tidy, ListsOk, NeedsOk, SplitsOk, InRange, Id, FlipBit, At, Parent, LeftHalf, RightHalf;
      hide FreeListVector.Valid, FreeListVector.Nodes, FreeListVector.Contents, OneHalfFree, IsSplit, Bit, Divided;
      hide BuddyArena.Valid, InHand;
      ghost var a := arena;
      ghost var b := At(frameSize, offset, i);
      HandOrder(a, offset, i);
      ListCount(a);
      NeedsLength(order, a.tree, needMerge);
      NeedsLength(order, a.tree, blockSplitted);
      DividedToggles(a, offset, i);
      SplitBit(order, a.tree, blockSplitted, b);
      NotSplitBelow(a, offset, i, i);
      NeedFlipped(order, a.tree, Divided(a, offset, i).tree, needMerge, RightHalf(b));
      SplitFlipped(order, a.tree, Divided(a, offset, i).tree, blockSplitted, b);
      var _ := FlipNeedMerge(offset, i);
      SetSplitted(offset, i);
    }

    method PutRightHalf(offset: int, i: int)
      requires frameSize > 0 && arena.n == order && arena.frameSize == frameSize && ShelvesOk()
      requires 1 <= i <= |arena.free|
      modifies freeLists.lists, freeLists.Nodes()
      ensures freeLists.Valid() && freeLists.Grown()
      ensures freeLists.Contents() == Divided(arena, offset, i).free
    {
      hide FreeListVector.Valid, FreeListVector.Nodes, FreeListVector.Contents, Divided, Pow2;
      DividedFree(arena, offset, i);
      freeLists.Owned(i - 1);
      freeLists.Add(i - 1, offset + frameSize * Pow2(i - 1));
    }

    /** The used block of order `i` at `offset` is cut in two, and its right half is put on
        a free list. */
    method SplitOnce(offset: int, i: int)
      requires Valid() && i >= 1 && InHand(arena, offset, i)
      modifies this, freeLists.lists, freeLists.Nodes()
      ensures Valid() && freeLists.Grown()
      ensures arena == Divided(old(arena), offset, i)
    {
      hide WellFormed, Tidy, ListsOk, NeedsOk, SplitsOk, At, Divided, BuddyArena.Valid, InHand, Pow2, Fits, Countable;
      hide FreeListVector.Valid, FreeListVector.Nodes, FreeListVector.Contents, IsUsed;
      ghost var a := arena;
      HandOrder(a, offset, i);
      ListCount(a);
      DividedFree(a, offset, i);
      assert BuddyArena.Valid(Divided(a, offset, i)) by { DividedValid(a, offset, i); }
      FlipSplitBits(offset, i);
      assert ShelvesOk();
      PutRightHalf(offset, i);
      SetArena(Divided(a, offset, i));
    }

    /** The used block at `offset` is cut down from order `i` to order `k`. */
    method Split(freeListIndex: nat, k: nat, offset: int)
      requires Valid() && k <= freeListIndex && InHand(arena, offset, freeListIndex)
      modifies this, freeLists.lists, freeLists.Nodes()
      ensures Valid() && freeLists.Grown()
      ensures arena == Carved(old(arena), offset, freeListIndex, k)
    {
      hide WellFormed, Tidy, ListsOk, NeedsOk, SplitsOk, At, Divided, InHand;
      hide FreeListVector.Valid, FreeListVector.Nodes, FreeListVector.Contents;
      var i := freeListIndex;
      while i > k
        invariant k <= i && Valid() && InHand(arena, offset, i)
        invariant Carved(old(arena), offset, freeListIndex, k) == Carved(arena, offset, i, k)
        invariant freeLists.Grown()
      {
        DividedValid(arena, offset, i);
        SplitOnce(offset, i);
        i := i - 1;
      }
    }

    /** A request for 2^k frames: the offset of the block that is handed out. */
    method GetFrame(k: nat) returns (r: Option<int>)
      requires Valid()
      modifies this, freeLists.lists, freeLists.Nodes()
      ensures Valid() && freeLists.Grown()
      ensures match Get(old(arena), k)
              case Exhausted => r == None && arena == old(arena)
              case Granted(a, offset) => r == Some(offset) && arena == a
    {
      hide WellFormed, Tidy, ListsOk, NeedsOk, SplitsOk, At, InHand;
      hide FreeListVector.Valid, FreeListVector.Nodes, FreeListVector.Contents;
      var freeListIndex := FirstIndex(k);
      if freeListIndex == -1 {
        return None;
      }
      ListCount(arena);
      TakenInHand(arena, freeListIndex);
      var addr := Take(freeListIndex);
      if freeListIndex > k {
        Split(freeListIndex, k, addr);
      }
      r := Some(addr);
    }

    // ----- Release --------------------------------------------------------------------

    /** The order of the used block at `offset`, found from the split bits alone. */
    method ActualOrder(offset: int, ghost k: int) returns (actualOrder: int)
      requires Valid() && InHand(arena, offset, k)
      ensures actualOrder == k && Valid() && freeLists.Nodes() == old(freeLists.Nodes())
    {
      hide WellFormed, Tidy, ListsOk, NeedsOk, SplitsOk, At, IsSplit, Bit, InRange, Id;
      hide FreeListVector.Valid, FreeListVector.Nodes, FreeListVector.Contents;
      HandInArena(arena, offset, k);
      CountedRight(frameSize);
      if offset != 0 {
        OffsetZeros(arena, offset, k);
        CountedRight(offset);
      }
      var largestPossibleOrder :=
        if offset == 0 then order else LargestPowerOf2DivisorOrder(offset) - frameSizeOrder;
      HandOrder(arena, offset, k);
      NeedsLength(order, arena.tree, blockSplitted);
      actualOrder := largestPossibleOrder;
      var m := 1;
      while m <= largestPossibleOrder
        invariant 1 <= m <= k + 1 && actualOrder == largestPossibleOrder
        invariant Valid() && ListsKept()
      {
        AtInRange(order, frameSize, offset, m);
        AtOrder(frameSize, offset, m);
        SplitBit(order, arena.tree, blockSplitted, At(frameSize, offset, m));
        if m <= k { NotSplitBelow(arena, offset, k, m); } else { SplitAbove(arena, offset, k); }
        if IsSplitted(offset, m) {
          actualOrder := m - 1;
          break;
        }
        m := m + 1;
      }
    }

    /** The block is in use, but the bits already tell of it as free. */
    ghost predicate Freeing(b: Block)
      reads this, freeLists, freeLists.lists, freeLists.Nodes()
    {
      && Constants() && BuddyArena.Valid(arena) && ShelvesOk()
      && IsUsed(arena.tree, b) && BitsOk(arena.tree[b := State.Free])
    }

    method FlipMergeBits(offset: int, m: int)
      requires 1 <= m <= order && Constants() && BuddyArena.Valid(arena)
      requires var b := At(frameSize, offset, m - 1);
               IsUsed(arena.tree, b) && IsFree(arena.tree, Buddy(b)) && BitsOk(arena.tree[b := State.Free])
      modifies this`needMerge, this`blockSplitted
      ensures ListsKept()
      ensures var p := At(frameSize, offset, m);
              var t := Join(arena.tree, p)[p := State.Free];
              NeedsOk(order, t, needMerge) && SplitsOk(order, t, blockSplitted)
    {
      hide WellFormed, Tidy, ListsOk, NeedsOk, SplitsOk, InRange, Id, FlipBit, At, Parent, LeftHalf, RightHalf, Buddy;
      hide FreeListVector.Valid, FreeListVector.Nodes, FreeListVector.Contents, OneHalfFree, IsSplit, Bit, Join;
      hide BuddyArena.Valid, Pow2, Fits, Countable;
      ghost var b := At(frameSize, offset, m - 1);
      ghost var p := At(frameSize, offset, m);
      ghost var t := arena.tree[b := State.Free];
      ghost var t' := Join(arena.tree, p)[p := State.Free];
      AtParent(frameSize, offset, m - 1);
      AtParent(frameSize, offset, m);
      AtOrder(frameSize, offset, m - 1);
      AtOrder(frameSize, offset, m);
      NeedsLength(order, t, needMerge);
      NeedsLength(order, t, blockSplitted);
      JoinedToggles(arena, b);
      ParentSplit(arena, b);
      SplitBit(order, t, blockSplitted, p);
      NeedFlipped(order, t, t', needMerge, p);
      SplitFlipped(order, t, t', blockSplitted, p);
      if m < order {
        var _ := FlipNeedMerge(offset, m + 1);
      }
      SetMerged(offset, m);
    }

    /** The buddy of the block of order `m - 1` that holds `offset` leaves its free list. */
    method RemoveBuddy(offset: int, m: int)
      requires 1 <= m <= order && Constants() && arena.n == order && arena.frameSize == frameSize
      requires BuddyArena.Valid(arena) && ShelvesOk()
      requires var b := At(frameSize, offset, m - 1);
               IsUsed(arena.tree, b) && IsFree(arena.tree, Buddy(b))
      modifies freeLists.lists, freeLists.Nodes()
      ensures freeLists.Valid() && freeLists.Grown()
      ensures var b := At(frameSize, offset, m - 1);
              && m - 1 < |arena.free| && Buddy(b).order >= 0 && Offset(frameSize, Buddy(b)) in arena.free[m - 1]
              && freeLists.Contents() == Joined(arena, b).free
    {
      hide WellFormed, Tidy, ListsOk, NeedsOk, SplitsOk, At;
      hide Parent, LeftHalf, RightHalf, Buddy, Distinct, Offset, RemoveAt;
      hide FreeListVector.Valid, FreeListVector.Nodes, BuddyArena.Valid, TrailingZeros, Pow2;
      ghost var b := At(frameSize, offset, m - 1);
      AtOrder(frameSize, offset, m - 1);
      AtParent(frameSize, offset, m - 1);
      HalvesOfParent(b);
      HalvesOfParent(At(frameSize, offset, m));
      WhichHalf(frameSize, offset, m);
      FreeShelved(arena, Buddy(b));
      ListDistinct(arena, m - 1);
      var chunkSize := frameSize * Pow2(m);
      var indexWithinLayer := offset / chunkSize;
      var chunkStartOffset := chunkSize * indexWithinLayer;
      ghost var i;
      if chunkStartOffset <= offset < chunkStartOffset + chunkSize / 2 {
        i := RemovePage(m - 1, chunkStartOffset + chunkSize / 2);
      } else {
        i := RemovePage(m - 1, chunkStartOffset);
      }
      IndexUnique(arena.free[m - 1], i);
    }

    /** A block that is on a free list leaves it. */
    method RemovePage(k: nat, page: int) returns (ghost i: nat)
      requires freeLists.Valid() && k < |freeLists.lists| && page in freeLists.Contents()[k]
      modifies freeLists.lists, freeLists.Nodes()
      ensures freeLists.Valid() && freeLists.Grown()
      ensures var s := old(freeLists.Contents());
              && i < |s[k]| && s[k][i] == page && freeLists.Contents() == s[k := RemoveAt(s[k], i)]
    {
      hide FreeListVector.Valid, FreeListVector.Nodes, RemoveAt, FreeListVector.Contents;
      ghost var s := freeLists.Contents();
      var desc := freeLists.Find(k, page);
      freeLists.Owned(k);
      freeLists.Remove(k, desc);
      i :| 0 <= i < |s[k]| && s[k][i] == page && freeLists.Contents()[k] == RemoveAt(s[k], i);
    }

    /** The block of order `m - 1` that is being freed is joined with its free buddy. */
    method MergeChunk(offset: int, m: int)
      requires 1 <= m <= order && frameSize > 0 && Freeing(At(frameSize, offset, m - 1))
      requires IsFree(arena.tree, Buddy(At(frameSize, offset, m - 1)))
      modifies this, freeLists.lists, freeLists.Nodes()
      ensures Freeing(At(frameSize, offset, m)) && freeLists.Grown()
      ensures var a, b := old(arena), At(frameSize, offset, m - 1);
              && m - 1 < |a.free| && Buddy(b).order >= 0 && Offset(a.frameSize, Buddy(b)) in a.free[m - 1]
              && arena == Joined(a, b)
    {
      hide At, Parent, Buddy, Offset, BuddyArena.Valid, Fits, Countable, Joined, Join, IsUsed, IsFree, Pow2;
      hide FreeListVector.Valid, FreeListVector.Nodes, FreeListVector.Contents, NeedsOk, SplitsOk;
      ghost var a := arena;
      ghost var b := At(frameSize, offset, m - 1);
      AtParent(frameSize, offset, m - 1);
      AtOrder(frameSize, offset, m - 1);
      JoinReady(a, b);
      RemoveBuddy(offset, m);
      assert freeLists.Valid() && freeLists.Contents() == Joined(a, b).free;
      FlipMergeBits(offset, m);
      assert BitsOk(Joined(a, b).tree[Parent(b) := State.Free]);
      SetArena(Joined(a, b));
    }

    /** The bits are made to tell of the used block of order `m - 1` at `offset` as free. */
    method StartFreeing(offset: int, m: int)
      requires Valid() && m >= 1 && InHand(arena, offset, m - 1)
      modifies this`needMerge
      ensures Freeing(At(frameSize, offset, m - 1)) && ListsKept()
    {
      hide WellFormed, Tidy, ListsOk, NeedsOk, SplitsOk, At, Parent, Buddy, Offset, BuddyArena.Valid, Fits, Countable;
      hide FreeListVector.Valid, FreeListVector.Nodes, FreeListVector.Contents, OneHalfFree, IsSplit, InRange, Pow2;
      ghost var b := At(frameSize, offset, m - 1);
      AtParent(frameSize, offset, m - 1);
      AtOrder(frameSize, offset, m - 1);
      FreedToggles(arena, b);
      NeedsLength(order, arena.tree, needMerge);
      NeedFlipped(order, arena.tree, arena.tree[b := State.Free], needMerge, b);
      SplitsKept(order, arena.tree, arena.tree[b := State.Free], blockSplitted);
      if m <= order {
        var _ := FlipNeedMerge(offset, m);
      }
    }

    /** The block of order `m` that holds `offset` joins its free list. */
    method FinishFreeing(offset: int, m: int)
      requires 0 <= m <= order && frameSize > 0 && Freeing(At(frameSize, offset, m))
      requires m < order ==> !IsFree(arena.tree, Buddy(At(frameSize, offset, m)))
      modifies this, freeLists.lists, freeLists.Nodes()
      ensures Valid() && freeLists.Grown()
      ensures m < |old(arena).free| && arena == Returned(old(arena), At(frameSize, offset, m))
    {
      hide WellFormed, Tidy, ListsOk, NeedsOk, SplitsOk, At, Parent, Buddy, Start, BuddyArena.Valid, Fits, Countable;
      hide FreeListVector.Valid, FreeListVector.Nodes, FreeListVector.Contents, OneHalfFree, IsUsed, IsFree, Pow2;
      ghost var a := arena;
      ghost var b := At(frameSize, offset, m);
      AtOrder(frameSize, offset, m);
      ListCount(a);
      ReturnedValid(a, b);
      ChunkStart(frameSize, offset, m);
      freeLists.Owned(m);
      freeLists.Add(m, ChunkStartOffset(frameSize, offset, m));
      SetArena(Returned(a, b));
    }

    /** The used block at `offset`, whose order is not told, is given back. */
    method FreeFrame(offset: int, ghost k: int)
      requires Valid() && InHand(arena, offset, k)
      modifies this, freeLists.lists, freeLists.Nodes()
      ensures Valid() && freeLists.Grown()
      ensures arena == Released(old(arena), At(frameSize, offset, k))
    {
      hide WellFormed, Tidy, ListsOk, NeedsOk, SplitsOk, At, Parent, Buddy, Offset, BuddyArena.Valid, Fits, Countable;
      hide FreeListVector.Valid, FreeListVector.Nodes, FreeListVector.Contents, IsUsed, IsFree, Join, Pow2, OneHalfFree;
      hide Released, Joined, Returned;
      ghost var b := At(frameSize, offset, k);
      HandOrder(arena, offset, k);
      var actualOrder := ActualOrder(offset, k);
      var m := actualOrder + 1;
      StartFreeing(offset, m);
      while m <= order
        invariant k < m <= order + 1 && Freeing(At(frameSize, offset, m - 1))
        invariant Released(old(arena), b) == Released(arena, At(frameSize, offset, m - 1))
        invariant freeLists.Grown()
      {
        ghost var hand := At(frameSize, offset, m - 1);
        AtOrder(frameSize, offset, m - 1);
        AtParent(frameSize, offset, m - 1);
        BuddyFreeIff(arena, hand);
        NeedBit(order, arena.tree[hand := State.Free], needMerge, Parent(hand));
        NeedsLength(order, arena.tree[hand := State.Free], needMerge);
        if IsBothFreeOrOccupied(offset, m) {
          ReleasedJoined(arena, hand);
          MergeChunk(offset, m);
        } else {
          break;
        }
        m := m + 1;
      }
      AtOrder(frameSize, offset, m - 1);
      ReleasedReturned(arena, At(frameSize, offset, m - 1));
      FinishFreeing(offset, m - 1);
    }

    /** True exactly when the whole memory is one free block. */
    method IsEmpty() returns (empty: bool)
      requires Valid()
      ensures empty <==> arena == Whole(order, frameSize)
    {
      hide BuddyArena.Valid, FreeListVector.Valid, FreeListVector.Nodes, FreeListVector.Contents, Fits, Countable;
      EmptyIffWhole(arena);
      ListCount(arena);
      var i := 0;
      while i < |freeLists.lists| - 1
        invariant 0 <= i <= order && Valid() && arena == old(arena)
        invariant forall j | 0 <= j < i :: arena.free[j] == []
      {
        freeLists.EmptyContents(i);
        if !freeLists.IsEmpty(i) {
          return false;
        }
        i := i + 1;
      }
      freeLists.EmptyContents(order);
      return !freeLists.IsEmpty(order);
    }
  }

  /** With nothing handed out all bits are clear. */
  lemma AllBitsClear(n: nat, f: int, needs: Words, splits: Words, b: Block)
    requires f > 0 && NeedsOk(n, Whole(n, f).tree, needs) && SplitsOk(n, Whole(n, f).tree, splits) && Numbered(n, b)
    ensures 0 <= b.order <= n && !Bit(needs, Id(n, b)) && !Bit(splits, Id(n, b))
  {
    hide Bit, Id;
    OrderBound(n, b);
    assert NeedAt(n, Whole(n, f).tree, needs, b) && SplitAt(n, Whole(n, f).tree, splits, b);
    HalvesAreNotRoot(n, b);
  }

  lemma HalvesAreNotRoot(n: nat, b: Block)
    requires Numbered(n, b)
    ensures b.order > 0 ==> LeftHalf(b) != Block(n, 0) && RightHalf(b) != Block(n, 0)
  {
  }

  lemma OnlyTopFree(a: Arena)
    requires Valid(a) && (forall j | 0 <= j < a.n :: a.free[j] == []) && a.free[a.n] != []
    ensures a == Whole(a.n, a.frameSize)
  {
    hide At, Offset, Tidy;
    var root := Block(a.n, 0);
    var x := a.free[a.n][0];
    assert ListOk(a, a.n) && x in a.free[a.n] && Listed(a, a.n, x);
    AtOrder(a.frameSize, x, a.n);
    InTree(a.n, a.tree, At(a.frameSize, x, a.n));
    RangeAtTop(a.n, At(a.frameSize, x, a.n));
    forall b | b in a.tree ensures b == root {
      if b != root { RootSplit(a.n, a.tree, b); }
    }
    assert a.tree == map[root := State.Free];
    OnlyRootListed(a);
  }

  /** The lists tell whether anything is handed out. */
  lemma EmptyIffWhole(a: Arena)
    requires Valid(a)
    ensures (forall j | 0 <= j < a.n :: a.free[j] == []) && a.free[a.n] != [] <==> a == Whole(a.n, a.frameSize)
  {
    if (forall j | 0 <= j < a.n :: a.free[j] == []) && a.free[a.n] != [] { OnlyTopFree(a); }
  }

  // One step of a release.
  lemma ReleasedJoined(a: Arena, b: Block)
    requires Valid(a) && IsUsed(a.tree, b) && b.order < a.n && IsFree(a.tree, Buddy(b))
    ensures 0 <= b.order < |a.free| && Buddy(b).order >= 0 && Offset(a.frameSize, Buddy(b)) in a.free[b.order]
    ensures Valid(Joined(a, b)) && IsUsed(Joined(a, b).tree, Parent(b))
    ensures Released(a, b) == Released(Joined(a, b), Parent(b))
  {
    JoinedValid(a, b);
  }

  lemma ReleasedReturned(a: Arena, b: Block)
    requires Valid(a) && IsUsed(a.tree, b) && (b.order == a.n || !IsFree(a.tree, Buddy(b)))
    ensures 0 <= b.order < |a.free| && Released(a, b) == Returned(a, b)
  {
    UsedInRange(a, b);
  }

  function ChunkStartOffset(frameSize: int, offset: int, k: nat): int
    requires frameSize > 0
  {
    var chunkSize := frameSize * Pow2(k);
    var indexWithinLayer := offset / chunkSize;
    chunkSize * indexWithinLayer
  }

  lemma ChunkStart(f: int, offset: int, k: nat)
    requires f > 0
    ensures ChunkStartOffset(f, offset, k) == Offset(f, At(f, offset, k))
  {
    OffsetInUnits(f, At(f, offset, k));
  }

  lemma ParentSplit(a: Arena, b: Block)
    requires Valid(a) && IsUsed(a.tree, b) && b.order < a.n
    ensures IsSplit(a.tree[b := State.Free], Parent(b))
  {
    BuddyInPlace(a.n, a.tree, b);
  }

  lemma BuddyFreeIff(a: Arena, b: Block)
    requires Valid(a) && IsUsed(a.tree, b) && b.order < a.n
    ensures IsFree(a.tree, Buddy(b)) <==> !OneHalfFree(a.tree[b := State.Free], Parent(b))
    ensures Numbered(a.n, Parent(b))
  {
    hide LeftHalf, RightHalf, Parent, Buddy, Tidy, ListsOk, InRange;
    HalvesOfParent(b);
    HalvesOfParent(Parent(b));
    InTree(a.n, a.tree, b);
    HalfInRange(a.n, b);
    OrderBound(a.n, b);
  }

  lemma NeedBit(n: nat, t: Tree, v: Words, b: Block)
    requires NeedsOk(n, t, v) && Numbered(n, b)
    ensures 0 <= b.order <= n && (Bit(v, Id(n, b)) <==> OneHalfFree(t, b))
  {
    OrderBound(n, b);
    assert NeedAt(n, t, v, b);
  }

  lemma ListDistinct(a: Arena, k: int)
    requires Valid(a) && 0 <= k <= a.n
    ensures Distinct(a.free[k])
  {
    assert ListOk(a, k);
  }

  lemma JoinReady(a: Arena, b: Block)
    requires Valid(a) && IsUsed(a.tree, b) && b.order < a.n && IsFree(a.tree, Buddy(b))
    ensures 0 <= b.order < |a.free| && Buddy(b).order >= 0 && Offset(a.frameSize, Buddy(b)) in a.free[b.order]
    ensures Valid(Joined(a, b)) && IsUsed(Joined(a, b).tree, Parent(b))
    ensures Joined(a, b).n == a.n && Joined(a, b).frameSize == a.frameSize
    ensures Joined(a, b).tree[Parent(b) := State.Free] == Join(a.tree, Parent(b))[Parent(b) := State.Free]
  {
    hide Valid, Buddy, Offset, IsUsed, IsFree, Join;
    JoinedValid(a, b);
  }

  lemma TakenKept(a: Arena, k: int)
    requires a.frameSize > 0 && 0 <= k < |a.free| && a.free[k] != []
    ensures TakeFirst(a, k).n == a.n && TakeFirst(a, k).frameSize == a.frameSize
  {
  }

  /** The bits after the first block of list `k` is taken. */
  lemma TakenBits(a: Arena, k: int, needs: Words, splits: Words)
    requires Valid(a) && 0 <= k <= a.n && a.free[k] != []
    requires NeedsOk(a.n, a.tree, needs) && SplitsOk(a.n, a.tree, splits)
    ensures var b, t := At(a.frameSize, a.free[k][0], k), TakeFirst(a, k).tree;
            && SplitsOk(a.n, t, splits)
            && (k == a.n ==> NeedsOk(a.n, t, needs))
            && (k < a.n ==> Numbered(a.n, Parent(b)) && 0 <= Id(a.n, Parent(b)) < 32 * |needs|)
            && (k < a.n ==> NeedsOk(a.n, t, FlipBit(needs, Id(a.n, Parent(b)))))
  {
    hide WellFormed, Tidy, ListsOk, NeedsOk, SplitsOk, At, Parent, Id, FlipBit, OneHalfFree, IsSplit, InRange;
    TakenToggles(a, k);
    ListCount(a);
    NeedFlipped(a.n, a.tree, TakeFirst(a, k).tree, needs, At(a.frameSize, a.free[k][0], k));
    SplitsKept(a.n, a.tree, TakeFirst(a, k).tree, splits);
  }

  lemma DividedFree(a: Arena, offset: int, m: int)
    requires a.frameSize > 0 && 1 <= m <= |a.free|
    ensures var a' := Divided(a, offset, m);
            && a'.n == a.n && a'.frameSize == a.frameSize
            && a'.free == a.free[m - 1 := a.free[m - 1] + [offset + a.frameSize * Pow2(m - 1)]]
  {
  }

  lemma HandOrder(a: Arena, offset: int, k: int)
    requires a.frameSize > 0 && InHand(a, offset, k)
    ensures 0 <= k <= a.n
  {
  }

  lemma TakenInHand(a: Arena, k: int)
    requires Valid(a) && 0 <= k <= a.n && a.free[k] != []
    ensures InHand(TakeFirst(a, k), a.free[k][0], k)
  {
    TakeFirstValid(a, k);
  }

  lemma SplitBit(n: nat, t: Tree, v: Words, b: Block)
    requires SplitsOk(n, t, v) && Numbered(n, b)
    ensures 0 <= b.order <= n && (Bit(v, Id(n, b)) <==> IsSplit(t, b))
  {
    OrderBound(n, b);
    assert SplitAt(n, t, v, b);
  }

  lemma WholeValid(n: nat, f: int)
    requires f > 0
    ensures Valid(Whole(n, f))
  {
    WholeSound(n, f);
  }

  lemma ListCount(a: Arena)
    requires Valid(a)
    ensures |a.free| == a.n + 1
  {
  }

  lemma NeedsLength(n: nat, t: Tree, v: Words)
    ensures NeedsOk(n, t, v) ==> |v| == Pow2(n) - 1
    ensures SplitsOk(n, t, v) ==> |v| == Pow2(n) - 1
  {
  }
}
