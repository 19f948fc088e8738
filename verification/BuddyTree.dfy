/** The state of a buddy allocator as a binary tree of blocks, and the promises of the
    allocator over every run of it. */
module BuddyTree {
  import opened Powers

  /** The `index`th aligned block of 2^order frames. */
  datatype Block = Block(order: int, index: int)

  /** A block in use is `Free` or `Used` as a whole, or `Split` into its halves.  A block
      that is not in the tree lies inside one that is not split. */
  datatype State = Free | Used | Split

  type Tree = map<Block, State>

  function Parent(b: Block): Block { Block(b.order + 1, b.index / 2) }

  function LeftHalf(b: Block): Block { Block(b.order - 1, 2 * b.index) }

  function RightHalf(b: Block): Block { Block(b.order - 1, 2 * b.index + 1) }

  function Buddy(b: Block): Block {
    if b.index % 2 == 0 then Block(b.order, b.index + 1) else Block(b.order, b.index - 1)
  }

  lemma HalvesOfParent(b: Block)
    ensures Parent(LeftHalf(b)) == b && Parent(RightHalf(b)) == b
    ensures LeftHalf(b) != RightHalf(b) && Buddy(LeftHalf(b)) == RightHalf(b) && Buddy(RightHalf(b)) == LeftHalf(b)
    ensures LeftHalf(b).order == b.order - 1 == RightHalf(b).order && Parent(b).order == b.order + 1
    ensures || (LeftHalf(Parent(b)) == b && RightHalf(Parent(b)) == Buddy(b))
            || (RightHalf(Parent(b)) == b && LeftHalf(Parent(b)) == Buddy(b))
  {
  }

  predicate IsFree(t: Tree, b: Block) { b in t && t[b] == Free }

  predicate IsUsed(t: Tree, b: Block) { b in t && t[b] == Used }

  predicate IsSplit(t: Tree, b: Block) { b in t && t[b] == Split }

  ghost predicate InRange(n: nat, b: Block) {
    0 <= b.order <= n && 0 <= b.index < Pow2(n - b.order)
  }

  /** A block is in the tree under a split parent; a split block has both halves there. */
  ghost predicate Placed(n: nat, t: Tree, b: Block) {
    && InRange(n, b)
    && (b.order == n || IsSplit(t, Parent(b)))
    && (IsSplit(t, b) ==> b.order >= 1 && LeftHalf(b) in t && RightHalf(b) in t)
  }

  ghost predicate WellFormed(n: nat, t: Tree) {
    && Block(n, 0) in t
    && (forall b {:trigger Placed(n, t, b)} | b in t :: Placed(n, t, b))
  }

  /** Two buddies are never both free. */
  ghost predicate Tidy(t: Tree) {
    forall b {:trigger IsSplit(t, b)} :: IsSplit(t, b) ==> !(IsFree(t, LeftHalf(b)) && IsFree(t, RightHalf(b)))
  }

  // ----- Steps ------------------------------------------------------------------------

  /** A block that is not split changes hands. */
  lemma MarkWellFormed(n: nat, t: Tree, b: Block, s: State)
    requires WellFormed(n, t) && b in t && t[b] != Split && s != Split
    ensures WellFormed(n, t[b := s])
  {
    hide Parent, LeftHalf, RightHalf, InRange;
    var t' := t[b := s];
    forall c | c in t' ensures Placed(n, t', c) {
      assert Placed(n, t, c);
    }
  }

  lemma MarkUsedTidy(t: Tree, b: Block)
    requires Tidy(t) && b in t && t[b] != Split
    ensures Tidy(t[b := Used])
  {
    hide LeftHalf, RightHalf;
    var t' := t[b := Used];
    forall c | IsSplit(t', c) ensures !(IsFree(t', LeftHalf(c)) && IsFree(t', RightHalf(c))) {
      assert IsSplit(t, c);
    }
  }

  /** A used block is cut: its left half stays in use, its right half becomes free. */
  function Divide(t: Tree, b: Block): Tree {
    t[b := Split][LeftHalf(b) := Used][RightHalf(b) := Free]
  }

  lemma HalfInRange(n: nat, b: Block)
    requires InRange(n, b)
    ensures b.order >= 1 ==> InRange(n, LeftHalf(b)) && InRange(n, RightHalf(b))
    ensures b.order < n ==> InRange(n, Parent(b)) && InRange(n, Buddy(b))
  {
  }

  lemma HalfNotIn(n: nat, t: Tree, b: Block)
    requires WellFormed(n, t) && b in t && t[b] != Split
    ensures LeftHalf(b) !in t && RightHalf(b) !in t
  {
    HalvesOfParent(b);
    assert LeftHalf(b) in t ==> Placed(n, t, LeftHalf(b));
    assert RightHalf(b) in t ==> Placed(n, t, RightHalf(b));
    assert Placed(n, t, b);
  }

  lemma DivideWellFormed(n: nat, t: Tree, b: Block)
    requires WellFormed(n, t) && IsUsed(t, b) && b.order >= 1
    ensures WellFormed(n, Divide(t, b))
  {
    hide Parent, LeftHalf, RightHalf, InRange, Buddy;
    var t' := Divide(t, b);
    HalvesOfParent(b);
    HalfNotIn(n, t, b);
    assert Placed(n, t, b);
    HalfInRange(n, b);
    forall c | c in t' ensures Placed(n, t', c) {
      if c in t { assert Placed(n, t, c); }
      HalvesOfParent(c);
    }
  }

  lemma DivideTidy(n: nat, t: Tree, b: Block)
    requires WellFormed(n, t) && Tidy(t) && IsUsed(t, b) && b.order >= 1
    ensures Tidy(Divide(t, b))
  {
    hide Parent, LeftHalf, RightHalf, InRange, Buddy;
    var t' := Divide(t, b);
    HalvesOfParent(b);
    HalfNotIn(n, t, b);
    forall c | IsSplit(t', c) ensures !(IsFree(t', LeftHalf(c)) && IsFree(t', RightHalf(c))) {
      HalvesOfParent(c);
      if c != b { assert IsSplit(t, c) && Placed(n, t, c); }
    }
  }

  /** A split block takes back its halves and is in use as a whole. */
  function Join(t: Tree, b: Block): Tree {
    (t - {LeftHalf(b), RightHalf(b)})[b := Used]
  }

  lemma JoinWellFormed(n: nat, t: Tree, b: Block)
    requires WellFormed(n, t) && IsSplit(t, b)
    requires !IsSplit(t, LeftHalf(b)) && !IsSplit(t, RightHalf(b))
    ensures WellFormed(n, Join(t, b))
  {
    hide Parent, LeftHalf, RightHalf, InRange, Buddy;
    var t' := Join(t, b);
    HalvesOfParent(b);
    assert Placed(n, t, b);
    RootIsNoHalf(n, t, b);
    forall c | c in t' ensures Placed(n, t', c) {
      assert Placed(n, t, c);
      HalvesOfParent(c);
    }
  }

  lemma RootIsNoHalf(n: nat, t: Tree, b: Block)
    requires WellFormed(n, t) && b in t
    ensures Block(n, 0) != LeftHalf(b) && Block(n, 0) != RightHalf(b)
  {
    assert Placed(n, t, b);
  }

  lemma JoinTidy(n: nat, t: Tree, b: Block)
    requires Tidy(t) && IsSplit(t, b)
    ensures Tidy(Join(t, b))
  {
    hide Parent, LeftHalf, RightHalf, InRange, Buddy;
    var t' := Join(t, b);
    forall c | IsSplit(t', c) ensures !(IsFree(t', LeftHalf(c)) && IsFree(t', RightHalf(c))) {
      assert IsSplit(t, c);
    }
  }

  lemma MarkFreeTidy(n: nat, t: Tree, b: Block)
    requires WellFormed(n, t) && Tidy(t) && IsUsed(t, b)
    requires b.order == n || !IsFree(t, Buddy(b))
    ensures Tidy(t[b := Free])
  {
    hide Parent, LeftHalf, RightHalf, Buddy, Pow2;
    var t' := t[b := Free];
    forall c | IsSplit(t', c) ensures !(IsFree(t', LeftHalf(c)) && IsFree(t', RightHalf(c))) {
      assert IsSplit(t, c) && Placed(n, t, c);
      HalvesOfParent(c);
      HalvesOfParent(b);
    }
  }

  // ----- Extents ----------------------------------------------------------------------

  // The frames of a block: from `Start` up to `End`.
  function Start(b: Block): int
    requires b.order >= 0
  {
    b.index * Pow2(b.order)
  }

  function End(b: Block): int
    requires b.order >= 0
  {
    Start(b) + Pow2(b.order)
  }

  predicate Overlap(b: Block, c: Block)
    requires b.order >= 0 && c.order >= 0
  {
    Start(b) < End(c) && Start(c) < End(b)
  }

  /** The halves partition a block. */
  lemma HalfExtents(b: Block)
    requires b.order >= 1
    ensures Start(LeftHalf(b)) == Start(b) < End(LeftHalf(b)) == Start(RightHalf(b)) < End(RightHalf(b)) == End(b)
  {
    var h := Pow2(b.order - 1);
    assert Pow2(b.order) == 2 * h;
    assert 2 * b.index * h == b.index * (2 * h);
    assert (2 * b.index + 1) * h == 2 * b.index * h + h;
  }

  lemma ParentExtent(b: Block)
    requires b.order >= 0
    ensures Start(Parent(b)) <= Start(b) && End(b) <= End(Parent(b))
  {
    hide Start, End, LeftHalf, RightHalf, Parent, Buddy;
    HalvesOfParent(b);
    HalfExtents(Parent(b));
  }

  lemma SameOrderApart(b: Block, c: Block)
    requires b.order == c.order >= 0 && b != c
    ensures !Overlap(b, c)
  {
    hide Pow2;
    var s := Pow2(b.order);
    if b.index < c.index { NextMultiple(b.index, c.index, s); } else { NextMultiple(c.index, b.index, s); }
  }

  lemma NextMultiple(i: int, j: int, s: int)
    requires i < j && s >= 0
    ensures i * s + s <= j * s
  {
    Scaled(j - i - 1, i + 1, s);
    Scaled(i, 1, s);
  }

  lemma Scaled(d: int, i: int, s: int)
    ensures (d + i) * s == d * s + i * s
    ensures d >= 0 && s >= 0 ==> d * s >= 0
  {
  }

  lemma {:induction false} SmallerApart(n: nat, t: Tree, b: Block, c: Block)
    requires WellFormed(n, t) && b in t && c in t && t[c] != Split && b != c
    requires 0 <= b.order <= c.order
    ensures !Overlap(b, c)
    decreases c.order - b.order
  {
    hide Start, End, LeftHalf, RightHalf, Parent, Buddy, Pow2;
    if b.order == c.order {
      SameOrderApart(b, c);
    } else {
      HalvesOfParent(b);
      assert Placed(n, t, b) && Placed(n, t, c);
      SmallerApart(n, t, Parent(b), c);
      ParentExtent(b);
    }
  }

  /** Blocks that are handed out or free share no frame with one another. */
  lemma LeavesApart(n: nat, t: Tree, b: Block, c: Block)
    requires WellFormed(n, t) && b in t && c in t && t[b] != Split && t[c] != Split && b != c
    ensures 0 <= b.order && 0 <= c.order && !Overlap(b, c)
  {
    assert Placed(n, t, b) && Placed(n, t, c);
    if b.order <= c.order { SmallerApart(n, t, b, c); } else { SmallerApart(n, t, c, b); }
  }

  // ----- Completeness -----------------------------------------------------------------

  /** No frame of `r` is handed out. */
  ghost predicate Unallocated(t: Tree, r: Block)
    requires r.order >= 0
  {
    forall b | IsUsed(t, b) && b.order >= 0 :: !Overlap(b, r)
  }

  lemma UnallocatedPart(t: Tree, r: Block, p: Block)
    requires r.order >= 0 && p.order >= 0 && Unallocated(t, r)
    requires Start(r) <= Start(p) && End(p) <= End(r)
    ensures Unallocated(t, p)
  {
    hide Start, End;
    forall b | IsUsed(t, b) && b.order >= 0 ensures !Overlap(b, p) {
      assert !Overlap(b, r);
    }
  }

  lemma SelfOverlap(b: Block)
    requires b.order >= 0
    ensures Overlap(b, b)
  {
  }

  /** A block in the tree without an allocated frame is free as a whole. */
  lemma {:induction false} UnallocatedIsFree(n: nat, t: Tree, r: Block)
    requires WellFormed(n, t) && Tidy(t) && r in t && r.order >= 0 && Unallocated(t, r)
    ensures IsFree(t, r)
    decreases r.order
  {
    hide Start, End, LeftHalf, RightHalf, Parent, Buddy, Pow2, Overlap;
    assert Placed(n, t, r);
    if t[r] == Used {
      SelfOverlap(r);
    } else if IsSplit(t, r) {
      HalvesOfParent(r);
      HalfExtents(r);
      UnallocatedPart(t, r, LeftHalf(r));
      UnallocatedPart(t, r, RightHalf(r));
      UnallocatedIsFree(n, t, LeftHalf(r));
      UnallocatedIsFree(n, t, RightHalf(r));
    }
  }

  lemma RangeAtTop(n: nat, r: Block)
    requires InRange(n, r) && r.order == n
    ensures r == Block(n, 0)
  {
  }

  /** A region that is not in the tree lies inside a block that is not split. */
  lemma {:induction false} Enclosing(n: nat, t: Tree, r: Block) returns (b: Block)
    requires WellFormed(n, t) && InRange(n, r) && r !in t
    ensures b in t && t[b] != Split && b.order > r.order
    ensures Start(b) <= Start(r) && End(r) <= End(b)
    decreases n - r.order
  {
    hide Start, End, LeftHalf, RightHalf, Parent, Buddy, Pow2;
    if r.order == n { RangeAtTop(n, r); }
    HalvesOfParent(r);
    HalfInRange(n, r);
    ParentExtent(r);
    if Parent(r) in t {
      assert Placed(n, t, Parent(r));
      return Parent(r);
    }
    b := Enclosing(n, t, Parent(r));
  }

  lemma InsideOverlaps(b: Block, r: Block)
    requires b.order >= 0 && r.order >= 0 && Start(b) <= Start(r) && End(r) <= End(b)
    ensures Overlap(b, r)
  {
  }

  /** An aligned region without an allocated frame lies inside a free block. */
  lemma CoveredByFree(n: nat, t: Tree, r: Block) returns (b: Block)
    requires WellFormed(n, t) && Tidy(t) && InRange(n, r) && Unallocated(t, r)
    ensures IsFree(t, b) && b.order >= r.order
  {
    hide Start, End, LeftHalf, RightHalf, Parent, Buddy, Pow2, Overlap;
    if r in t {
      UnallocatedIsFree(n, t, r);
      return r;
    }
    b := Enclosing(n, t, r);
    InsideOverlaps(b, r);
  }

  /** A free block has an unallocated region of every smaller order. */
  lemma {:induction false} FreeCovers(n: nat, t: Tree, b: Block, k: int) returns (r: Block)
    requires WellFormed(n, t) && InRange(n, b) && Unallocated(t, b) && 0 <= k <= b.order
    ensures InRange(n, r) && r.order == k && Unallocated(t, r)
    decreases b.order
  {
    hide Start, End, LeftHalf, RightHalf, Parent, Buddy, Pow2, Overlap;
    if k == b.order { return b; }
    HalvesOfParent(b);
    HalfInRange(n, b);
    HalfExtents(b);
    UnallocatedPart(t, b, LeftHalf(b));
    r := FreeCovers(n, t, LeftHalf(b), k);
  }

  /** There is a free block of order `k` or larger exactly when some aligned region of
      2^k frames has no allocated frame. */
  lemma FreeIffUnallocated(n: nat, t: Tree, k: int)
    requires WellFormed(n, t) && Tidy(t) && 0 <= k
    ensures (exists b :: IsFree(t, b) && b.order >= k)
            <==> (exists r :: InRange(n, r) && r.order == k && Unallocated(t, r))
  {
    hide Start, End, LeftHalf, RightHalf, Parent, Buddy, Pow2, Overlap;
    if b :| IsFree(t, b) && b.order >= k {
      assert Placed(n, t, b);
      forall c | IsUsed(t, c) && c.order >= 0 ensures !Overlap(c, b) { LeavesApart(n, t, c, b); }
      var r := FreeCovers(n, t, b, k);
    }
    if r :| InRange(n, r) && r.order == k && Unallocated(t, r) {
      var b := CoveredByFree(n, t, r);
    }
  }

  /** Every frame of the arena lies in a block that is free or handed out. */
  lemma FrameCovered(n: nat, t: Tree, x: int) returns (b: Block)
    requires WellFormed(n, t) && 0 <= x < Pow2(n)
    ensures b in t && t[b] != Split && b.order >= 0 && Start(b) <= x < End(b)
  {
    var r := Block(0, x);
    if r in t {
      assert Placed(n, t, r);
      b := r;
    } else {
      b := Enclosing(n, t, r);
    }
  }

  lemma {:induction false} RootSplit(n: nat, t: Tree, b: Block)
    requires WellFormed(n, t) && b in t && b != Block(n, 0)
    ensures IsSplit(t, Block(n, 0))
    decreases n - b.order
  {
    hide LeftHalf, RightHalf, Parent, Buddy, Pow2;
    assert Placed(n, t, b);
    if b.order == n { RangeAtTop(n, b); }
    HalvesOfParent(b);
    if Parent(b) != Block(n, 0) { RootSplit(n, t, Parent(b)); }
  }

  /** With nothing allocated the whole arena is one free block. */
  lemma NothingUsed(n: nat, t: Tree)
    requires WellFormed(n, t) && Tidy(t) && forall b :: !IsUsed(t, b)
    ensures t == map[Block(n, 0) := Free]
  {
    var root := Block(n, 0);
    UnallocatedIsFree(n, t, root);
    forall b | b in t ensures b == root {
      if b != root { RootSplit(n, t, b); }
    }
  }
}
