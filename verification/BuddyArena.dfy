/** A buddy tree with its free lists, and what requests do to it. */
module BuddyArena {
  import opened Arithmetic
  import opened BuddyTree
  import opened Lists
  import opened Powers

  /** `free[k]` lists the offsets of the free blocks of order `k`, in list order. */
  datatype Arena = Arena(n: nat, frameSize: int, tree: Tree, free: seq<seq<int>>)

  // Bytes of a block of 2^k frames.
  function Unit(frameSize: int, k: nat): (u: int)
    ensures frameSize > 0 ==> u > 0
  {
    frameSize * Pow2(k)
  }

  function Offset(frameSize: int, b: Block): int
    requires b.order >= 0
  {
    frameSize * Start(b)
  }

  /** The block of order `k` that holds the byte at `offset`. */
  function At(frameSize: int, offset: int, k: int): Block
    requires frameSize > 0 && k >= 0
  {
    Block(k, offset / Unit(frameSize, k))
  }

  // ----- Offsets ----------------------------------------------------------------------

  lemma UnitDoubles(f: int, k: nat)
    requires f > 0
    ensures Unit(f, k + 1) == 2 * Unit(f, k)
  {
    assert Pow2(k + 1) == 2 * Pow2(k);
  }

  lemma OffsetInUnits(f: int, b: Block)
    requires b.order >= 0
    ensures Offset(f, b) == b.index * Unit(f, b.order)
  {
    var i, p := b.index, Pow2(b.order);
    assert f * (i * p) == i * (f * p);
  }

  lemma AtOffset(f: int, b: Block)
    requires f > 0 && b.order >= 0
    ensures At(f, Offset(f, b), b.order) == b
  {
    OffsetInUnits(f, b);
    MultipleDivided(b.index, Unit(f, b.order));
  }

  lemma Regroup(x: int, y: int, z: int)
    ensures x * (y * z) == y * (x * z) && (x + 1) * y == x * y + y
  {
  }

  lemma AtParent(f: int, offset: int, k: nat)
    requires f > 0
    ensures At(f, offset, k + 1) == Parent(At(f, offset, k))
  {
    UnitDoubles(f, k);
    DividedTwice(offset, Unit(f, k), 2);
  }

  lemma HalfOffsets(f: int, b: Block)
    requires b.order >= 1
    ensures Offset(f, LeftHalf(b)) == Offset(f, b)
    ensures Offset(f, RightHalf(b)) == Offset(f, b) + Unit(f, b.order - 1)
  {
    HalfExtents(b);
    var s, p := Start(b), Pow2(b.order - 1);
    assert Start(RightHalf(b)) == s + p;
    assert f * (s + p) == f * s + f * p;
  }

  /** A block that starts at `offset` starts with its left half. */
  lemma AtHalves(f: int, offset: int, k: nat)
    requires f > 0 && k >= 1 && Offset(f, At(f, offset, k)) == offset
    ensures At(f, offset, k - 1) == LeftHalf(At(f, offset, k))
    ensures Offset(f, At(f, offset, k - 1)) == offset
    ensures Offset(f, RightHalf(At(f, offset, k))) == offset + Unit(f, k - 1)
  {
    hide Offset, Unit, LeftHalf, RightHalf, Parent, Buddy;
    var b := At(f, offset, k);
    HalvesOfParent(b);
    HalfOffsets(f, b);
    AtOffset(f, LeftHalf(b));
  }

  // ----- Free lists -------------------------------------------------------------------

  /** A listed offset is where a free block of the list's order starts. */
  ghost predicate Listed(a: Arena, k: int, offset: int)
    requires a.frameSize > 0 && k >= 0
  {
    IsFree(a.tree, At(a.frameSize, offset, k)) && Offset(a.frameSize, At(a.frameSize, offset, k)) == offset
  }

  ghost predicate ListOk(a: Arena, k: int)
    requires a.frameSize > 0 && 0 <= k < |a.free|
  {
    Distinct(a.free[k]) && forall offset | offset in a.free[k] :: Listed(a, k, offset)
  }

  /** A free block is on the list of its order. */
  ghost predicate Shelved(a: Arena, b: Block) {
    IsFree(a.tree, b) && 0 <= b.order < |a.free| ==> Offset(a.frameSize, b) in a.free[b.order]
  }

  ghost predicate ListsOk(a: Arena)
    requires a.frameSize > 0
  {
    && |a.free| == a.n + 1
    && (forall k {:trigger ListOk(a, k)} | 0 <= k <= a.n :: ListOk(a, k))
    && (forall b {:trigger Shelved(a, b)} :: Shelved(a, b))
  }

  ghost predicate Valid(a: Arena) {
    && a.n >= 0 && a.frameSize > 0
    && WellFormed(a.n, a.tree) && Tidy(a.tree)
    && ListsOk(a)
  }

  /** One free block leaves the tree's free blocks and its list. */
  lemma ListsShrink(a: Arena, a': Arena, k: int, offset: int)
    requires a.frameSize > 0 && ListsOk(a) && 0 <= k <= a.n && offset in a.free[k]
    requires a'.n == a.n && a'.frameSize == a.frameSize && |a'.free| == |a.free|
    requires forall i | 0 <= i <= a.n && i != k :: a'.free[i] == a.free[i]
    requires Distinct(a'.free[k]) && forall x :: x in a'.free[k] <==> x in a.free[k] && x != offset
    requires forall c :: IsFree(a'.tree, c) <==> IsFree(a.tree, c) && c != At(a.frameSize, offset, k)
    ensures ListsOk(a')
  {
    hide Offset, At, Distinct, IsFree;
    assert ListOk(a, k) && Listed(a, k, offset);
    forall i | 0 <= i <= a.n ensures ListOk(a', i) {
      assert ListOk(a, i);
      forall x | x in a'.free[i] ensures Listed(a', i, x) {
        assert Listed(a, i, x);
        AtOrder(a.frameSize, x, i);
        AtOrder(a.frameSize, offset, k);
      }
    }
    forall c ensures Shelved(a', c) {
      assert Shelved(a, c);
      if IsFree(a.tree, c) && c.order == k && Offset(a.frameSize, c) == offset { AtOffset(a.frameSize, c); }
    }
  }

  lemma AtOrder(f: int, offset: int, k: int)
    requires f > 0 && k >= 0
    ensures At(f, offset, k).order == k
  {
  }

  /** One more block is free and joins its list at the end. */
  lemma ListsGrow(a: Arena, a': Arena, b: Block)
    requires a.frameSize > 0 && ListsOk(a) && 0 <= b.order <= a.n && !IsFree(a.tree, b)
    requires a'.n == a.n && a'.frameSize == a.frameSize
    requires a'.free == a.free[b.order := a.free[b.order] + [Offset(a.frameSize, b)]]
    requires forall c :: IsFree(a'.tree, c) <==> IsFree(a.tree, c) || c == b
    ensures ListsOk(a')
  {
    hide Offset, At, IsFree;
    var offset, k := Offset(a.frameSize, b), b.order;
    AtOffset(a.frameSize, b);
    assert ListOk(a, k) && (offset in a.free[k] ==> Listed(a, k, offset));
    forall i | 0 <= i <= a.n ensures ListOk(a', i) {
      assert ListOk(a, i);
      if i == k { AppendDistinct(a.free[k], offset); }
      forall x | x in a'.free[i] ensures Listed(a', i, x) {
        if x in a.free[i] { assert Listed(a, i, x); }
      }
    }
    forall c ensures Shelved(a', c) {
      assert Shelved(a, c);
      if c == b { assert a'.free[k][|a.free[k]|] == offset; }
    }
  }

  // ----- Steps ------------------------------------------------------------------------

  /** The first free block of order `k` is taken. */
  function TakeFirst(a: Arena, k: int): Arena
    requires a.frameSize > 0 && 0 <= k < |a.free| && a.free[k] != []
  {
    a.(tree := a.tree[At(a.frameSize, a.free[k][0], k) := Used], free := a.free[k := a.free[k][1..]])
  }

  lemma TakeFirstValid(a: Arena, k: int)
    requires Valid(a) && 0 <= k <= a.n && a.free[k] != []
    ensures Listed(a, k, a.free[k][0])
    ensures Valid(TakeFirst(a, k))
    ensures IsUsed(TakeFirst(a, k).tree, At(a.frameSize, a.free[k][0], k))
  {
    hide Offset, At, WellFormed, Tidy, Distinct;
    var offset := a.free[k][0];
    var b, a' := At(a.frameSize, offset, k), TakeFirst(a, k);
    assert ListOk(a, k) && offset in a.free[k];
    assert Listed(a, k, offset);
    TailDistinct(a.free[k]);
    ListsShrink(a, a', k, offset);
    MarkWellFormed(a.n, a.tree, b, Used);
    MarkUsedTidy(a.tree, b);
  }

  /** The used block of order `m` at `offset` is cut, and its right half shelved. */
  function Divided(a: Arena, offset: int, m: int): Arena
    requires a.frameSize > 0 && 1 <= m <= |a.free|
  {
    a.(tree := Divide(a.tree, At(a.frameSize, offset, m)),
       free := a.free[m - 1 := a.free[m - 1] + [offset + Unit(a.frameSize, m - 1)]])
  }

  /** The block of order `m` that starts at `offset` is used. */
  ghost predicate InHand(a: Arena, offset: int, m: int)
    requires a.frameSize > 0
  {
    && 0 <= m <= a.n
    && IsUsed(a.tree, At(a.frameSize, offset, m))
    && Offset(a.frameSize, At(a.frameSize, offset, m)) == offset
  }

  lemma DividedValid(a: Arena, offset: int, m: int)
    requires Valid(a) && m >= 1 && InHand(a, offset, m)
    ensures Valid(Divided(a, offset, m)) && InHand(Divided(a, offset, m), offset, m - 1)
    ensures !IsUsed(a.tree, At(a.frameSize, offset, m - 1))
    ensures var t, t' := a.tree, Divided(a, offset, m).tree;
            forall c :: IsUsed(t', c)
              <==> (IsUsed(t, c) && c != At(a.frameSize, offset, m)) || c == At(a.frameSize, offset, m - 1)
  {
    hide Offset, At, WellFormed, Tidy, Distinct, Unit, LeftHalf, RightHalf, Parent, Buddy;
    var b, a' := At(a.frameSize, offset, m), Divided(a, offset, m);
    AtOrder(a.frameSize, offset, m);
    AtHalves(a.frameSize, offset, m);
    HalvesOfParent(b);
    HalfNotIn(a.n, a.tree, b);
    DivideWellFormed(a.n, a.tree, b);
    DivideTidy(a.n, a.tree, b);
    ListsGrow(a, a', RightHalf(b));
  }

  /** A used block and its free buddy, which leaves its list, become one used block. */
  function Joined(a: Arena, b: Block): Arena
    requires 0 <= b.order < |a.free|
    requires b.order >= 0 && Buddy(b).order >= 0 && Offset(a.frameSize, Buddy(b)) in a.free[b.order]
  {
    var s, buddy := a.free[b.order], Offset(a.frameSize, Buddy(b));
    a.(tree := Join(a.tree, Parent(b)), free := a.free[b.order := Without(s, buddy)])
  }

  lemma BuddyInPlace(n: nat, t: Tree, b: Block)
    requires WellFormed(n, t) && b in t && b.order < n
    ensures b.order >= 0 && Buddy(b).order == b.order && Buddy(b) in t && IsSplit(t, Parent(b)) && Parent(b).order <= n
  {
    HalvesOfParent(b);
    assert Placed(n, t, b) && Placed(n, t, Parent(b));
  }

  lemma FreeShelved(a: Arena, b: Block)
    requires Valid(a) && IsFree(a.tree, b)
    ensures 0 <= b.order < |a.free| && Offset(a.frameSize, b) in a.free[b.order]
  {
    assert Placed(a.n, a.tree, b) && Shelved(a, b);
  }

  lemma JoinedValid(a: Arena, b: Block)
    requires Valid(a) && IsUsed(a.tree, b) && b.order < a.n && IsFree(a.tree, Buddy(b))
    ensures 0 <= b.order < |a.free| && Buddy(b).order >= 0
    ensures Offset(a.frameSize, Buddy(b)) in a.free[b.order]
    ensures Valid(Joined(a, b)) && IsUsed(Joined(a, b).tree, Parent(b))
    ensures forall c :: IsUsed(Joined(a, b).tree, c) <==> (IsUsed(a.tree, c) && c != b) || c == Parent(b)
  {
    hide Offset, At, WellFormed, Tidy, Distinct, Unit, LeftHalf, RightHalf, Parent, Buddy;
    BuddyInPlace(a.n, a.tree, b);
    FreeShelved(a, Buddy(b));
    HalvesOfParent(b);
    var a', x := Joined(a, b), Offset(a.frameSize, Buddy(b));
    assert ListOk(a, b.order);
    WithoutElements(a.free[b.order], x);
    AtOffset(a.frameSize, Buddy(b));
    hide Without;
    ListsShrink(a, a', b.order, x);
    JoinWellFormed(a.n, a.tree, Parent(b));
    JoinTidy(a.n, a.tree, Parent(b));
  }

  /** A used block becomes free and joins its list. */
  function Returned(a: Arena, b: Block): Arena
    requires 0 <= b.order < |a.free|
  {
    a.(tree := a.tree[b := State.Free],
       free := a.free[b.order := a.free[b.order] + [Offset(a.frameSize, b)]])
  }

  lemma ReturnedValid(a: Arena, b: Block)
    requires Valid(a) && IsUsed(a.tree, b) && (b.order == a.n || !IsFree(a.tree, Buddy(b)))
    ensures 0 <= b.order < |a.free| && Valid(Returned(a, b))
    ensures forall c :: IsUsed(Returned(a, b).tree, c) <==> IsUsed(a.tree, c) && c != b
  {
    hide Offset, At, WellFormed, Tidy, Distinct, Unit, LeftHalf, RightHalf, Parent, Buddy;
    UsedInRange(a, b);
    MarkWellFormed(a.n, a.tree, b, State.Free);
    MarkFreeTidy(a.n, a.tree, b);
    ListsGrow(a, Returned(a, b), b);
  }

  lemma UsedInRange(a: Arena, b: Block)
    requires Valid(a) && IsUsed(a.tree, b)
    ensures 0 <= b.order <= a.n
  {
    assert Placed(a.n, a.tree, b);
  }

  // ----- Requests ---------------------------------------------------------------------

  /** The smallest order from `k` on with a free block; `n + 1` or more if there is none. */
  function FirstNonEmpty(a: Arena, k: nat): (i: nat)
    requires a.n >= 0 && |a.free| == a.n + 1
    ensures k <= i && (i <= a.n ==> a.free[i] != [])
    ensures forall j | k <= j < i && j <= a.n :: a.free[j] == []
    decreases a.n + 1 - k
  {
    if k > a.n || a.free[k] != [] then k else FirstNonEmpty(a, k + 1)
  }

  /** Cutting the used block of order `m` at `offset` down to order `k`. */
  ghost function Carved(a: Arena, offset: int, m: int, k: int): (a': Arena)
    requires Valid(a) && 0 <= k <= m && InHand(a, offset, m)
    ensures Valid(a') && a'.n == a.n && a'.frameSize == a.frameSize && InHand(a', offset, k)
    decreases m
  {
    if m == k then a
    else
      DividedValid(a, offset, m);
      Carved(Divided(a, offset, m), offset, m - 1, k)
  }

  datatype Grant = Exhausted | Granted(arena: Arena, offset: int)

  /** A request for 2^k frames: the first block on the first list that has one, cut down
      to size. */
  ghost function Get(a: Arena, k: nat): (r: Grant)
    requires Valid(a)
    ensures r.Granted? ==> Valid(r.arena) && InHand(r.arena, r.offset, k)
                           && r.arena.n == a.n && r.arena.frameSize == a.frameSize
  {
    var i := FirstNonEmpty(a, k);
    if i > a.n then Exhausted
    else
      TakeFirstValid(a, i);
      var offset := a.free[i][0];
      Granted(Carved(TakeFirst(a, i), offset, i, k), offset)
  }

  /** Giving a used block back: it is joined with its buddy as long as that is free. */
  ghost function Released(a: Arena, b: Block): (a': Arena)
    requires Valid(a) && IsUsed(a.tree, b)
    ensures Valid(a') && a'.n == a.n && a'.frameSize == a.frameSize
    decreases a.n - b.order
  {
    UsedInRange(a, b);
    if b.order < a.n && IsFree(a.tree, Buddy(b)) then
      JoinedValid(a, b);
      Released(Joined(a, b), Parent(b))
    else
      ReturnedValid(a, b);
      Returned(a, b)
  }

  lemma {:induction false} CarvedUsed(a: Arena, offset: int, m: int, k: int)
    requires Valid(a) && 0 <= k <= m && InHand(a, offset, m)
    ensures forall c :: IsUsed(Carved(a, offset, m, k).tree, c)
              <==> (IsUsed(a.tree, c) && c != At(a.frameSize, offset, m)) || c == At(a.frameSize, offset, k)
    decreases m
  {
    hide At, Divided, IsUsed, WellFormed, Tidy;
    if m > k {
      DividedValid(a, offset, m);
      CarvedUsed(Divided(a, offset, m), offset, m - 1, k);
    }
  }

  /** A request is granted exactly when some aligned region of its size has no frame in
      use. */
  lemma GrantedIffRoom(a: Arena, k: nat)
    requires Valid(a)
    ensures Get(a, k).Granted?
            <==> exists r :: InRange(a.n, r) && r.order == k && Unallocated(a.tree, r)
  {
    hide Offset, At, WellFormed, Tidy, Distinct, Unit, LeftHalf, RightHalf, Parent, Buddy, InRange, Overlap;
    FreeIffUnallocated(a.n, a.tree, k);
    var i := FirstNonEmpty(a, k);
    if i <= a.n {
      assert ListOk(a, i) && a.free[i][0] in a.free[i];
      var b := At(a.frameSize, a.free[i][0], i);
      AtOrder(a.frameSize, a.free[i][0], i);
      assert Listed(a, i, a.free[i][0]);
      assert IsFree(a.tree, b) && b.order >= k;
    } else if b :| IsFree(a.tree, b) && b.order >= k {
      FreeShelved(a, b);
    }
  }

  /** A grant hands out one block that was not in use, of the order asked for, and leaves
      every other block in use as it is. */
  lemma GrantEffect(a: Arena, k: nat)
    requires Valid(a) && Get(a, k).Granted?
    ensures var Granted(a', offset) := Get(a, k);
            var b := At(a.frameSize, offset, k);
            && b.order == k && Offset(a.frameSize, b) == offset && InRange(a.n, b)
            && !IsUsed(a.tree, b)
            && forall c :: IsUsed(a'.tree, c) <==> IsUsed(a.tree, c) || c == b
  {
    hide Offset, At, WellFormed, Tidy, Distinct, Unit, LeftHalf, RightHalf, Parent, Buddy, Overlap;
    var i := FirstNonEmpty(a, k);
    var offset := a.free[i][0];
    TakeFirstValid(a, i);
    CarvedUsed(TakeFirst(a, i), offset, i, k);
    var b := At(a.frameSize, offset, k);
    AtOrder(a.frameSize, offset, k);
    AtOrder(a.frameSize, offset, i);
    HandInTree(Get(a, k).arena, offset, k);
    if k < i && IsUsed(a.tree, b) { FreeAndUsedApart(a, At(a.frameSize, offset, i), b); }
  }

  lemma HandInTree(a: Arena, offset: int, k: int)
    requires Valid(a) && InHand(a, offset, k)
    ensures InRange(a.n, At(a.frameSize, offset, k))
  {
    assert Placed(a.n, a.tree, At(a.frameSize, offset, k));
  }

  /** Two blocks with the same offset, one free and one used, cannot be. */
  lemma FreeAndUsedApart(a: Arena, b: Block, c: Block)
    requires Valid(a) && IsFree(a.tree, b) && IsUsed(a.tree, c) && b.order >= 0 && c.order >= 0
    ensures Offset(a.frameSize, b) != Offset(a.frameSize, c)
  {
    LeavesApart(a.n, a.tree, b, c);
    if Offset(a.frameSize, b) == Offset(a.frameSize, c) { SameOffsetOverlap(a.frameSize, b, c); }
  }

  lemma SameOffsetOverlap(f: int, b: Block, c: Block)
    requires f > 0 && b.order >= 0 && c.order >= 0 && Offset(f, b) == Offset(f, c)
    ensures Overlap(b, c)
  {
    var x, y := Start(b), Start(c);
    Difference(f, x, y);
    Multiple(f, x - y);
    hide *;
  }

  lemma Difference(f: int, x: int, y: int)
    ensures (x - y) * f == f * x - f * y
  {
  }

  lemma {:induction false} ReleasedEffect(a: Arena, b: Block)
    requires Valid(a) && IsUsed(a.tree, b)
    ensures forall c :: IsUsed(Released(a, b).tree, c) <==> IsUsed(a.tree, c) && c != b
    decreases a.n - b.order
  {
    UsedInRange(a, b);
    if b.order < a.n && IsFree(a.tree, Buddy(b)) {
      JoinedValid(a, b);
      ParentNotUsed(a, b);
      ReleasedEffect(Joined(a, b), Parent(b));
    } else {
      ReturnedValid(a, b);
    }
  }

  lemma ParentNotUsed(a: Arena, b: Block)
    requires Valid(a) && IsUsed(a.tree, b) && b.order < a.n
    ensures !IsUsed(a.tree, Parent(b))
  {
    BuddyInPlace(a.n, a.tree, b);
  }

  // ----- The free lists ---------------------------------------------------------------

  /** Cutting a block down puts its right halves on the lists, one of each order. */
  lemma {:induction false} CarvedLists(a: Arena, offset: int, m: int, k: int)
    requires Valid(a) && 0 <= k <= m && InHand(a, offset, m)
    ensures var f := Carved(a, offset, m, k).free;
            && |f| == a.n + 1 && |a.free| == a.n + 1
            && forall j | 0 <= j <= a.n ::
                 f[j] == a.free[j] + if k <= j < m then [offset + a.frameSize * Pow2(j)] else []
    decreases m
  {
    hide At, Divide, IsUsed, WellFormed, Tidy, Listed, Shelved, Distinct, Pow2, Offset;
    if m > k {
      DividedValid(a, offset, m);
      CarvedLists(Divided(a, offset, m), offset, m - 1, k);
    }
  }

  /** A request takes the first block of the least order that has any from its list; the
      address is where that block starts, and what is cut off goes to the lists that had
      none. */
  lemma GrantsInTurn(a: Arena, k: nat) returns (m: nat)
    requires Valid(a) && Get(a, k).Granted?
    ensures k <= m <= a.n && |a.free| == a.n + 1 && a.free[m] != [] && forall j | k <= j < m :: a.free[j] == []
    ensures Get(a, k).offset == a.free[m][0]
    ensures var f := Get(a, k).arena.free;
            && |f| == a.n + 1 && f[m] == a.free[m][1..]
            && (forall j | k <= j < m :: f[j] == [a.free[m][0] + a.frameSize * Pow2(j)])
            && (forall j | 0 <= j <= a.n && (j < k || j > m) :: f[j] == a.free[j])
  {
    hide At, IsUsed, WellFormed, Tidy, Shelved, Distinct, Pow2, Offset, ListOk;
    m := FirstNonEmpty(a, k);
    TakeFirstValid(a, m);
    CarvedLists(TakeFirst(a, m), a.free[m][0], m, k);
  }

  /** The block of `d` orders more that holds the block. */
  function Up(b: Block, d: nat): Block
    decreases d
  {
    if d == 0 then b else Up(Parent(b), d - 1)
  }

  /** On the way up from `b` the buddy of order `j` was free, and leaves its list. */
  ghost predicate BuddyTaken(a: Arena, a': Arena, b: Block, j: int)
    requires 0 <= b.order <= j < |a.free| && j < |a'.free|
  {
    var c := Buddy(Up(b, j - b.order));
    && IsFree(a.tree, c) && c.order == j
    && Offset(a.frameSize, c) in a.free[j] && a'.free[j] == Without(a.free[j], Offset(a.frameSize, c))
  }

  /** What a release does when the block has been joined up to order `m`: the buddies on the
      way were free and leave their lists, the next one is not, and the whole goes to the end of
      its list. */
  ghost predicate GoesBack(a: Arena, a': Arena, b: Block, m: int) {
    && 0 <= b.order <= m <= a.n && |a.free| == a.n + 1 == |a'.free|
    && (forall j {:trigger BuddyTaken(a, a', b, j)} | b.order <= j < m :: BuddyTaken(a, a', b, j))
    && (var c := Up(b, m - b.order);
        && c.order == m && (m < a.n ==> !IsFree(a.tree, Buddy(c)))
        && a'.free[m] == a.free[m] + [Offset(a.frameSize, c)])
    && (forall j | 0 <= j <= a.n && (j < b.order || j > m) :: a'.free[j] == a.free[j])
  }

  /** A released block is joined with its buddies as far up as these are free, and no
      further. */
  lemma {:induction false} ReleasedInTurn(a: Arena, b: Block) returns (m: int)
    requires Valid(a) && IsUsed(a.tree, b)
    ensures GoesBack(a, Released(a, b), b, m)
    decreases a.n - b.order
  {
    hide At, WellFormed, Tidy, Listed, Shelved, Distinct, Pow2, Offset, ListOk, Parent, Buddy, Join, Without;
    UsedInRange(a, b);
    if b.order < a.n && IsFree(a.tree, Buddy(b)) {
      JoinedValid(a, b);
      BuddyInPlace(a.n, a.tree, b);
      HalvesOfParent(b);
      m := ReleasedInTurn(Joined(a, b), Parent(b));
      JoinedGoesBack(a, b, Released(a, b), m);
    } else {
      ReturnedValid(a, b);
      m := b.order;
    }
  }

  lemma JoinedGoesBack(a: Arena, b: Block, a': Arena, m: int)
    requires 0 <= b.order < a.n && IsFree(a.tree, Buddy(b)) && |a.free| == a.n + 1
    requires Buddy(b).order == b.order && Parent(b).order == b.order + 1
    requires Offset(a.frameSize, Buddy(b)) in a.free[b.order]
    requires GoesBack(Joined(a, b), a', Parent(b), m)
    ensures GoesBack(a, a', b, m)
  {
    hide Offset, Buddy, Parent, Without, LeftHalf, RightHalf;
    var l, p := Joined(a, b), Parent(b);
    HalvesOfParent(b);
    assert a'.free[b.order] == l.free[b.order];
    forall j | b.order <= j < m ensures BuddyTaken(a, a', b, j) {
      if j > b.order {
        assert Up(b, j - b.order) == Up(p, j - p.order);
        assert BuddyTaken(l, a', p, j);
      }
    }
    var c := Up(p, m - p.order);
    assert Up(b, m - b.order) == c;
    HalvesOfParent(c);
    HalvesOfParent(Parent(c));
    HalvesOfParent(p);
  }

  // ----- Runs -------------------------------------------------------------------------

  datatype Request = Allocate(order: nat) | Release(offset: int)

  /** An arena together with the offsets its client holds and the orders it asked for. */
  datatype Session = Session(arena: Arena, held: map<int, int>)

  ghost predicate HeldOk(s: Session, offset: int)
    requires s.arena.frameSize > 0 && offset in s.held
  {
    InHand(s.arena, offset, s.held[offset])
  }

  ghost predicate UsedOk(s: Session, b: Block)
    requires s.arena.frameSize > 0
  {
    IsUsed(s.arena.tree, b) && b.order >= 0 ==>
      Offset(s.arena.frameSize, b) in s.held && s.held[Offset(s.arena.frameSize, b)] == b.order
  }

  /** The client holds exactly the blocks in use. */
  ghost predicate Sound(s: Session) {
    && Valid(s.arena)
    && (forall offset {:trigger HeldOk(s, offset)} | offset in s.held :: HeldOk(s, offset))
    && (forall b {:trigger UsedOk(s, b)} :: UsedOk(s, b))
  }

  ghost predicate Legal(s: Session, r: Request) {
    r.Release? ==> r.offset in s.held
  }

  ghost function Serve(s: Session, r: Request): Session
    requires Sound(s) && Legal(s, r)
  {
    match r
    case Allocate(k) =>
      var g := Get(s.arena, k);
      if g.Exhausted? then s else Session(g.arena, s.held[g.offset := k])
    case Release(offset) =>
      assert HeldOk(s, offset);
      Session(Released(s.arena, At(s.arena.frameSize, offset, s.held[offset])), s.held - {offset})
  }

  lemma AllocateSound(s: Session, k: nat)
    requires Sound(s) && Get(s.arena, k).Granted?
    ensures Get(s.arena, k).offset !in s.held
    ensures Sound(Serve(s, Allocate(k)))
  {
    hide Offset, At, WellFormed, Tidy, Get, ListsOk, IsUsed;
    var a, f := s.arena, s.arena.frameSize;
    var Granted(a', offset) := Get(a, k);
    var b, s' := At(f, offset, k), Serve(s, Allocate(k));
    GrantEffect(a, k);
    if offset in s.held {
      assert HeldOk(s, offset);
      AtOrder(f, offset, s.held[offset]);
      UsedOffsetsUnique(a', b, At(f, offset, s.held[offset]));
    }
    forall x | x in s'.held ensures HeldOk(s', x) {
      if x != offset { assert HeldOk(s, x); }
    }
    forall c ensures UsedOk(s', c) {
      assert UsedOk(s, c);
      if IsUsed(a'.tree, c) && c.order >= 0 && Offset(f, c) == offset { UsedOffsetsUnique(a', b, c); }
    }
  }

  lemma UsedOffsetsUnique(a: Arena, b: Block, c: Block)
    requires Valid(a) && IsUsed(a.tree, b) && IsUsed(a.tree, c)
    requires b.order >= 0 && c.order >= 0 && Offset(a.frameSize, b) == Offset(a.frameSize, c)
    ensures b == c
  {
    if b != c {
      LeavesApart(a.n, a.tree, b, c);
      SameOffsetOverlap(a.frameSize, b, c);
    }
  }

  lemma ReleaseSound(s: Session, offset: int)
    requires Sound(s) && offset in s.held
    ensures Sound(Serve(s, Release(offset)))
  {
    hide Offset, At, WellFormed, Tidy, Released, ListsOk, IsUsed;
    assert HeldOk(s, offset);
    var a, f := s.arena, s.arena.frameSize;
    var b, s' := At(f, offset, s.held[offset]), Serve(s, Release(offset));
    AtOrder(f, offset, s.held[offset]);
    ReleasedEffect(a, b);
    forall x | x in s'.held ensures HeldOk(s', x) {
      assert HeldOk(s, x);
    }
    forall c ensures UsedOk(s', c) {
      assert UsedOk(s, c);
      if IsUsed(s'.arena.tree, c) && c.order >= 0 && Offset(f, c) == offset { UsedOffsetsUnique(a, b, c); }
    }
  }

  ghost predicate Run(s: Session, rs: seq<Request>, t: Session)
    decreases |rs|
  {
    if rs == [] then s == t
    else Sound(s) && Legal(s, rs[0]) && Run(Serve(s, rs[0]), rs[1..], t)
  }

  lemma {:induction false} RunSound(s: Session, rs: seq<Request>, t: Session)
    requires Sound(s) && Run(s, rs, t)
    ensures Sound(t) && t.arena.n == s.arena.n && t.arena.frameSize == s.arena.frameSize
    decreases |rs|
  {
    hide WellFormed, Tidy, ListsOk, InHand;
    if rs != [] {
      match rs[0] {
        case Allocate(k) =>
          if Get(s.arena, k).Granted? { AllocateSound(s, k); }
        case Release(offset) => ReleaseSound(s, offset);
      }
      RunSound(Serve(s, rs[0]), rs[1..], t);
    }
  }

  /** The arena as it is built: one free block. */
  function Whole(n: nat, frameSize: int): Arena {
    Arena(n, frameSize, map[Block(n, 0) := State.Free], seq(n + 1, i => if i == n then [0] else []))
  }

  lemma WholeSound(n: nat, f: int)
    requires f > 0
    ensures Sound(Session(Whole(n, f), map[]))
  {
    hide Parent, LeftHalf, RightHalf, Buddy, Unit;
    var a, root := Whole(n, f), Block(n, 0);
    assert WellFormed(n, a.tree) by { assert Placed(n, a.tree, root); }
    assert Offset(f, root) == 0;
    AtOffset(f, root);
    hide Start, At, Offset;
    assert Listed(a, n, 0) && a.free[n] == [0];
    forall k | 0 <= k <= n ensures ListOk(a, k) {
      forall offset | offset in a.free[k] ensures Listed(a, k, offset) {
        assert k == n && offset == 0;
      }
    }
    forall b ensures Shelved(a, b) {}
    forall b ensures UsedOk(Session(a, map[]), b) {}
  }

  /** After any run the blocks the client holds lie inside the arena, start on a multiple
      of their size, and do not overlap. */
  lemma HeldBlocksApart(n: nat, f: int, rs: seq<Request>, t: Session)
    requires f > 0 && Run(Session(Whole(n, f), map[]), rs, t)
    ensures forall x | x in t.held ::
              0 <= t.held[x] <= n && x % Unit(f, t.held[x]) == 0 && 0 <= x && x + Unit(f, t.held[x]) <= Unit(f, n)
    ensures forall x, y | x in t.held && y in t.held && x < y :: x + Unit(f, t.held[x]) <= y
  {
    WholeSound(n, f);
    RunSound(Session(Whole(n, f), map[]), rs, t);
    forall x | x in t.held
      ensures 0 <= t.held[x] <= n && x % Unit(f, t.held[x]) == 0 && 0 <= x && x + Unit(f, t.held[x]) <= Unit(f, n)
    {
      assert HeldOk(t, x);
      BlockExtent(t.arena, At(f, x, t.held[x]));
    }
    forall x, y | x in t.held && y in t.held && x < y ensures x + Unit(f, t.held[x]) <= y {
      assert HeldOk(t, x) && HeldOk(t, y);
      BlocksInOrder(t.arena, At(f, x, t.held[x]), At(f, y, t.held[y]));
    }
  }

  lemma BlockExtent(a: Arena, b: Block)
    requires Valid(a) && IsUsed(a.tree, b)
    ensures 0 <= b.order <= a.n
    ensures var x, u := Offset(a.frameSize, b), Unit(a.frameSize, b.order);
            0 <= x && u > 0 && x % u == 0 && x + u <= Unit(a.frameSize, a.n)
  {
    assert Placed(a.n, a.tree, b);
    OffsetInUnits(a.frameSize, b);
    RangeExtent(a.frameSize, b.index, b.order, a.n);
    MultipleDivided(b.index, Unit(a.frameSize, b.order));
    MultipleMonotone(0, b.index, Unit(a.frameSize, b.order));
  }

  lemma RangeExtent(f: int, i: int, k: nat, n: nat)
    requires f > 0 && k <= n && 0 <= i < Pow2(n - k)
    ensures i * Unit(f, k) + Unit(f, k) <= Unit(f, n)
  {
    PowSum(n - k, k);
    var u, c := Unit(f, k), Pow2(n - k);
    Regroup(c, f, Pow2(k));
    Regroup(i, u, 0);
    MultipleMonotone(i + 1, c, u);
  }

  lemma BlocksInOrder(a: Arena, b: Block, c: Block)
    requires Valid(a) && IsUsed(a.tree, b) && IsUsed(a.tree, c) && b.order >= 0 && c.order >= 0
    requires Offset(a.frameSize, b) < Offset(a.frameSize, c)
    ensures Offset(a.frameSize, b) + Unit(a.frameSize, b.order) <= Offset(a.frameSize, c)
  {
    var f, x, y, e := a.frameSize, Start(b), Start(c), End(b);
    LeavesApart(a.n, a.tree, b, c);
    if y <= x { MultipleMonotone(y, x, f); }
    assert e <= y;
    MultipleMonotone(e, y, f);
    Sum(f, x, Pow2(b.order));
  }

  lemma Sum(f: int, x: int, y: int)
    ensures f * (x + y) == f * x + f * y
  {
  }

  /** A client that has given everything back leaves the arena as it was built. */
  lemma AllReleased(n: nat, f: int, rs: seq<Request>, t: Session)
    requires f > 0 && Run(Session(Whole(n, f), map[]), rs, t) && t.held == map[]
    ensures t.arena == Whole(n, f)
  {
    WholeSound(n, f);
    RunSound(Session(Whole(n, f), map[]), rs, t);
    var a := t.arena;
    forall b ensures !IsUsed(a.tree, b) {
      assert UsedOk(t, b);
      if IsUsed(a.tree, b) { UsedInRange(a, b); }
    }
    NothingUsed(n, a.tree);
    OnlyRootListed(a);
  }

  lemma ListedIsRoot(a: Arena, k: nat, i: nat)
    requires Valid(a) && a.tree == map[Block(a.n, 0) := State.Free] && k <= a.n && i < |a.free[k]|
    ensures k == a.n && a.free[k][i] == 0
  {
    hide Parent, LeftHalf, RightHalf, Buddy, WellFormed, Tidy, At;
    assert ListOk(a, k) && a.free[k][i] in a.free[k];
    assert Listed(a, k, a.free[k][i]);
    assert Offset(a.frameSize, Block(a.n, 0)) == 0;
    AtOrder(a.frameSize, a.free[k][i], k);
  }

  lemma OnlyRootListed(a: Arena)
    requires Valid(a) && a.tree == map[Block(a.n, 0) := State.Free]
    ensures a.free == Whole(a.n, a.frameSize).free
  {
    hide WellFormed, Tidy, Listed;
    FreeShelved(a, Block(a.n, 0));
    assert Offset(a.frameSize, Block(a.n, 0)) == 0;
    forall k | 0 <= k <= a.n ensures a.free[k] == if k == a.n then [0] else [] {
      assert ListOk(a, k);
      if |a.free[k]| > 0 { ListedIsRoot(a, k, 0); }
      if |a.free[k]| > 1 {
        ListedIsRoot(a, k, 1);
        assert false;
      }
    }
  }
}
