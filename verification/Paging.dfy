/** Mapping a range of addresses: four nested loops over tables that are written in place. */
module Paging {
  import opened Arithmetic
  import opened PageRuns
  import opened PageTables
  import opened Wrappers

  const KERNEL_VIRTUAL_OFFSET := 0xFFFF_FFFF_8000_0000
  const TWO64 := 0x1_0000_0000_0000_0000
  const REGION := 0x1_0000_0000_0000 // bytes that one top-level table maps
  const PML4_SIZE := 0x80_0000_0000
  const PDPT_SIZE := 0x4000_0000
  const PDT_SIZE := 0x20_0000

  // The block of `b` bytes that holds an address, its offset in a table, and its start.
  function BlockOf(addr: int, b: int): int
    requires b > 0
  {
    addr / b
  }

  function OffsetIn(addr: int, b: int): int
    requires b > 0
  {
    BlockOf(addr, b) % 512
  }

  function BlockStart(addr: int, b: int): int
    requires b > 0
  {
    BlockOf(addr, b) * b
  }

  // ----- Ranges of addresses ----------------------------------------------------------

  /** How far a loop over blocks of `b` bytes has come after `delta` of them. */
  ghost function Reached(start: int, end: int, b: int, delta: int): int
    requires b > 0
  {
    if delta <= 0 then start else Min(end, BlockStart(start, b) + delta * b)
  }

  predicate IsSize(b: int) { b == FOUR_KB || b == PDT_SIZE || b == PDPT_SIZE || b == PML4_SIZE }

  /** The part of a range that lies in block `start / b + delta` of `b` bytes. */
  lemma Piece(start: int, end: int, b: int, delta: int)
    requires IsSize(b) && 0 <= start < end && start % FOUR_KB == 0 && end % FOUR_KB == 0
    requires 0 <= delta <= BlockOf(end - 1, b) - BlockOf(start, b)
    ensures var s0 := BlockStart(start, b);
            var lo, hi := Max(start, s0 + delta * b), Min(end, s0 + (delta + 1) * b);
            && start <= lo < hi <= end && lo % FOUR_KB == 0 && hi % FOUR_KB == 0
            && BlockOf(lo, b) == BlockOf(start, b) + delta == BlockOf(hi - 1, b)
            && lo == Reached(start, end, b, delta) && hi == Reached(start, end, b, delta + 1)
            && (delta == BlockOf(end - 1, b) - BlockOf(start, b) ==> hi == end)
  {
    hide BlockOf;
    var q, l := BlockOf(start, b), BlockOf(end - 1, b);
    Scale(q, delta, b);
    BlockBounds(start, b);
    BlockBounds(end - 1, b);
    if delta > 0 { MultipleMonotone(q + 1, q + delta, b); }
    if delta == l - q { MultipleMonotone(l + 1, q + delta + 1, b); }
    PieceAt(start, end, b, q + delta);
  }

  lemma PieceAt(start: int, end: int, b: int, q: int)
    requires IsSize(b) && 0 <= start < end && start % FOUR_KB == 0 && end % FOUR_KB == 0
    requires BlockOf(start, b) <= q <= BlockOf(end - 1, b)
    ensures var lo, hi := Max(start, q * b), Min(end, q * b + b);
            && start <= lo < hi <= end && lo % FOUR_KB == 0 && hi % FOUR_KB == 0
            && BlockOf(lo, b) == q == BlockOf(hi - 1, b)
  {
    hide BlockOf;
    BlockBounds(start, b);
    BlockBounds(end - 1, b);
    MultipleMonotone(BlockOf(start, b), q, b);
    MultipleMonotone(q, BlockOf(end - 1, b), b);
    Scale(q, 0, b);
    WholePages(q, b);
    WholePages(q + 1, b);
    var lo, hi := Max(start, q * b), Min(end, q * b + b);
    assert q * b <= lo < hi <= q * b + b;
    InBlock(lo, b, q);
    InBlock(hi - 1, b, q);
  }

  lemma BlockBounds(x: int, b: int)
    requires b > 0
    ensures BlockOf(x, b) * b <= x < BlockOf(x, b) * b + b
  {
    Division(x, b);
  }

  lemma InBlock(x: int, b: int, q: int)
    requires b > 0 && q * b <= x < q * b + b
    ensures BlockOf(x, b) == q
  {
    QuotientIs(x, b, q, x - q * b);
  }

  lemma Scale(q: int, delta: int, b: int)
    ensures q * b + delta * b == (q + delta) * b && q * b + (delta + 1) * b == (q + delta + 1) * b
    ensures (q + delta + 1) * b == (q + delta) * b + b && (q + 1) * b == q * b + b
  {
  }

  lemma WholePages(q: int, b: int)
    requires IsSize(b)
    ensures (q * b) % FOUR_KB == 0
  {
    var c := if b == FOUR_KB then 1 else if b == PDT_SIZE then 0x200
             else if b == PDPT_SIZE then 0x4_0000 else 0x800_0000;
    assert q * b == (q * c) * FOUR_KB;
    MultipleDivided(q * c, FOUR_KB);
  }

  /** The index the walk uses is the one the loops use. */
  lemma PageIndex(a: int)
    requires 0 <= a
    ensures Idx(Page(a), 1) == (a / FOUR_KB) % 512
    ensures Idx(Page(a), 2) == (a / PDT_SIZE) % 512
    ensures Idx(Page(a), 3) == (a / PDPT_SIZE) % 512
    ensures Idx(Page(a), 4) == (a / PML4_SIZE) % 512
  {
    PageIndexIn(a, 1, 0x10_0000_0000);
    PageIndexIn(a, 0x200, 0x800_0000);
    PageIndexIn(a, 0x4_0000, 0x4_0000);
    PageIndexIn(a, 0x800_0000, 0x200);
  }

  // The pages of the address space are `c` blocks of `u` pages.
  lemma PageIndexIn(a: int, u: int, c: int)
    requires u > 0 && c > 0 && u * c == PAGES && c % 512 == 0
    ensures (Page(a) / u) % 512 == (a / (FOUR_KB * u)) % 512
  {
    var p := a / FOUR_KB;
    var g, x := p / PAGES, p / u;
    DividedTwice(a, FOUR_KB, u);
    Division(p, PAGES);
    Associates(u, c, g);
    AddMultiple(Page(a), u, c * g);
    Associates(512, c / 512, g);
    SameRemainder(x, Page(a) / u, 512, (c / 512) * g);
  }

  /** A page later in the range is that much later in the address space. */
  lemma PageShift(start: int, x: int)
    requires 0 <= start <= x && start % FOUR_KB == 0 && start / REGION == x / REGION
    ensures Page(x) == Page(start) + (x - start) / FOUR_KB
  {
    var a, b, g := start / FOUR_KB, x / FOUR_KB, start / REGION;
    assert b == a + (x - start) / FOUR_KB;
    RegionPages(start);
    RegionPages(x);
  }

  lemma RegionPages(x: int)
    requires x >= 0
    ensures x / FOUR_KB == PAGES * (x / REGION) + Page(x)
  {
    assert (x / FOUR_KB) / PAGES == x / REGION;
  }

  /** Addresses with the same quotient have pages with the same quotient. */
  lemma SameBlockPages(x: int, y: int, l: int)
    requires 1 <= l <= 3 && 0 <= x && 0 <= y && x / (FOUR_KB * Span(l)) == y / (FOUR_KB * Span(l))
    ensures Page(x) / Span(l) == Page(y) / Span(l) && x / REGION == y / REGION
  {
    BlockQuotient(x, l);
    BlockQuotient(y, l);
  }

  lemma BlockQuotient(x: int, l: int)
    requires 1 <= l <= 3 && 0 <= x
    ensures var q := x / (FOUR_KB * Span(l));
            && (l == 1 ==> x / REGION == q / 0x800_0000 && Page(x) / Span(l) == q % 0x800_0000)
            && (l == 2 ==> x / REGION == q / 0x4_0000 && Page(x) / Span(l) == q % 0x4_0000)
            && (l == 3 ==> x / REGION == q / 0x200 && Page(x) / Span(l) == q % 0x200)
  {
    RegionPages(x);
    var p, g := Page(x), x / REGION;
    if l == 1 {
      assert x / 0x20_0000 == 0x800_0000 * g + p / 0x200;
    } else if l == 2 {
      assert x / 0x4000_0000 == 0x4_0000 * g + p / 0x4_0000;
    } else {
      assert x / 0x80_0000_0000 == 0x200 * g + p / 0x800_0000;
    }
  }

  // ----- Page tables ------------------------------------------------------------------

  ghost predicate SameLeaves(s: Space, s': Space) {
    forall r, p :: Leaf(s', r, p) == Leaf(s, r, p)
  }

  lemma NextNode(s: Space, r: int, p: int, l: int)
    requires 2 <= l <= 4 && Node(s, r, p, l).Some?
    requires var t := Node(s, r, p, l).value;
             t in s.mem && |s.mem[t]| == 512 && Present(s.mem[t][Idx(p, l)])
    ensures Node(s, r, p, l - 1) == Some(BaseAddress(s.mem[Node(s, r, p, l).value][Idx(p, l)]))
  {
  }

  /** The shared entry, once there is one, is in every top-level table. */
  ghost predicate SharedWith(s: Space, shared: seq<(int, int)>) {
    var e := if shared == [] then EMPTY_ENTRY else shared[0].1;
    && |shared| <= 1
    && (forall x | x in shared :: x.0 == 511 && Present(x.1))
    && (forall r | IsRoot(s, r) :: s.mem[r][511] == e)
    && (Present(e) ==> exists r :: IsRoot(s, r))
  }

  /** The walk for page `q` goes through entry `i` of table `t` at level `l`. */
  ghost predicate OnWalk(s: Space, root: int, q: int, l: int, t: int, i: int) {
    2 <= l <= 4 && 0 <= q < PAGES && Node(s, root, q, l) == Some(t) && Idx(q, l) == i
  }

  lemma StillOnWalk(s: Space, s': Space, root: int, q: int, l: int, t: int, i: int)
    requires OnWalk(s, root, q, l, t, i) && Keeps(s, s')
    ensures OnWalk(s', root, q, l, t, i)
  {
    hide Node, Idx, IsRoot;
    assert Kept(s, s', root, q, l);
  }

  class PageTable {
    var mem: map<int, seq<int>>
    var nextTable: int
    var sharedKernelPml4eEntries: seq<(int, int)>
    ghost var space: Space

    /** Memory for tables is handed out from `nextTable` on. */
    predicate TablesBelow()
      reads this
    {
      0 <= nextTable <= MEMORY && nextTable % FOUR_KB == 0 && forall t | t in mem :: t < nextTable
    }

    ghost predicate Valid()
      reads this
    {
      && SpaceOk(space) && space.mem == mem
      && TablesBelow()
      && SharedWith(space, sharedKernelPml4eEntries)
    }

    constructor ()
      ensures Valid() && mem == map[] && sharedKernelPml4eEntries == []
      ensures nextTable == 0 && forall r :: !IsRoot(space, r)
    {
      mem, nextTable, sharedKernelPml4eEntries := map[], 0, [];
      space := Space(map[], map[], map[]);
    }

    /** A table that is not used yet, none of whose entries is present.  There must be memory
        for it. */
    method CreateNewTable() returns (table: int)
      requires TablesBelow() && nextTable + FOUR_KB <= MEMORY
      modifies this`mem, this`nextTable
      ensures IsBase(table) && table !in old(mem) && mem == old(mem)[table := EmptyTable()]
      ensures forall i | 0 <= i < 512 :: mem[table][i] == 4
      ensures TablesBelow() && nextTable == old(nextTable) + FOUR_KB
    {
      table := nextTable;
      nextTable := nextTable + FOUR_KB;
      mem := mem[table := EmptyTable()];
    }

    method WriteEntry(table: int, index: int, e: int)
      requires table in mem && 0 <= index < |mem[table]|
      modifies this`mem
      ensures mem == old(mem)[table := old(mem)[table][index := e]]
    {
      mem := mem[table := mem[table][index := e]];
    }

    /** The table under an entry of a lower level, made if there is none, and opened to the
        user if need be. */
    method Descend(table: int, offset: int, isKernel: bool, ghost root: int, ghost q: int, ghost l: int)
      returns (next: int)
      requires Valid() && table in mem && table in space.level && 2 <= space.level[table] <= 3
      requires 0 <= offset < |mem[table]| == 512 && nextTable + FOUR_KB <= MEMORY
      requires OnWalk(space, root, q, l, table, offset)
      modifies this
      ensures Valid() && Keeps(old(space), space) && SameLeaves(old(space), space)
      ensures OpensOnly(old(space), space, root, q, 1, isKernel)
      ensures sharedKernelPml4eEntries == old(sharedKernelPml4eEntries)
      ensures table in mem && |mem[table]| == 512 && Present(mem[table][offset])
      ensures next == BaseAddress(mem[table][offset]) && (!isKernel ==> UserAccessible(mem[table][offset]))
      ensures nextTable <= old(nextTable) + FOUR_KB
    {
      hide SpaceOk, Keeps, Node, Leaf, Present, BaseAddress, SetEntry, WithUser, Grown, UserAccessible;
      ghost var s := space;
      MappedNothing(s, 0, 0, 0, true);
      OpensNothing(s, root, q, 1, isKernel);
      if !Present(mem[table][offset]) {
        Allocate(table, offset, isKernel, root, q, l);
        StillOnWalk(s, space, root, q, l, table, offset);
      }
      ghost var s1 := space;
      if !isKernel {
        Open(table, offset, root, q, l);
        KeepsTrans(s, s1, space);
        OpensTrans(s, s1, space, root, q, 1, q, 1, q, 1, isKernel);
      }
      next := BaseAddress(mem[table][offset]);
    }

    method Allocate(table: int, offset: int, isKernel: bool, ghost root: int, ghost q: int, ghost l: int)
      requires Valid() && table in mem && table in space.level && 2 <= space.level[table] <= 3
      requires OnWalk(space, root, q, l, table, offset)
      requires 0 <= offset < |mem[table]| == 512 && !Present(mem[table][offset]) && nextTable + FOUR_KB <= MEMORY
      modifies this
      ensures Valid() && Keeps(old(space), space) && SameLeaves(old(space), space)
      ensures OpensOnly(old(space), space, root, q, 1, isKernel)
      ensures nextTable == old(nextTable) + FOUR_KB
      ensures sharedKernelPml4eEntries == old(sharedKernelPml4eEntries)
      ensures table in mem && |mem[table]| == 512 && Present(mem[table][offset])
      ensures table in space.level && space.level[table] == old(space).level[table]
    {
      hide SpaceOk, Keeps, Node, Leaf, Present, BaseAddress, SetEntry;
      ghost var s := space;
      var base := CreateNewTable();
      WriteEntry(table, offset, SetEntry(base, true, true, isKernel));
      space := Grown(s, table, offset, base, isKernel);
      GrownOk(s, table, offset, base, isKernel);
      GrownKeeps(s, table, offset, base, isKernel);
      GrownOpens(s, table, offset, base, isKernel, root, q, l);
      GrownSameLeaves(s, table, offset, base, isKernel);
      GrownRoots(s, table, offset, base, isKernel);
      EntryFields(base, isKernel);
    }

    method Open(table: int, offset: int, ghost root: int, ghost q: int, ghost l: int)
      requires Valid() && table in mem && table in space.level && 2 <= space.level[table] <= 4
      requires 0 <= offset < |mem[table]| == 512 && (space.level[table] == 4 ==> offset < 511)
      requires OnWalk(space, root, q, l, table, offset)
      modifies this
      ensures Valid() && Keeps(old(space), space) && SameLeaves(old(space), space)
      ensures OpensOnly(old(space), space, root, q, 1, false)
      ensures sharedKernelPml4eEntries == old(sharedKernelPml4eEntries)
      ensures table in mem && |mem[table]| == 512 && space.level == old(space).level
      ensures nextTable == old(nextTable) && UserAccessible(mem[table][offset])
      ensures Present(mem[table][offset]) <==> Present(old(mem)[table][offset])
    {
      hide SpaceOk, Keeps, Node, Leaf, Present, BaseAddress, WithUser, UserAccessible;
      ghost var s := space;
      WithUserFields(mem[table][offset]);
      WriteEntry(table, offset, WithUser(mem[table][offset]));
      space := Opened(s, table, offset);
      OpenedOk(s, table, offset);
      OpenedKeeps(s, table, offset);
      OpenedOpens(s, table, offset, root, q, l);
      OpenedRoots(s, table, offset);
    }

    // ----- The loops ------------------------------------------------------------------

    /** Everything is in order, `n` pages are mapped since `s`, and pages mapped for the user
        are open to the user from level `top` down; no more has been opened than that takes. */
    ghost predicate Progress(
      s: Space, shared: seq<(int, int)>, root: int, first: int, n: int, pa: int, isKernel: bool, top: int)
      reads this
    {
      && Valid() && Keeps(s, space) && Mapped(s, space, root, first, n, pa, isKernel)
      && sharedKernelPml4eEntries == shared
      && (!isKernel ==> UserWalk(space, root, first, n, top)) && OpensOnly(s, space, root, first, n, isKernel)
    }

    method SetPT(startAddr: int, endAddr: int, pt: int, isKernel: bool, pa: int, ghost root: int)
      requires Valid() && IsBase(pa) && pa + (endAddr - startAddr) <= MEMORY
      requires 0 <= startAddr < endAddr && startAddr % FOUR_KB == 0 && endAddr % FOUR_KB == 0
      requires BlockOf(startAddr, PDT_SIZE) == BlockOf(endAddr - 1, PDT_SIZE)
      requires Node(space, root, Page(startAddr), 1) == Some(pt)
      modifies this
      ensures Progress(old(space), old(sharedKernelPml4eEntries), root, Page(startAddr),
                       (endAddr - startAddr) / FOUR_KB, pa, isKernel, 1)
      ensures nextTable == old(nextTable)
    {
      hide SpaceOk, Keeps, Node, Leaf, Present, BaseAddress, SetEntry, Mapped, SharedWith, Idx, Page;
      var offsetStart := OffsetIn(startAddr, FOUR_KB);
      var offsetEnd := OffsetIn(endAddr - 1, FOUR_KB);
      ghost var s, shared, p := space, sharedKernelPml4eEntries, Page(startAddr);
      MappedNothing(s, root, p, pa, isKernel);
      OpensNothing(s, root, p, 0, isKernel);
      LastPage(startAddr, endAddr);
      var offset := offsetStart;
      while offset <= offsetEnd
        invariant offsetStart <= offset <= offsetEnd + 1
        invariant Progress(s, shared, root, p, offset - offsetStart, pa, isKernel, 1)
        invariant nextTable == old(nextTable)
      {
        var delta := offset - offsetStart;
        ghost var s1 := space;
        FrameInRange(pa, startAddr, endAddr, delta);
        PageInTable(s, s1, root, startAddr, delta, pt);
        ghost var q := p + delta;
        MappedOne(s1, root, q, pa + FOUR_KB * delta, isKernel);
        EntryFields(pa + FOUR_KB * delta, isKernel);
        WithLeafOk(s1, pt, offset, Entry(pa + FOUR_KB * delta, isKernel));
        WriteEntry(pt, offset, SetEntry(pa + delta * FOUR_KB, true, true, isKernel));
        space := WithLeaf(s1, pt, offset, Entry(pa + FOUR_KB * delta, isKernel));
        WithLeafRoots(s1, pt, offset, Entry(pa + FOUR_KB * delta, isKernel));
        SharedKept(s1, space, shared);
        KeepsTrans(s, s1, space);
        MappedMore(s, s1, space, root, p, delta, 1, pa, isKernel);
        WithLeafOpens(s1, pt, offset, Entry(pa + FOUR_KB * delta, isKernel), root, q, isKernel);
        OpensTrans(s, s1, space, root, p, delta, q, 1, p, delta + 1, isKernel);
        offset := offset + 1;
      }
    }

    /** The part of a range under one entry of a table of level 2. */
    method SetPTUnder(startAddr: int, endAddr: int, pdt: int, offset: int, isKernel: bool, pa: int, ghost root: int)
      requires Valid() && IsBase(pa) && pa + (endAddr - startAddr) <= MEMORY
      requires 0 <= startAddr < endAddr && startAddr % FOUR_KB == 0 && endAddr % FOUR_KB == 0
      requires BlockOf(startAddr, PDT_SIZE) == BlockOf(endAddr - 1, PDT_SIZE)
      requires Node(space, root, Page(startAddr), 2) == Some(pdt) && offset == Idx(Page(startAddr), 2)
      requires nextTable + endAddr - startAddr <= MEMORY
      modifies this
      ensures Progress(old(space), old(sharedKernelPml4eEntries), root, Page(startAddr),
                       (endAddr - startAddr) / FOUR_KB, pa, isKernel, 2)
      ensures nextTable <= old(nextTable) + endAddr - startAddr
    {
      hide SpaceOk, Keeps, Node, Leaf, Present, BaseAddress, SetEntry, Mapped, SharedWith, Idx, Page, SameLeaves;
      hide UserWalk, OpensOnly, UserAccessible, BlockOf, IsRoot, IsBase;
      ghost var s := space;
      AtLeastPage(startAddr, endAddr);
      NodeOk(s, root, Page(startAddr), 2);
      var next := Descend(pdt, offset, isKernel, root, Page(startAddr), 2);
      ghost var s1 := space;
      Descended(s, s1, root, Page(startAddr), 2, pdt, offset);
      SetPT(startAddr, endAddr, next, isKernel, pa, root);
      MappedAfter(s, s1, space, root, Page(startAddr), (endAddr - startAddr) / FOUR_KB, pa, isKernel);
      OpensAfter(s, s1, space, root, startAddr, endAddr, isKernel);
      if !isKernel { UserUnder(s, s1, space, root, startAddr, endAddr, 2, pdt, offset); }
    }

    method SetPDT(startAddr: int, endAddr: int, pdt: int, isKernel: bool, pa: int, ghost root: int)
      requires Valid() && IsBase(pa) && pa + (endAddr - startAddr) <= MEMORY
      requires 0 <= startAddr < endAddr && startAddr % FOUR_KB == 0 && endAddr % FOUR_KB == 0
      requires BlockOf(startAddr, PDPT_SIZE) == BlockOf(endAddr - 1, PDPT_SIZE)
      requires Node(space, root, Page(startAddr), 2) == Some(pdt)
      requires nextTable + (endAddr - startAddr) <= MEMORY
      modifies this
      ensures Progress(old(space), old(sharedKernelPml4eEntries), root, Page(startAddr),
                       (endAddr - startAddr) / FOUR_KB, pa, isKernel, 2)
      ensures nextTable <= old(nextTable) + (endAddr - startAddr)
    {
      hide SpaceOk, Keeps, Node, Leaf, Present, BaseAddress, SetEntry, Mapped, SharedWith, Idx, Page, SameLeaves;
      hide UserWalk, OpensOnly, UserAccessible, Reached, Max, Min, BlockOf, OffsetIn, BlockStart, IsRoot, IsBase;
      var offsetStart := OffsetIn(startAddr, PDT_SIZE);
      var offsetEnd := OffsetIn(endAddr - 1, PDT_SIZE);
      var blockStart := BlockStart(startAddr, PDT_SIZE);
      ghost var s, shared, p, cur := space, sharedKernelPml4eEntries, Page(startAddr), startAddr;
      MappedNothing(s, root, p, pa, isKernel);
      UserNothing(s, root, p, 0, 2);
      OpensNothing(s, root, p, 0, isKernel);
      Offsets(startAddr, endAddr, PDT_SIZE);
      NotStarted(startAddr, endAddr, PDT_SIZE);
      var offset := offsetStart;
      while offset <= offsetEnd
        invariant offsetStart <= offset <= offsetEnd + 1
        invariant cur == Reached(startAddr, endAddr, PDT_SIZE, offset - offsetStart)
        invariant offset == offsetEnd + 1 ==> cur == endAddr
        invariant Progress(s, shared, root, p, (cur - startAddr) / FOUR_KB, pa, isKernel, 2)
        invariant nextTable <= old(nextTable) + (cur - startAddr)
      {
        var delta := offset - offsetStart;
        PieceFacts(startAddr, endAddr, PDT_SIZE, PDPT_SIZE, 2, pa, delta);
        var start := Max(startAddr, blockStart + delta * PDT_SIZE);
        var end := Min(endAddr, blockStart + (delta + 1) * PDT_SIZE);
        ghost var s1 := space;
        PieceInTable(s, s1, root, startAddr, start, 2, pdt);
        SetPTUnder(start, end, pdt, offset, isKernel, pa + (start - startAddr), root);
        Combine(s, s1, space, root, startAddr, start, end, pa, isKernel);
        CombineOpens(s, s1, space, root, startAddr, start, end, isKernel);
        if !isKernel { CombineUser(s1, space, root, startAddr, start, end, 2); }
        cur := end;
        offset := offset + 1;
      }
    }

    /** The part of a range under one entry of a table of level 3. */
    method SetPDTUnder(startAddr: int, endAddr: int, pdpt: int, offset: int, isKernel: bool, pa: int, ghost root: int)
      requires Valid() && IsBase(pa) && pa + (endAddr - startAddr) <= MEMORY
      requires 0 <= startAddr < endAddr && startAddr % FOUR_KB == 0 && endAddr % FOUR_KB == 0
      requires BlockOf(startAddr, PDPT_SIZE) == BlockOf(endAddr - 1, PDPT_SIZE)
      requires Node(space, root, Page(startAddr), 3) == Some(pdpt) && offset == Idx(Page(startAddr), 3)
      requires nextTable + 2 * (endAddr - startAddr) <= MEMORY
      modifies this
      ensures Progress(old(space), old(sharedKernelPml4eEntries), root, Page(startAddr),
                       (endAddr - startAddr) / FOUR_KB, pa, isKernel, 3)
      ensures nextTable <= old(nextTable) + 2 * (endAddr - startAddr)
    {
      hide SpaceOk, Keeps, Node, Leaf, Present, BaseAddress, SetEntry, Mapped, SharedWith, Idx, Page, SameLeaves;
      hide UserWalk, OpensOnly, UserAccessible, BlockOf, IsRoot, IsBase;
      ghost var s := space;
      AtLeastPage(startAddr, endAddr);
      NodeOk(s, root, Page(startAddr), 3);
      var next := Descend(pdpt, offset, isKernel, root, Page(startAddr), 3);
      ghost var s1 := space;
      Descended(s, s1, root, Page(startAddr), 3, pdpt, offset);
      SetPDT(startAddr, endAddr, next, isKernel, pa, root);
      MappedAfter(s, s1, space, root, Page(startAddr), (endAddr - startAddr) / FOUR_KB, pa, isKernel);
      OpensAfter(s, s1, space, root, startAddr, endAddr, isKernel);
      if !isKernel { UserUnder(s, s1, space, root, startAddr, endAddr, 3, pdpt, offset); }
    }

    method SetPDPT(startAddr: int, endAddr: int, pdpt: int, isKernel: bool, pa: int, ghost root: int)
      requires Valid() && IsBase(pa) && pa + (endAddr - startAddr) <= MEMORY
      requires 0 <= startAddr < endAddr && startAddr % FOUR_KB == 0 && endAddr % FOUR_KB == 0
      requires BlockOf(startAddr, PML4_SIZE) == BlockOf(endAddr - 1, PML4_SIZE)
      requires Node(space, root, Page(startAddr), 3) == Some(pdpt)
      requires nextTable + 2 * (endAddr - startAddr) <= MEMORY
      modifies this
      ensures Progress(old(space), old(sharedKernelPml4eEntries), root, Page(startAddr),
                       (endAddr - startAddr) / FOUR_KB, pa, isKernel, 3)
      ensures nextTable <= old(nextTable) + 2 * (endAddr - startAddr)
    {
      hide SpaceOk, Keeps, Node, Leaf, Present, BaseAddress, SetEntry, Mapped, SharedWith, Idx, Page, SameLeaves;
      hide UserWalk, OpensOnly, UserAccessible, Reached, Max, Min, BlockOf, OffsetIn, BlockStart, IsRoot, IsBase;
      var offsetStart := OffsetIn(startAddr, PDPT_SIZE);
      var offsetEnd := OffsetIn(endAddr - 1, PDPT_SIZE);
      var blockStart := BlockStart(startAddr, PDPT_SIZE);
      ghost var s, shared, p, cur := space, sharedKernelPml4eEntries, Page(startAddr), startAddr;
      MappedNothing(s, root, p, pa, isKernel);
      UserNothing(s, root, p, 0, 3);
      OpensNothing(s, root, p, 0, isKernel);
      Offsets(startAddr, endAddr, PDPT_SIZE);
      NotStarted(startAddr, endAddr, PDPT_SIZE);
      var offset := offsetStart;
      while offset <= offsetEnd
        invariant offsetStart <= offset <= offsetEnd + 1
        invariant cur == Reached(startAddr, endAddr, PDPT_SIZE, offset - offsetStart)
        invariant offset == offsetEnd + 1 ==> cur == endAddr
        invariant Progress(s, shared, root, p, (cur - startAddr) / FOUR_KB, pa, isKernel, 3)
        invariant nextTable <= old(nextTable) + 2 * (cur - startAddr)
      {
        var delta := offset - offsetStart;
        PieceFacts(startAddr, endAddr, PDPT_SIZE, PML4_SIZE, 3, pa, delta);
        var start := Max(startAddr, blockStart + delta * PDPT_SIZE);
        var end := Min(endAddr, blockStart + (delta + 1) * PDPT_SIZE);
        ghost var s1 := space;
        PieceInTable(s, s1, root, startAddr, start, 3, pdpt);
        SetPDTUnder(start, end, pdpt, offset, isKernel, pa + (start - startAddr), root);
        Combine(s, s1, space, root, startAddr, start, end, pa, isKernel);
        CombineOpens(s, s1, space, root, startAddr, start, end, isKernel);
        if !isKernel { CombineUser(s1, space, root, startAddr, start, end, 3); }
        cur := end;
        offset := offset + 1;
      }
    }

    // ----- The top level --------------------------------------------------------------

    /** The same for an entry of a top-level table.  The first entry for kernel memory is
        kept, to be copied into every later top-level table. */
    method DescendTop(root: int, offset: int, isKernel: bool, startAddr: int, ghost q: int) returns (next: int)
      requires Valid() && IsRoot(space, root) && 0 <= offset < 512 && OnWalk(space, root, q, 4, root, offset)
      requires startAddr >= KERNEL_VIRTUAL_OFFSET ==> offset == 511
      requires offset == 511 ==> isKernel && startAddr >= KERNEL_VIRTUAL_OFFSET
      requires offset == 511 && sharedKernelPml4eEntries == [] ==> forall r | IsRoot(space, r) :: r == root
      requires nextTable + FOUR_KB <= MEMORY
      modifies this
      ensures Valid() && Keeps(old(space), space) && SameLeaves(old(space), space)
      ensures OpensOnly(old(space), space, root, q, 1, isKernel)
      ensures root in mem && |mem[root]| == 512 && Present(mem[root][offset]) && next == BaseAddress(mem[root][offset])
      ensures nextTable <= old(nextTable) + FOUR_KB && (!isKernel ==> UserAccessible(mem[root][offset]))
      ensures offset < 511 ==> sharedKernelPml4eEntries == old(sharedKernelPml4eEntries)
      ensures offset == 511 ==> sharedKernelPml4eEntries != []
    {
      hide SpaceOk, Keeps, Node, Leaf, Present, BaseAddress, SetEntry, WithUser, Grown, SharedWith, UserAccessible;
      ghost var s := space;
      MappedNothing(s, 0, 0, 0, true);
      OpensNothing(s, root, q, 1, isKernel);
      SharedPresent(s, sharedKernelPml4eEntries, root);
      if !Present(mem[root][offset]) {
        AllocateTop(root, offset, isKernel, startAddr, q);
        StillOnWalk(s, space, root, q, 4, root, offset);
      }
      ghost var s1 := space;
      if !isKernel {
        Open(root, offset, root, q, 4);
        KeepsTrans(s, s1, space);
        OpensTrans(s, s1, space, root, q, 1, q, 1, q, 1, isKernel);
      }
      next := BaseAddress(mem[root][offset]);
    }

    method AllocateTop(root: int, offset: int, isKernel: bool, startAddr: int, ghost q: int)
      requires OnWalk(space, root, q, 4, root, offset)
      requires Valid() && IsRoot(space, root) && 0 <= offset < 512 && !Present(mem[root][offset])
      requires startAddr >= KERNEL_VIRTUAL_OFFSET ==> offset == 511
      requires offset == 511 ==> isKernel && startAddr >= KERNEL_VIRTUAL_OFFSET
      requires offset == 511 ==> forall r | IsRoot(space, r) :: r == root
      requires nextTable + FOUR_KB <= MEMORY
      modifies this
      ensures Valid() && Keeps(old(space), space) && SameLeaves(old(space), space)
      ensures OpensOnly(old(space), space, root, q, 1, isKernel)
      ensures root in mem && |mem[root]| == 512 && Present(mem[root][offset])
      ensures root in space.level && space.level[root] == 4 && nextTable == old(nextTable) + FOUR_KB
      ensures offset < 511 ==> sharedKernelPml4eEntries == old(sharedKernelPml4eEntries)
      ensures offset == 511 ==> sharedKernelPml4eEntries != []
    {
      hide SpaceOk, Keeps, Node, Leaf, Present, BaseAddress, SetEntry;
      ghost var s, shared := space, sharedKernelPml4eEntries;
      SharedPresent(s, shared, root);
      var base := CreateNewTable();
      WriteEntry(root, offset, SetEntry(base, true, true, isKernel));
      if isKernel && !(exists item :: item in sharedKernelPml4eEntries && item.0 == offset)
         && startAddr >= KERNEL_VIRTUAL_OFFSET
      {
        sharedKernelPml4eEntries := sharedKernelPml4eEntries + [(offset, mem[root][offset])];
      }
      space := Grown(s, root, offset, base, isKernel);
      GrownOk(s, root, offset, base, isKernel);
      GrownKeeps(s, root, offset, base, isKernel);
      GrownOpens(s, root, offset, base, isKernel, root, q, 4);
      GrownSameLeaves(s, root, offset, base, isKernel);
      GrownRoots(s, root, offset, base, isKernel);
      EntryFields(base, isKernel);
    }

    /** The part of a range under one entry of a top-level table. */
    method SetPDPTUnder(
      startAddr: int, endAddr: int, root: int, offset: int, isKernel: bool, pa: int, rangeStart: int)
      requires Valid() && IsRoot(space, root) && IsBase(pa) && pa + (endAddr - startAddr) <= MEMORY
      requires 0 <= startAddr < endAddr && startAddr % FOUR_KB == 0 && endAddr % FOUR_KB == 0
      requires BlockOf(startAddr, PML4_SIZE) == BlockOf(endAddr - 1, PML4_SIZE) && offset == Idx(Page(startAddr), 4)
      requires rangeStart >= KERNEL_VIRTUAL_OFFSET ==> offset == 511
      requires offset == 511 ==> isKernel && rangeStart >= KERNEL_VIRTUAL_OFFSET
      requires offset == 511 && sharedKernelPml4eEntries == [] ==> forall r | IsRoot(space, r) :: r == root
      requires nextTable + 3 * (endAddr - startAddr) <= MEMORY
      modifies this
      ensures Valid() && Keeps(old(space), space)
      ensures Mapped(old(space), space, root, Page(startAddr), (endAddr - startAddr) / FOUR_KB, pa, isKernel)
      ensures !isKernel ==> UserWalk(space, root, Page(startAddr), (endAddr - startAddr) / FOUR_KB, 4)
      ensures OpensOnly(old(space), space, root, Page(startAddr), (endAddr - startAddr) / FOUR_KB, isKernel)
      ensures nextTable <= old(nextTable) + 3 * (endAddr - startAddr)
      ensures if offset < 511 then sharedKernelPml4eEntries == old(sharedKernelPml4eEntries)
              else sharedKernelPml4eEntries != []
    {
      hide SpaceOk, Keeps, Node, Leaf, Present, BaseAddress, SetEntry, Mapped, SharedWith, Idx, Page, SameLeaves;
      hide UserWalk, OpensOnly, UserAccessible, BlockOf, IsBase;
      ghost var s := space;
      AtLeastPage(startAddr, endAddr);
      TopNode(s, root, Page(startAddr));
      var pdpt := DescendTop(root, offset, isKernel, rangeStart, Page(startAddr));
      ghost var s1 := space;
      Descended(s, s1, root, Page(startAddr), 4, root, offset);
      SetPDPT(startAddr, endAddr, pdpt, isKernel, pa, root);
      MappedAfter(s, s1, space, root, Page(startAddr), (endAddr - startAddr) / FOUR_KB, pa, isKernel);
      OpensAfter(s, s1, space, root, startAddr, endAddr, isKernel);
      if !isKernel { UserUnder(s, s1, space, root, startAddr, endAddr, 4, root, offset); }
    }

    method SetPML4E(startAddr: int, size: int, root: int, isKernel: bool, pa: int)
      requires Valid() && IsRoot(space, root) && RangeOk(startAddr, size)
      requires IsBase(pa) && pa + size <= MEMORY && nextTable + 3 * size <= MEMORY
      requires InKernelSlot(startAddr + size - 1) ==>
                 && isKernel && startAddr >= KERNEL_VIRTUAL_OFFSET
                 && (sharedKernelPml4eEntries == [] ==> forall r | IsRoot(space, r) :: r == root)
      modifies this
      ensures Valid() && Keeps(old(space), space)
      ensures Mapped(old(space), space, root, Page(startAddr), size / FOUR_KB, pa, isKernel)
      ensures !isKernel ==> UserWalk(space, root, Page(startAddr), size / FOUR_KB, 4)
      ensures OpensOnly(old(space), space, root, Page(startAddr), size / FOUR_KB, isKernel)
      ensures nextTable <= old(nextTable) + 3 * size
      ensures InKernelSlot(startAddr + size - 1) ==> sharedKernelPml4eEntries != []
      ensures !InKernelSlot(startAddr + size - 1) ==> sharedKernelPml4eEntries == old(sharedKernelPml4eEntries)
    {
      hide SpaceOk, Keeps, Node, Leaf, Present, BaseAddress;
      hide SetEntry, Mapped, SharedWith, Idx, Page, SameLeaves, IsRoot;
      hide UserWalk, OpensOnly, UserAccessible, Reached, Max, Min, BlockOf, OffsetIn, BlockStart, RangeOk, InKernelSlot;
      RangeFacts(startAddr, size);
      var endAddr := startAddr + size;
      var offsetStart := OffsetIn(startAddr, PML4_SIZE);
      var offsetEnd := OffsetIn(endAddr - 1, PML4_SIZE);
      var pml4StartAddr := BlockStart(startAddr, PML4_SIZE);
      ghost var s, shared, p, cur := space, sharedKernelPml4eEntries, Page(startAddr), startAddr;
      MappedNothing(s, root, p, pa, isKernel);
      UserNothing(s, root, p, 0, 4);
      OpensNothing(s, root, p, 0, isKernel);
      Offsets(startAddr, endAddr, PML4_SIZE);
      NotStarted(startAddr, endAddr, PML4_SIZE);
      if startAddr >= KERNEL_VIRTUAL_OFFSET { KernelOffsets(startAddr, size); }
      var offset := offsetStart;
      while offset <= offsetEnd
        invariant offsetStart <= offset <= offsetEnd + 1
        invariant cur == Reached(startAddr, endAddr, PML4_SIZE, offset - offsetStart)
        invariant offset == offsetEnd + 1 ==> cur == endAddr
        invariant Valid() && Keeps(s, space)
        invariant Mapped(s, space, root, p, (cur - startAddr) / FOUR_KB, pa, isKernel)
        invariant !isKernel ==> UserWalk(space, root, p, (cur - startAddr) / FOUR_KB, 4)
        invariant OpensOnly(s, space, root, p, (cur - startAddr) / FOUR_KB, isKernel)
        invariant nextTable <= old(nextTable) + 3 * (cur - startAddr)
        invariant if offset <= 511 then sharedKernelPml4eEntries == shared else sharedKernelPml4eEntries != []
      {
        var delta := offset - offsetStart;
        PieceFacts(startAddr, endAddr, PML4_SIZE, REGION, 4, pa, delta);
        var start := Max(startAddr, pml4StartAddr + delta * PML4_SIZE);
        var end := startAddr + size;
        NoWrap(startAddr, endAddr, delta);
        if (pml4StartAddr + (delta + 1) * PML4_SIZE) % TWO64 != 0 {
          end := Min(startAddr + size, (pml4StartAddr + (delta + 1) * PML4_SIZE) % TWO64);
        }
        ghost var s1 := space;
        RootsKept(s, s1, root);
        SetPDPTUnder(start, end, root, offset, isKernel, pa + (start - startAddr), startAddr);
        Combine(s, s1, space, root, startAddr, start, end, pa, isKernel);
        CombineOpens(s, s1, space, root, startAddr, start, end, isKernel);
        if !isKernel { CombineUser(s1, space, root, startAddr, start, end, 4); }
        cur := end;
        offset := offset + 1;
      }
    }

    /** A new top-level table that maps what the kernel shares, and nothing else. */
    method CreateEmptyPageTable() returns (root: int)
      requires Valid() && nextTable + FOUR_KB <= MEMORY
      modifies this
      ensures Valid() && nextTable == old(nextTable) + FOUR_KB
      ensures sharedKernelPml4eEntries == old(sharedKernelPml4eEntries)
      ensures Follows(old(space), Create(root), space)
    {
      hide SpaceOk, Node, Leaf, Present, BaseAddress, SetEntry, Follows, EMPTY_ENTRY;
      ghost var s, shared := space, sharedKernelPml4eEntries;
      root := CreateNewTable();
      var i := 0;
      while i < |sharedKernelPml4eEntries|
        invariant 0 <= i <= |shared| && sharedKernelPml4eEntries == shared && space == s
        invariant mem == s.mem[root := if i == 0 then EmptyTable() else EmptyTable()[511 := shared[0].1]]
        invariant TablesBelow() && nextTable == old(nextTable) + FOUR_KB
      {
        assert shared[i] in shared;
        WriteEntry(root, sharedKernelPml4eEntries[i].0, sharedKernelPml4eEntries[i].1);
        i := i + 1;
      }
      ghost var e := if shared == [] then EMPTY_ENTRY else shared[0].1;
      assert EmptyTable()[511 := EMPTY_ENTRY] == EmptyTable();
      space := Rooted(s, root, e);
      RootedOk(s, root, e);
      RootedFollows(s, root, e);
      RootedShared(s, root, e, shared);
    }

    /** Mapping for the kernel or for a user; user ranges stay out of the kernel's slot. */
    method AllocateTable(root: int, vmStartAddr: int, bytes: int, isKernel: bool, physicalAddrStart: int)
      requires Valid() && IsRoot(space, root) && RangeOk(vmStartAddr, bytes)
      requires IsBase(physicalAddrStart) && physicalAddrStart + bytes <= MEMORY && nextTable + 3 * bytes <= MEMORY
      requires isKernel ==> vmStartAddr >= KERNEL_VIRTUAL_OFFSET
                            && (sharedKernelPml4eEntries == [] ==> forall r | IsRoot(space, r) :: r == root)
      requires !isKernel ==> !InKernelSlot(vmStartAddr + bytes - 1)
      modifies this
      ensures Valid() && nextTable <= old(nextTable) + 3 * bytes
      ensures isKernel ==> sharedKernelPml4eEntries != []
      ensures !isKernel ==> sharedKernelPml4eEntries == old(sharedKernelPml4eEntries)
      ensures Follows(old(space),
                      MapPages(root, Page(vmStartAddr), bytes / FOUR_KB, physicalAddrStart, isKernel), space)
    {
      hide SpaceOk, Keeps, Mapped, SharedWith, IsRoot, Page, RangeOk, UserWalk, Follows, InKernelSlot;
      ghost var s := space;
      RangeFacts(vmStartAddr, bytes);
      if isKernel { KernelSlot(vmStartAddr, bytes); }
      SetPML4E(vmStartAddr, bytes, root, isKernel, physicalAddrStart);
      RangeFollows(s, space, root, vmStartAddr, bytes, physicalAddrStart, isKernel);
    }

    /** Low memory is mapped to itself, in the kernel's own table only. */
    method CreateIdentityForKernel(root: int, physStartAddr: int, bytes: int)
      requires Valid() && IsRoot(space, root) && RangeOk(physStartAddr, bytes) && physStartAddr + bytes <= PML4_SIZE
      requires nextTable + 3 * bytes <= MEMORY
      modifies this
      ensures Valid() && nextTable <= old(nextTable) + 3 * bytes
      ensures sharedKernelPml4eEntries == old(sharedKernelPml4eEntries)
      ensures Follows(old(space), MapPages(root, Page(physStartAddr), bytes / FOUR_KB, physStartAddr, true), space)
    {
      hide SpaceOk, Keeps, Mapped, SharedWith, IsRoot, Page, UserWalk, Follows;
      ghost var s := space;
      SetPML4E(physStartAddr, bytes, root, true, physStartAddr);
      RangeFollows(s, space, root, physStartAddr, bytes, physStartAddr, true);
    }
  }

  /** The page tables of the kernel: the kernel's own is made first, and its memory is mapped
      before any user's table is made. */
  class PageTableManager {
    const pageTable: PageTable
    const kernelPml4eBasePhysAddr: int

    constructor ()
      ensures fresh(pageTable) && pageTable.Valid() && IsRoot(pageTable.space, kernelPml4eBasePhysAddr)
      ensures pageTable.sharedKernelPml4eEntries != []
      ensures forall va | KERNEL_VIRTUAL_OFFSET <= va < KERNEL_VIRTUAL_OFFSET + PDPT_SIZE ::
                Translate(pageTable.space, kernelPml4eBasePhysAddr, va) == Some(va - KERNEL_VIRTUAL_OFFSET)
    {
      hide SpaceOk, Keeps, Mapped, SharedWith, Page, Translate, Leaf, IsRoot, Follows;
      var table := new PageTable();
      ghost var s0 := table.space;
      var root := table.CreateEmptyPageTable();
      ghost var s := table.space;
      KernelRange();
      FirstRoot(s0, root, s);
      table.AllocateTable(root, KERNEL_VIRTUAL_OFFSET, PDPT_SIZE, true, 0);
      FollowsMaps(s, table.space, root, Page(KERNEL_VIRTUAL_OFFSET), PDPT_SIZE / FOUR_KB, 0, true);
      pageTable := table;
      kernelPml4eBasePhysAddr := root;
      forall va | KERNEL_VIRTUAL_OFFSET <= va < KERNEL_VIRTUAL_OFFSET + PDPT_SIZE
        ensures Translate(table.space, root, va) == Some(va - KERNEL_VIRTUAL_OFFSET)
      {
        SameRegion(KERNEL_VIRTUAL_OFFSET, va, PDPT_SIZE);
        RangeTranslated(s, table.space, root, KERNEL_VIRTUAL_OFFSET, PDPT_SIZE, 0, true, root, va);
      }
    }
  }

  /** The entry for the kernel is present exactly when it is kept to be shared. */
  lemma SharedPresent(s: Space, shared: seq<(int, int)>, root: int)
    requires SharedWith(s, shared) && IsRoot(s, root)
    ensures Present(s.mem[root][511]) <==> shared != []
  {
    EmptyEntry();
    if shared != [] { assert shared[0] in shared; }
  }

  lemma RootsKept(s: Space, s': Space, root: int)
    requires Keeps(s, s')
    ensures forall r :: IsRoot(s', r) <==> IsRoot(s, r)
  {
  }

  lemma TopNode(s: Space, root: int, p: int)
    requires IsRoot(s, root)
    ensures Node(s, root, p, 4) == Some(root)
  {
  }

  predicate RangeOk(startAddr: int, size: int) {
    && 0 <= startAddr && 0 < size && startAddr % FOUR_KB == 0 && size % FOUR_KB == 0
    && startAddr + size <= TWO64 - PDPT_SIZE
    && BlockOf(startAddr, REGION) == BlockOf(startAddr + size - 1, REGION)
  }

  /** The address is mapped by the last entry of a top-level table. */
  predicate InKernelSlot(addr: int) { OffsetIn(addr, PML4_SIZE) == 511 }

  lemma KernelSlot(startAddr: int, size: int)
    requires RangeOk(startAddr, size) && startAddr >= KERNEL_VIRTUAL_OFFSET
    ensures InKernelSlot(startAddr + size - 1)
  {
    KernelOffsets(startAddr, size);
  }

  /** What a range of addresses is as a range of pages. */
  lemma RangeInPages(start: int, size: int)
    requires RangeOk(start, size)
    ensures 0 <= Page(start) && Page(start) + size / FOUR_KB <= PAGES
    ensures 0 < size / FOUR_KB && FOUR_KB * (size / FOUR_KB) == size
    ensures !InKernelSlot(start + size - 1) ==>
              forall p | Page(start) <= p < Page(start) + size / FOUR_KB :: p / Span(3) != 511
  {
    var last := start + size - 1;
    PageShift(start, last);
    assert (last - start) / FOUR_KB == size / FOUR_KB - 1;
    PageSlot(last);
    var first, n := Page(start), size / FOUR_KB;
    assert Page(last) == first + n - 1;
    forall p | first <= p < first + n ensures !InKernelSlot(last) ==> p / Span(3) != 511 {
      if !InKernelSlot(last) { LastSlot(p, first + n - 1); }
    }
  }

  lemma LastSlot(p: int, q: int)
    requires 0 <= p <= q < PAGES && q / Span(3) != 511
    ensures p / Span(3) != 511
  {
  }

  lemma RangeFollows(s: Space, s': Space, root: int, start: int, size: int, pa: int, isKernel: bool)
    requires SpaceOk(s) && SpaceOk(s') && IsRoot(s, root) && RangeOk(start, size) && IsBase(pa) && pa + size <= MEMORY
    requires Keeps(s, s') && Mapped(s, s', root, Page(start), size / FOUR_KB, pa, isKernel)
    requires OpensOnly(s, s', root, Page(start), size / FOUR_KB, isKernel)
    requires !isKernel ==>
               !InKernelSlot(start + size - 1) && UserWalk(s', root, Page(start), size / FOUR_KB, 4)
    ensures Follows(s, MapPages(root, Page(start), size / FOUR_KB, pa, isKernel), s')
  {
    hide SpaceOk, IsRoot, RangeOk, Keeps, Mapped, Page, InKernelSlot, UserWalk, OpensOnly, Span;
    RangeInPages(start, size);
  }

  lemma FollowsMaps(s: Space, s': Space, root: int, first: int, n: int, pa: int, isKernel: bool)
    requires Follows(s, MapPages(root, first, n, pa, isKernel), s')
    ensures Keeps(s, s') && Mapped(s, s', root, first, n, pa, isKernel) && IsRoot(s, root) && IsRoot(s', root)
  {
    hide SpaceOk, Mapped, IsRoot, UserWalk;
  }

  lemma FirstRoot(s: Space, root: int, s': Space)
    requires Follows(s, Create(root), s') && forall r :: !IsRoot(s, r)
    ensures IsRoot(s', root) && forall r | IsRoot(s', r) :: r == root
  {
    hide SpaceOk, IsRoot, Leaf, Kept;
  }

  lemma KernelOffsets(startAddr: int, size: int)
    requires RangeOk(startAddr, size) && startAddr >= KERNEL_VIRTUAL_OFFSET
    ensures OffsetIn(startAddr, PML4_SIZE) == 511 == OffsetIn(startAddr + size - 1, PML4_SIZE)
  {
    assert startAddr / PML4_SIZE == 0x1ff_ffff;
    assert (startAddr + size - 1) / PML4_SIZE == 0x1ff_ffff;
  }

  /** The end of a block is zero, as a 64-bit number, only if it is the end of the address
      space. */
  lemma NoWrap(start: int, end: int, delta: int)
    requires 0 <= start < end <= TWO64 - PDPT_SIZE
    requires 0 <= delta <= BlockOf(end - 1, PML4_SIZE) - BlockOf(start, PML4_SIZE)
    ensures var x := BlockStart(start, PML4_SIZE) + (delta + 1) * PML4_SIZE;
            (if x % TWO64 != 0 then Min(end, x % TWO64) else end) == Min(end, x)
  {
    var q := BlockOf(start, PML4_SIZE) + delta + 1;
    var x := BlockStart(start, PML4_SIZE) + (delta + 1) * PML4_SIZE;
    assert x == q * PML4_SIZE;
    BlockBounds(start, PML4_SIZE);
    BlockBounds(end - 1, PML4_SIZE);
    assert 0 <= q - 1 && (q - 1) * PML4_SIZE <= end - 1;
    assert q <= 0x200_0000;
    if q < 0x200_0000 {
      Small(x, TWO64);
    } else {
      QuotientIs(x, TWO64, 1, 0);
    }
  }

  lemma RangeFacts(startAddr: int, size: int)
    requires RangeOk(startAddr, size)
    ensures 0 <= startAddr < startAddr + size <= TWO64 - PDPT_SIZE
    ensures startAddr % FOUR_KB == 0 && (startAddr + size) % FOUR_KB == 0
    ensures BlockOf(startAddr, REGION) == BlockOf(startAddr + size - 1, REGION)
    ensures InKernelSlot(startAddr + size - 1) <==> OffsetIn(startAddr + size - 1, PML4_SIZE) == 511
  {
  }

  // The roots and their shared entry are as they were.
  lemma SharedKept(s: Space, s': Space, shared: seq<(int, int)>)
    requires SharedWith(s, shared) && forall r :: IsRoot(s', r) <==> IsRoot(s, r)
    requires forall r | IsRoot(s, r) && IsRoot(s', r) :: s'.mem[r][511] == s.mem[r][511]
    ensures SharedWith(s', shared)
  {
  }

  lemma OpenedRoots(s: Space, t: int, i: int)
    requires t in s.mem && 0 <= i < |s.mem[t]| && (t in s.level && s.level[t] == 4 ==> i < 511)
    ensures var s' := Opened(s, t, i);
            && (forall r :: IsRoot(s', r) <==> IsRoot(s, r))
            && (forall r | IsRoot(s, r) :: s'.mem[r][511] == s.mem[r][511])
  {
  }

  lemma WithLeafRoots(s: Space, t: int, i: int, e: int)
    requires t in s.mem && t in s.level && 0 <= i < |s.mem[t]| && s.level[t] == 1
    ensures var s' := WithLeaf(s, t, i, e);
            && (forall r :: IsRoot(s', r) <==> IsRoot(s, r))
            && (forall r | IsRoot(s, r) :: s'.mem[r][511] == s.mem[r][511])
  {
  }

  lemma LastPage(start: int, end: int)
    requires 0 <= start < end && start % FOUR_KB == 0 && end % FOUR_KB == 0
    requires BlockOf(start, PDT_SIZE) == BlockOf(end - 1, PDT_SIZE)
    ensures 0 <= OffsetIn(start, FOUR_KB) <= OffsetIn(end - 1, FOUR_KB) < 512
    ensures OffsetIn(end - 1, FOUR_KB) - OffsetIn(start, FOUR_KB) + 1 == (end - start) / FOUR_KB
  {
    var a, b := start / FOUR_KB, (end - 1) / FOUR_KB;
    UpperPage(start);
    UpperPage(end - 1);
    assert end == FOUR_KB * (b + 1) && start == FOUR_KB * a;
  }

  lemma UpperPage(x: int)
    requires 0 <= x
    ensures (x / FOUR_KB) / 512 == BlockOf(x, PDT_SIZE)
  {
    assert (x / 0x1000) / 512 == x / 0x20_0000;
  }

  /** A later page of the range is in the same lowest table. */
  lemma PageInTable(s: Space, s': Space, root: int, start: int, delta: int, pt: int)
    requires Keeps(s, s') && Node(s, root, Page(start), 1) == Some(pt) && SpaceOk(s)
    requires 0 <= start && start % FOUR_KB == 0 && 0 <= delta && OffsetIn(start, FOUR_KB) + delta < 512
    ensures var q := Page(start) + delta;
            && 0 <= q < PAGES && Node(s', root, q, 1) == Some(pt) && Idx(q, 1) == OffsetIn(start, FOUR_KB) + delta
  {
    hide Node, SpaceOk, Idx, Page, IsRoot;
    var x := start + FOUR_KB * delta;
    Within(start, delta);
    PageShift(start, x);
    SameBlockPages(start, x, 1);
    SameBlock(s, root, Page(start), Page(x), 1);
    assert Kept(s, s', root, Page(x), 1);
    PageIndex(x);
  }

  lemma Within(start: int, delta: int)
    requires 0 <= start && start % FOUR_KB == 0 && 0 <= delta && (start / FOUR_KB) % 512 + delta < 512
    ensures var x := start + FOUR_KB * delta;
            && start / PDT_SIZE == x / PDT_SIZE && start / REGION == x / REGION
            && (x / FOUR_KB) % 512 == (start / FOUR_KB) % 512 + delta
            && (x - start) / FOUR_KB == delta
  {
    var a := start / FOUR_KB;
    var h, i := a / 512, a % 512;
    var x := start + FOUR_KB * delta;
    assert x == PDT_SIZE * h + FOUR_KB * (i + delta) && start == PDT_SIZE * h + FOUR_KB * i;
    assert x / PDT_SIZE == h && start / PDT_SIZE == h;
    assert x / FOUR_KB == 512 * h + (i + delta);
    assert x / REGION == h / 0x800_0000 && start / REGION == h / 0x800_0000;
  }

  lemma GrownSameLeaves(s: Space, t: int, i: int, c: int, isKernel: bool)
    requires SpaceOk(s) && t in s.mem && t in s.level && 0 <= i < |s.mem[t]| == 512 && s.level[t] > 1
    requires !Present(s.mem[t][i]) && c !in s.mem && IsBase(c)
    ensures SameLeaves(s, Grown(s, t, i, c, isKernel))
  {
    hide SpaceOk, Leaf, Grown, Present;
    var s' := Grown(s, t, i, c, isKernel);
    forall r, p ensures Leaf(s', r, p) == Leaf(s, r, p) { GrownLeaf(s, t, i, c, isKernel, r, p); }
  }

  /** A new table under a lower level is no root, and touches none. */
  lemma GrownRoots(s: Space, t: int, i: int, c: int, isKernel: bool)
    requires SpaceOk(s) && t in s.mem && t in s.level && 0 <= i < |s.mem[t]| == 512 && s.level[t] > 1 && c !in s.mem
    ensures var s' := Grown(s, t, i, c, isKernel);
            && (forall r :: IsRoot(s', r) <==> IsRoot(s, r))
            && (forall r | IsRoot(s, r) && r != t :: s'.mem[r] == s.mem[r])
  {
    RootLevels(s, t);
  }

  lemma NotStarted(start: int, end: int, b: int)
    requires b > 0
    ensures Reached(start, end, b, 0) == start
  {
  }

  lemma Offsets(start: int, end: int, b: int)
    requires b == PDT_SIZE || b == PDPT_SIZE || b == PML4_SIZE
    requires 0 <= start < end && BlockOf(start, 512 * b) == BlockOf(end - 1, 512 * b)
    ensures 0 <= OffsetIn(start, b) <= OffsetIn(end - 1, b) < 512
    ensures OffsetIn(end - 1, b) - OffsetIn(start, b) == BlockOf(end - 1, b) - BlockOf(start, b)
  {
    UpperBlock(start, b);
    UpperBlock(end - 1, b);
  }

  lemma UpperBlock(x: int, b: int)
    requires b == PDT_SIZE || b == PDPT_SIZE || b == PML4_SIZE
    requires 0 <= x
    ensures (x / b) / 512 == x / (512 * b)
  {
    if b == PDT_SIZE {
      assert (x / 0x20_0000) / 512 == x / 0x4000_0000;
    } else if b == PDPT_SIZE {
      assert (x / 0x4000_0000) / 512 == x / 0x80_0000_0000;
    } else {
      assert (x / 0x80_0000_0000) / 512 == x / 0x1_0000_0000_0000;
    }
  }

  lemma Between(x: int, y: int, z: int, b: int)
    requires b == PDPT_SIZE || b == PML4_SIZE || b == REGION
    requires x <= y <= z && BlockOf(x, b) == BlockOf(z, b)
    ensures BlockOf(x, b) == BlockOf(y, b)
  {
  }

  /** The offset of the block that the loop has come to. */
  lemma NextOffset(start: int, x: int, b: int, delta: int)
    requires b > 0 && BlockOf(x, b) == BlockOf(start, b) + delta && 0 <= delta && OffsetIn(start, b) + delta < 512
    ensures OffsetIn(x, b) == OffsetIn(start, b) + delta
  {
  }

  lemma IndexOf(x: int, l: int)
    requires 0 <= x && 2 <= l <= 4
    ensures Idx(Page(x), l) == OffsetIn(x, FOUR_KB * Span(l - 1))
  {
    PageIndex(x);
  }

  /** Blocks of `b` bytes are what the entries of a table of level `l` map. */
  predicate Levels(b: int, outer: int, l: int) {
    || (b == PDT_SIZE && outer == PDPT_SIZE && l == 2)
    || (b == PDPT_SIZE && outer == PML4_SIZE && l == 3)
    || (b == PML4_SIZE && outer == REGION && l == 4)
  }

  /** All that a turn of one of the loops needs of its part of the range. */
  lemma PieceFacts(start: int, end: int, b: int, outer: int, l: int, pa: int, delta: int)
    requires Levels(b, outer, l) && 0 <= start < end && start % FOUR_KB == 0 && end % FOUR_KB == 0
    requires BlockOf(start, outer) == BlockOf(end - 1, outer) && IsBase(pa) && pa + (end - start) <= MEMORY
    requires 0 <= delta <= OffsetIn(end - 1, b) - OffsetIn(start, b)
    ensures var s0 := BlockStart(start, b);
            var lo, hi := Max(start, s0 + delta * b), Min(end, s0 + (delta + 1) * b);
            && start <= lo < hi <= end && lo % FOUR_KB == 0 && hi % FOUR_KB == 0
            && BlockOf(lo, b) == BlockOf(hi - 1, b) && BlockOf(start, outer) == BlockOf(lo, outer)
            && lo == Reached(start, end, b, delta) && hi == Reached(start, end, b, delta + 1)
            && (delta == OffsetIn(end - 1, b) - OffsetIn(start, b) ==> hi == end)
            && Idx(Page(lo), l) == OffsetIn(start, b) + delta
            && IsBase(pa + (lo - start)) && pa + (lo - start) + (hi - lo) <= MEMORY
  {
    hide Reached, Max, Min, BlockOf, OffsetIn, BlockStart, Idx, Page, IsBase;
    Offsets(start, end, b);
    Piece(start, end, b, delta);
    var lo := Max(start, BlockStart(start, b) + delta * b);
    Between(start, lo, end - 1, outer);
    NextOffset(start, lo, b, delta);
    IndexOf(lo, l);
    AlignedSum(pa, start, lo, end);
  }

  lemma PieceInTable(s: Space, s': Space, root: int, start: int, x: int, l: int, t: int)
    requires Keeps(s, s') && SpaceOk(s) && Node(s, root, Page(start), l) == Some(t) && 2 <= l <= 3
    requires 0 <= start <= x && BlockOf(start, FOUR_KB * Span(l)) == BlockOf(x, FOUR_KB * Span(l))
    ensures Node(s', root, Page(x), l) == Some(t) && BlockOf(start, REGION) == BlockOf(x, REGION)
  {
    hide Node, SpaceOk, Page, IsRoot, Span;
    SameBlockPages(start, x, l);
    SameBlock(s, root, Page(start), Page(x), l);
    assert Kept(s, s', root, Page(x), l);
  }

  lemma Descended(s: Space, s': Space, root: int, p: int, l: int, t: int, offset: int)
    requires Keeps(s, s') && 2 <= l <= 4 && Node(s, root, p, l) == Some(t) && Idx(p, l) == offset
    requires t in s'.mem && |s'.mem[t]| == 512 && Present(s'.mem[t][offset])
    ensures Node(s', root, p, l - 1) == Some(BaseAddress(s'.mem[t][offset]))
  {
    hide Node, IsRoot, Idx, Present, BaseAddress;
    assert Kept(s, s', root, p, l);
    NextNode(s', root, p, l);
  }

  lemma AtLeastPage(start: int, end: int)
    requires start < end && start % FOUR_KB == 0 && end % FOUR_KB == 0
    ensures start + FOUR_KB <= end
  {
  }

  lemma AlignedSum(pa: int, start: int, x: int, end: int)
    requires IsBase(pa) && start % FOUR_KB == 0 && x % FOUR_KB == 0 && start <= x < end && pa + (end - start) <= MEMORY
    ensures IsBase(pa + (x - start))
  {
  }

  lemma FrameInRange(pa: int, start: int, end: int, delta: int)
    requires IsBase(pa) && pa + (end - start) <= MEMORY && 0 <= delta < (end - start) / FOUR_KB
    ensures IsBase(pa + FOUR_KB * delta)
  {
  }

  /** The pages of one block of addresses are reached through the same entry. */
  lemma PiecePages(lo: int, hi: int, l: int, p: int)
    requires 2 <= l <= 4 && 0 <= lo < hi && lo % FOUR_KB == 0 && hi % FOUR_KB == 0
    requires BlockOf(lo, FOUR_KB * Span(l - 1)) == BlockOf(hi - 1, FOUR_KB * Span(l - 1))
    requires Page(lo) <= p < Page(lo) + (hi - lo) / FOUR_KB
    ensures Together(p, Page(lo), l)
  {
    hide Page, Span;
    var x, b := lo + FOUR_KB * (p - Page(lo)), FOUR_KB * Span(l - 1);
    assert lo <= x <= hi - 1;
    BetweenBlocks(lo, x, hi - 1, l - 1);
    SameBlockPages(lo, x, l - 1);
    PageShift(lo, x);
  }

  lemma BetweenBlocks(x: int, y: int, z: int, l: int)
    requires 1 <= l <= 3 && x <= y <= z && x / (FOUR_KB * Span(l)) == z / (FOUR_KB * Span(l))
    ensures x / (FOUR_KB * Span(l)) == y / (FOUR_KB * Span(l))
  {
  }

  /** All pages under an entry that lets the user through are open as far as they are below
      it. */
  lemma UserUnder(s: Space, s1: Space, s2: Space, root: int, lo: int, hi: int, l: int, t: int, i: int)
    requires 2 <= l <= 4 && 0 <= lo < hi && lo % FOUR_KB == 0 && hi % FOUR_KB == 0
    requires BlockOf(lo, FOUR_KB * Span(l - 1)) == BlockOf(hi - 1, FOUR_KB * Span(l - 1))
    requires Keeps(s, s1) && Keeps(s1, s2) && Node(s, root, Page(lo), l) == Some(t) && Idx(Page(lo), l) == i
    requires t in s1.mem && |s1.mem[t]| == 512 && Present(s1.mem[t][i]) && UserAccessible(s1.mem[t][i])
    requires UserWalk(s2, root, Page(lo), (hi - lo) / FOUR_KB, l - 1)
    ensures UserWalk(s2, root, Page(lo), (hi - lo) / FOUR_KB, l)
  {
    hide Page, IsRoot, Present, UserAccessible, Idx, Node, BlockOf, Together;
    var first, n := Page(lo), (hi - lo) / FOUR_KB;
    assert Kept(s, s1, root, first, l);
    forall p, k {:trigger UserAt(s2, root, p, k)} | first <= p < first + n && 2 <= k <= l
      ensures UserAt(s2, root, p, k)
    {
      if k == l {
        PiecePages(lo, hi, l, p);
        SameEntry(s1, root, p, first, l);
        assert Kept(s1, s2, root, p, l);
      }
    }
  }

  /** The part of a range under one entry joins those before it. */
  lemma CombineUser(s1: Space, s2: Space, root: int, start: int, lo: int, hi: int, l: int)
    requires 2 <= l <= 4 && 0 <= start <= lo < hi && BlockOf(start, REGION) == BlockOf(lo, REGION)
    requires start % FOUR_KB == 0 && lo % FOUR_KB == 0 && hi % FOUR_KB == 0
    requires Keeps(s1, s2) && UserWalk(s1, root, Page(start), (lo - start) / FOUR_KB, l)
    requires UserWalk(s2, root, Page(lo), (hi - lo) / FOUR_KB, l)
    ensures UserWalk(s2, root, Page(start), (hi - start) / FOUR_KB, l)
  {
    hide Page, IsRoot, UserAccessible, EntryAt, Node, BlockOf;
    PageShift2(start, lo);
    var first, n, k := Page(start), (lo - start) / FOUR_KB, (hi - lo) / FOUR_KB;
    assert lo - start == FOUR_KB * n && hi - lo == FOUR_KB * k;
    assert (hi - start) / FOUR_KB == n + k;
    forall p, i {:trigger UserAt(s2, root, p, i)} | first <= p < first + (n + k) && 2 <= i <= l
      ensures UserAt(s2, root, p, i)
    {
      if p < first + n {
        assert UserAt(s1, root, p, i);
        assert Kept(s1, s2, root, p, i);
      }
    }
  }

  lemma PageShift2(start: int, x: int)
    requires 0 <= start <= x && start % FOUR_KB == 0 && BlockOf(start, REGION) == BlockOf(x, REGION)
    ensures Page(x) == Page(start) + (x - start) / FOUR_KB
  {
    PageShift(start, x);
  }

  /** Going down to the next table opens what leads to the first page, at most. */
  lemma OpensAfter(s: Space, s1: Space, s2: Space, root: int, lo: int, hi: int, isKernel: bool)
    requires lo < hi && lo % FOUR_KB == 0 && hi % FOUR_KB == 0
    requires OpensOnly(s, s1, root, Page(lo), 1, isKernel)
    requires OpensOnly(s1, s2, root, Page(lo), (hi - lo) / FOUR_KB, isKernel)
    ensures OpensOnly(s, s2, root, Page(lo), (hi - lo) / FOUR_KB, isKernel)
  {
    hide OpensOnly, Page;
    var p, n := Page(lo), (hi - lo) / FOUR_KB;
    assert n >= 1;
    OpensTrans(s, s1, s2, root, p, 1, p, n, p, n, isKernel);
  }

  lemma CombineOpens(s: Space, s1: Space, s2: Space, root: int, start: int, lo: int, hi: int, isKernel: bool)
    requires 0 <= start <= lo < hi && BlockOf(start, REGION) == BlockOf(lo, REGION)
    requires start % FOUR_KB == 0 && lo % FOUR_KB == 0 && hi % FOUR_KB == 0
    requires OpensOnly(s, s1, root, Page(start), (lo - start) / FOUR_KB, isKernel)
    requires OpensOnly(s1, s2, root, Page(lo), (hi - lo) / FOUR_KB, isKernel)
    ensures OpensOnly(s, s2, root, Page(start), (hi - start) / FOUR_KB, isKernel)
  {
    hide OpensOnly, Page, BlockOf;
    PageShift2(start, lo);
    var p, n, k := Page(start), (lo - start) / FOUR_KB, (hi - lo) / FOUR_KB;
    assert lo - start == FOUR_KB * n && hi - lo == FOUR_KB * k;
    assert (hi - start) / FOUR_KB == n + k;
    OpensTrans(s, s1, s2, root, p, n, p + n, k, p, n + k, isKernel);
  }

  lemma MappedAfter(s: Space, s1: Space, s2: Space, root: int, first: int, n: int, pa: int, isKernel: bool)
    requires Keeps(s, s1) && SameLeaves(s, s1) && Keeps(s1, s2) && Mapped(s1, s2, root, first, n, pa, isKernel)
    ensures Keeps(s, s2) && Mapped(s, s2, root, first, n, pa, isKernel)
  {
    hide Leaf, Entry, Sees, Node, IsRoot;
    KeepsTrans(s, s1, s2);
    forall r, p | 0 <= p < PAGES ensures MappedAt(s, s2, root, first, n, pa, isKernel, r, p) {
      assert MappedAt(s1, s2, root, first, n, pa, isKernel, r, p);
    }
  }

  lemma Combine(s: Space, s1: Space, s2: Space, root: int, start: int, lo: int, hi: int, pa: int, isKernel: bool)
    requires 0 <= start <= lo < hi && start % FOUR_KB == 0 && lo % FOUR_KB == 0 && hi % FOUR_KB == 0
    requires BlockOf(start, REGION) == BlockOf(lo, REGION)
    requires Keeps(s, s1) && Mapped(s, s1, root, Page(start), (lo - start) / FOUR_KB, pa, isKernel)
    requires Keeps(s1, s2) && Mapped(s1, s2, root, Page(lo), (hi - lo) / FOUR_KB, pa + (lo - start), isKernel)
    ensures Keeps(s, s2) && Mapped(s, s2, root, Page(start), (hi - start) / FOUR_KB, pa, isKernel)
  {
    hide Keeps, Mapped, Page, Leaf, BlockOf;
    PageShift2(start, lo);
    KeepsTrans(s, s1, s2);
    var n, k := (lo - start) / FOUR_KB, (hi - lo) / FOUR_KB;
    assert lo - start == FOUR_KB * n && hi - lo == FOUR_KB * k;
    assert (hi - start) / FOUR_KB == n + k;
    MappedMore(s, s1, s2, root, Page(start), n, k, pa, isKernel);
  }

  lemma RootedFollows(s: Space, r: int, e: int)
    requires SpaceOk(s) && r !in s.mem && IsBase(r)
    requires forall q | IsRoot(s, q) :: s.mem[q][511] == e
    requires Present(e) ==> exists q :: IsRoot(s, q)
    ensures Follows(s, Create(r), Rooted(s, r, e))
  {
    hide Leaf, Present, BaseAddress, SpaceOk, UserAt, EMPTY_ENTRY;
    var s' := Rooted(s, r, e);
    RootedOk(s, r, e);
    forall x, p | x != r ensures Leaf(s', x, p) == Leaf(s, x, p) { RootedLeaf(s, r, e, x, p); }
    forall p | 0 <= p < PAGES && (p / Span(3) != 511 || forall q :: !IsRoot(s, q)) ensures Leaf(s', r, p) == 0 {
      TopIndex(p);
      EmptyEntry();
      EmptyLeaf(s', r, p);
    }
    forall x, p, l {:trigger Kept(s, s', x, p, l)} | 1 <= l <= 4 ensures Kept(s, s', x, p, l) {
      RootedKept(s, r, e, x, p, l);
    }
    forall x, p, l | 0 <= p < PAGES && 2 <= l <= 4 ensures OpenFrom(s, s', r, x, p, l) {
      if x != r {
        RootedKept(s, r, e, x, p, l);
      } else if UserAt(s', r, p, l) {
        RootedOpens(s, r, e, p, l);
      }
    }
  }

  lemma RootedShared(s: Space, r: int, e: int, shared: seq<(int, int)>)
    requires SharedWith(s, shared) && r !in s.mem && e == if shared == [] then EMPTY_ENTRY else shared[0].1
    ensures SharedWith(Rooted(s, r, e), shared)
  {
    hide Present, EMPTY_ENTRY;
    var s' := Rooted(s, r, e);
    forall q | IsRoot(s', q) ensures s'.mem[q][511] == e { assert q != r ==> IsRoot(s, q); }
    assert IsRoot(s', r);
  }

  lemma RootedKept(s: Space, r: int, e: int, x: int, p: int, l: int)
    requires SpaceOk(s) && r !in s.mem && IsBase(r) && 1 <= l <= 4
    ensures Kept(s, Rooted(s, r, e), x, p, l)
    ensures x != r ==> (UserAt(Rooted(s, r, e), x, p, l) <==> UserAt(s, x, p, l))
  {
    hide Present, BaseAddress, SpaceOk, Node, UserAccessible;
    EmptyEntry();
    if x == r {
      if Node(s, r, p, l).Some? { NodeRoot(s, r, p, l); }
    } else {
      RootedNode(s, r, e, x, p, l);
      if Node(s, x, p, l).Some? { NodeOk(s, x, p, l); }
    }
  }

  lemma EmptyLeaf(s: Space, r: int, p: int)
    requires IsRoot(s, r) && 0 <= p < PAGES && !Present(s.mem[r][p / Span(3)])
    ensures Leaf(s, r, p) == 0
  {
    TopIndex(p);
    hide Idx, Present, BaseAddress, Span;
    assert Node(s, r, p, 3) == None;
    assert Node(s, r, p, 2) == None;
  }

  // ----- What mapping means for addresses ---------------------------------------------

  lemma KernelRange()
    ensures RangeOk(KERNEL_VIRTUAL_OFFSET, PDPT_SIZE)
  {
  }

  lemma SameRegion(start: int, va: int, size: int)
    requires RangeOk(start, size) && start <= va < start + size
    ensures BlockOf(va, REGION) == BlockOf(start, REGION)
  {
    hide BlockOf;
    Between2(start, va, start + size - 1);
  }

  lemma Between2(x: int, y: int, z: int)
    requires x <= y <= z && BlockOf(x, REGION) == BlockOf(z, REGION)
    ensures BlockOf(y, REGION) == BlockOf(x, REGION)
  {
  }

  /** The pages of a range are the pages of its addresses. */
  lemma RangePages(start: int, size: int, va: int)
    requires RangeOk(start, size) && 0 <= va && BlockOf(va, REGION) == BlockOf(start, REGION)
    ensures Page(start) <= Page(va) < Page(start) + size / FOUR_KB <==> start <= va < start + size
    ensures FOUR_KB * (Page(va) - Page(start)) + va % FOUR_KB == va - start
  {
    RegionPages(start);
    RegionPages(va);
    hide Page, BlockOf;
    var a, b := start / FOUR_KB, va / FOUR_KB;
    assert start == FOUR_KB * a && va == FOUR_KB * b + va % FOUR_KB && size == FOUR_KB * (size / FOUR_KB);
  }

  /** Bits 63 to 48 of an address are copies of bit 47. */
  predicate Canonical(va: int) {
    0 <= va < REGION / 2 || TWO64 - REGION / 2 <= va < TWO64
  }

  lemma HalfPages(va: int)
    requires Canonical(va)
    ensures Page(va) < PAGES / 2 <==> va < REGION / 2
    ensures BlockOf(va, REGION) == if va < REGION / 2 then 0 else 0xFFFF
  {
    var q := va / FOUR_KB;
    if va >= REGION / 2 { assert q % PAGES == q - 0xFFFF * PAGES; }
  }

  /** A range in one half of the address space has no page in common with the other half. */
  lemma OtherHalf(start: int, size: int, va: int)
    requires RangeOk(start, size) && BlockOf(va, REGION) != BlockOf(start, REGION)
    requires Canonical(va) && Canonical(start) && Canonical(start + size - 1)
    ensures !(Page(start) <= Page(va) < Page(start) + size / FOUR_KB) && !(start <= va < start + size)
  {
    hide Page, Canonical;
    HalfPages(va);
    HalfPages(start);
    HalfPages(start + size - 1);
    LastPageOf(start, size);
  }

  lemma LastPageOf(start: int, size: int)
    requires RangeOk(start, size)
    ensures Page(start + size - 1) == Page(start) + size / FOUR_KB - 1
    ensures BlockOf(start, REGION) == BlockOf(start + size - 1, REGION)
  {
    hide Page;
    PageShift(start, start + size - 1);
  }

  /** After mapping a range, an address in it translates to the frame with the same offset,
      from the root it was mapped for and from all roots if it is the kernel's; every other
      address, in either half of the address space, translates as before. */
  lemma RangeTranslated(s: Space, s': Space, root: int, start: int, size: int, pa: int, isKernel: bool, r: int, va: int)
    requires RangeOk(start, size) && IsBase(pa) && pa + size <= MEMORY
    requires 0 <= va
    requires BlockOf(va, REGION) == BlockOf(start, REGION)
             || (Canonical(va) && Canonical(start) && Canonical(start + size - 1))
    requires Mapped(s, s', root, Page(start), size / FOUR_KB, pa, isKernel)
    ensures Translate(s', r, va) ==
            if start <= va < start + size && IsRoot(s, r) && (r == root || InKernelSlot(va))
            then Some(pa + (va - start))
            else Translate(s, r, va)
  {
    hide Mapped, Translate, Page, RangeOk, BlockOf, IsRoot, Canonical;
    if BlockOf(va, REGION) == BlockOf(start, REGION) {
      RangePages(start, size, va);
    } else {
      OtherHalf(start, size, va);
    }
    MappedTranslates(s, s', root, Page(start), size / FOUR_KB, pa, isKernel, r, va);
    PageSlot(va);
  }

  lemma PageSlot(va: int)
    requires 0 <= va
    ensures Page(va) / Span(3) == 511 <==> InKernelSlot(va)
  {
    PageIndex(va);
    TopIndex(Page(va));
  }

  /** At any time every page table translates the kernel's addresses like every other. */
  lemma KernelShared(s: Space, r: int, q: int, va: int)
    requires SpaceOk(s) && IsRoot(s, r) && IsRoot(s, q) && 0 <= va && InKernelSlot(va)
    ensures Translate(s, r, va) == Translate(s, q, va)
  {
    hide Node, IsRoot, SpaceOk, InKernelSlot, Page;
    PageSlot(va);
    SharedNode(s, r, q, Page(va), 1);
  }
}
