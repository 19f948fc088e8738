/** Four levels of page tables in physical memory, as the processor walks them. */
module PageTables {
  import opened Arithmetic
  import opened Wrappers

  const FOUR_KB := 0x1000
  const PAGES := 0x10_0000_0000 // pages of a 48-bit address space
  const FRAMES := 0x100_0000_0000 // frames of a 52-bit physical address space
  const MEMORY := 0x10_0000_0000_0000 // bytes of them

  // ----- Entries ----------------------------------------------------------------------

  predicate Present(e: int) { e % 2 == 1 }

  predicate Writable(e: int) { (e / 2) % 2 == 1 }

  predicate UserAccessible(e: int) { (e / 4) % 2 == 1 }

  /** Present and writable, open to the user or not, and no other flag. */
  predicate Proper(e: int) { e % FOUR_KB == 3 || e % FOUR_KB == 7 }

  // Bits 51 to 12.
  function BaseAddress(e: int): int { (e / FOUR_KB) % FRAMES * FOUR_KB }

  /** Where a table or a page can be. */
  predicate IsBase(a: int) { 0 <= a < MEMORY && a % FOUR_KB == 0 }

  /** The entry for a table or page at `base`. */
  function Entry(base: int, isKernel: bool): int { SetEntry(base, true, true, isKernel) }

  // The three lowest bits are zero in the address of a table or page.
  function SetEntry(base: int, present: bool, rw: bool, isKernel: bool): int {
    base + (if present then 1 else 0) + (if rw then 2 else 0) + (if isKernel then 0 else 4)
  }

  function WithUser(e: int): int { if UserAccessible(e) then e else e + 4 }

  // What a new table is filled with: not present, but open to the user.
  const EMPTY_ENTRY := SetEntry(0, false, false, false)

  lemma EntryFields(base: int, isKernel: bool)
    requires IsBase(base)
    ensures var e := Entry(base, isKernel);
            Present(e) && BaseAddress(e) == base && (UserAccessible(e) <==> !isKernel) && Writable(e) && Proper(e)
  {
    var q, f := base / FOUR_KB, if isKernel then 3 else 7;
    assert base == FOUR_KB * q;
    PageBits(q, f);
    LowBits(512 * q, f);
  }

  lemma ProperFields(e: int)
    requires Proper(e)
    ensures Present(e) && Writable(e)
  {
    LowBits(512 * (e / FOUR_KB), e % FOUR_KB);
  }

  lemma PageBits(q: int, f: int)
    requires 0 <= f < FOUR_KB
    ensures (FOUR_KB * q + f) / FOUR_KB == q && (FOUR_KB * q + f) % FOUR_KB == f
    ensures 0 <= q < FRAMES ==> BaseAddress(FOUR_KB * q + f) == FOUR_KB * q
  {
    var e := FOUR_KB * q + f;
    assert e / FOUR_KB == q;
  }

  lemma LowBits(x: int, f: int)
    requires 0 <= f < 8
    ensures Present(8 * x + f) == (f % 2 == 1) && UserAccessible(8 * x + f) == (f >= 4)
    ensures Writable(8 * x + f) == (f % 4 >= 2)
  {
    var e, h, g := 8 * x + f, if f < 4 then 0 else 1, if f % 4 < 2 then 0 else 1;
    QuotientIs(e, 4, 2 * x + h, f - 4 * h);
    QuotientIs(2 * x + h, 2, x, h);
    SameRemainder(e, f, 2, 4 * x);
    QuotientIs(e, 2, 4 * x + 2 * h + g, f - 4 * h - 2 * g);
    QuotientIs(4 * x + 2 * h + g, 2, 2 * x + h, g);
  }

  lemma WithUserFields(e: int)
    ensures var u := WithUser(e);
            UserAccessible(u) && (Present(u) <==> Present(e)) && BaseAddress(u) == BaseAddress(e)
    ensures Proper(e) ==> Proper(WithUser(e))
  {
    var x, f := e / 8, e % 8;
    LowBits(x, f);
    WithUserProper(e);
    if f < 4 {
      LowBits(x, f + 4);
      var q, g := x / 512, x % 512;
      PageBits(q, 8 * g + f);
      PageBits(q, 8 * g + f + 4);
    }
  }

  lemma WithUserProper(e: int)
    ensures Proper(e) ==> Proper(WithUser(e))
  {
    var q, f := e / FOUR_KB, e % FOUR_KB;
    if f == 3 || f == 7 {
      LowBits(512 * q, f);
      QuotientIs(WithUser(e), FOUR_KB, q, 7);
    }
  }

  // ----- Tables -----------------------------------------------------------------------

  /** Where the one entry that points to a table is; for the table under slot 511 of every
      top-level table, Slot(-1, 511). */
  datatype Slot = Slot(table: int, index: int)

  /** The tables by base address, with the level of each (4 is the top) and its slot. */
  datatype Space = Space(mem: map<int, seq<int>>, level: map<int, int>, home: map<int, Slot>)

  function HomeOf(s: Space, t: int, i: int): Slot
    requires t in s.level
  {
    if s.level[t] == 4 && i == 511 then Slot(-1, 511) else Slot(t, i)
  }

  /** A present entry is writable, and above the lowest level it points to a table of the level
      below, which no other entry points to. */
  ghost predicate EntryOk(s: Space, t: int, i: int)
    requires t in s.level && t in s.mem && 0 <= i < |s.mem[t]|
  {
    Present(s.mem[t][i]) ==>
      && Proper(s.mem[t][i])
      && (s.level[t] > 1 ==>
            var c := BaseAddress(s.mem[t][i]);
            c in s.mem && c in s.level && c in s.home && s.level[c] == s.level[t] - 1 && s.home[c] == HomeOf(s, t, i))
  }

  ghost predicate TableOk(s: Space, t: int)
    requires t in s.mem
  {
    && t in s.level && 1 <= s.level[t] <= 4 && |s.mem[t]| == 512
    && t % FOUR_KB == 0 && t >= 0
    && forall i {:trigger EntryOk(s, t, i)} | 0 <= i < 512 :: EntryOk(s, t, i)
  }

  predicate IsRoot(s: Space, r: int) { r in s.mem && r in s.level && s.level[r] == 4 && |s.mem[r]| == 512 }

  /** All top-level tables have the same entry for the kernel. */
  ghost predicate Agree(s: Space, r: int, q: int) {
    IsRoot(s, r) && IsRoot(s, q) ==> s.mem[r][511] == s.mem[q][511]
  }

  ghost predicate SpaceOk(s: Space) {
    && (forall t {:trigger TableOk(s, t)} | t in s.mem :: TableOk(s, t))
    && (forall r, q {:trigger Agree(s, r, q)} :: Agree(s, r, q))
  }

  // ----- The walk ---------------------------------------------------------------------

  // The pages under one entry of a table of level l + 1.
  function Span(l: int): (n: int)
    ensures n > 0
  {
    if l <= 0 then 1 else if l == 1 then 0x200 else if l == 2 then 0x4_0000 else if l == 3 then 0x800_0000 else PAGES
  }

  /** The index of page `p` in the table of level `l`. */
  function Idx(p: int, l: int): (i: int)
    ensures 0 <= i < 512
  {
    (p / Span(l - 1)) % 512
  }

  /** The table of level `l` on the walk for page `p` from the root `r`. */
  function Node(s: Space, r: int, p: int, l: int): Option<int>
    decreases 4 - l
  {
    if l >= 4 then
      if IsRoot(s, r) then Some(r) else None
    else
      match Node(s, r, p, l + 1)
      case None => None
      case Some(t) =>
        if t in s.mem && |s.mem[t]| == 512 && Present(s.mem[t][Idx(p, l + 1)])
        then Some(BaseAddress(s.mem[t][Idx(p, l + 1)]))
        else None
  }

  /** The entry of level `l` on the walk for page `p`; zero if the walk ends before, or if
      the entry is not present. */
  function EntryAt(s: Space, r: int, p: int, l: int): int {
    match Node(s, r, p, l)
    case None => 0
    case Some(t) =>
      if t in s.mem && |s.mem[t]| == 512 && Present(s.mem[t][Idx(p, l)]) then s.mem[t][Idx(p, l)] else 0
  }

  /** The lowest entry for page `p`; zero if the page is not present. */
  function Leaf(s: Space, r: int, p: int): int { EntryAt(s, r, p, 1) }

  /** Where the processor finds the byte at a virtual address. */
  function Translate(s: Space, r: int, va: int): Option<int> {
    var e := Leaf(s, r, Page(va));
    if Present(e) then Some(BaseAddress(e) + va % FOUR_KB) else None
  }

  function Page(va: int): (p: int)
    ensures 0 <= p < PAGES
  {
    (va / FOUR_KB) % PAGES
  }

  lemma {:induction false} NodeOk(s: Space, r: int, p: int, l: int)
    requires SpaceOk(s) && 1 <= l <= 4 && Node(s, r, p, l).Some?
    ensures var t := Node(s, r, p, l).value; t in s.mem && t in s.level && s.level[t] == l && |s.mem[t]| == 512
    decreases 4 - l
  {
    hide Idx, Present, BaseAddress;
    if l < 4 {
      NodeOk(s, r, p, l + 1);
      var t := Node(s, r, p, l + 1).value;
      assert TableOk(s, t) && EntryOk(s, t, Idx(p, l + 1));
      assert TableOk(s, Node(s, r, p, l).value);
    }
  }

  lemma NodeHome(s: Space, r: int, p: int, l: int)
    requires SpaceOk(s) && 1 <= l <= 3 && Node(s, r, p, l).Some?
    ensures Node(s, r, p, l + 1).Some?
    ensures var t, c := Node(s, r, p, l + 1).value, Node(s, r, p, l).value;
            c in s.home && t in s.level && s.level[t] == l + 1 && s.home[c] == HomeOf(s, t, Idx(p, l + 1))
  {
    hide Idx, Present, BaseAddress;
    NodeOk(s, r, p, l + 1);
    var t := Node(s, r, p, l + 1).value;
    assert TableOk(s, t) && EntryOk(s, t, Idx(p, l + 1));
  }

  /** The kernel's part of the address space looks the same from every root. */
  predicate Sees(r: int, root: int, p: int) { r == root || p / Span(3) == 511 }

  /** A table is reached in one way only. */
  lemma {:induction false} UniquePath(s: Space, r: int, p: int, r': int, p': int, l: int)
    requires SpaceOk(s) && 1 <= l <= 3 && 0 <= p < PAGES && 0 <= p' < PAGES
    requires Node(s, r, p, l).Some? && Node(s, r', p', l) == Node(s, r, p, l)
    ensures p / Span(l) == p' / Span(l) && Sees(r', r, p')
    decreases 4 - l
  {
    hide Node, SpaceOk, Span, Idx;
    NodeHome(s, r, p, l);
    NodeHome(s, r', p', l);
    TopIndex(p);
    TopIndex(p');
    if l < 3 {
      UniquePath(s, r, p, r', p', l + 1);
      Quotients(p, p', l);
    } else {
      RootNode(s, r, p);
      RootNode(s, r', p');
      RootNotNegative(s, r);
      RootNotNegative(s, r');
    }
  }

  lemma RootNode(s: Space, r: int, p: int)
    requires Node(s, r, p, 4).Some?
    ensures Node(s, r, p, 4).value == r && IsRoot(s, r)
  {
  }

  lemma RootNotNegative(s: Space, r: int)
    requires SpaceOk(s) && IsRoot(s, r)
    ensures r >= 0
  {
    assert TableOk(s, r);
  }

  lemma TopIndex(p: int)
    requires 0 <= p < PAGES
    ensures Idx(p, 4) == p / Span(3)
  {
  }

  lemma Quotients(p: int, p': int, l: int)
    requires 1 <= l <= 2 && p / Span(l + 1) == p' / Span(l + 1) && Idx(p, l + 1) == Idx(p', l + 1)
    ensures p / Span(l) == p' / Span(l)
  {
    Halving(p, l);
    Halving(p', l);
  }

  lemma Halving(p: int, l: int)
    requires 0 <= l <= 2
    ensures (p / Span(l)) / 512 == p / Span(l + 1)
  {
    var u := Span(l);
    var q := p / u;
    var h := q / 512;
    assert p == u * q + p % u && q == 512 * h + q % 512;
    if l == 0 {
      assert p == 512 * h + q % 512;
    } else if l == 1 {
      assert p == 0x4_0000 * h + (0x200 * (q % 512) + p % u);
    } else {
      assert p == 0x800_0000 * h + (0x4_0000 * (q % 512) + p % u);
    }
  }

  /** Pages of the same block have the same table. */
  lemma {:induction false} SameBlock(s: Space, r: int, p: int, p': int, l: int)
    requires 1 <= l <= 4 && p / Span(l) == p' / Span(l)
    ensures Node(s, r, p, l) == Node(s, r, p', l)
    decreases 4 - l
  {
    hide Span, Present, BaseAddress;
    if l < 4 {
      if l < 3 { Halving(p, l); Halving(p', l); } else { TopHalving(p); TopHalving(p'); }
      SameBlock(s, r, p, p', l + 1);
    }
  }

  lemma TopHalving(p: int)
    ensures (p / Span(3)) / 512 == p / Span(4)
  {
    var q := p / 0x800_0000;
    var h := q / 512;
    assert p == 0x800_0000 * q + p % 0x800_0000 && q == 512 * h + q % 512;
    assert p == PAGES * h + (0x800_0000 * (q % 512) + p % 0x800_0000);
  }

  /** Below the shared entry all roots have the same tables. */
  lemma {:induction false} SharedNode(s: Space, r: int, q: int, p: int, l: int)
    requires SpaceOk(s) && IsRoot(s, r) && IsRoot(s, q) && 0 <= p < PAGES && p / Span(3) == 511 && l <= 3
    ensures Node(s, r, p, l) == Node(s, q, p, l)
    decreases 4 - l
  {
    hide Present, Proper, BaseAddress, Idx, Span;
    TopIndex(p);
    if l < 3 { SharedNode(s, r, q, p, l + 1); } else { assert Agree(s, r, q); }
  }

  // ----- Changes ----------------------------------------------------------------------

  /** The entry of level `l` on the walk for page `p` lets the user through. */
  predicate UserAt(s: Space, r: int, p: int, l: int) { UserAccessible(EntryAt(s, r, p, l)) }

  /** Every table that could be reached is reached as before, and what was open to the user
      above the lowest level still is. */
  ghost predicate Kept(s: Space, s': Space, r: int, p: int, l: int) {
    && (Node(s, r, p, l).Some? ==> Node(s', r, p, l) == Node(s, r, p, l))
    && (l >= 2 && UserAt(s, r, p, l) ==> UserAt(s', r, p, l))
  }

  ghost predicate Keeps(s: Space, s': Space) {
    && (forall r :: IsRoot(s', r) <==> IsRoot(s, r))
    && (forall r, p, l {:trigger Kept(s, s', r, p, l)} | 1 <= l <= 4 :: Kept(s, s', r, p, l))
  }

  function EmptyTable(): seq<int> { seq(512, i => EMPTY_ENTRY) }

  /** A new table, none of whose entries is present, is put at an entry that was not present. */
  function Grown(s: Space, t: int, i: int, c: int, isKernel: bool): Space
    requires t in s.mem && t in s.level && 0 <= i < |s.mem[t]|
  {
    Space(s.mem[c := EmptyTable()][t := s.mem[t][i := Entry(c, isKernel)]],
          s.level[c := s.level[t] - 1], s.home[c := HomeOf(s, t, i)])
  }

  lemma GrownOk(s: Space, t: int, i: int, c: int, isKernel: bool)
    requires SpaceOk(s) && t in s.mem && t in s.level && 0 <= i < |s.mem[t]| == 512 && s.level[t] > 1
    requires !Present(s.mem[t][i]) && c !in s.mem && IsBase(c)
    requires s.level[t] == 4 && i == 511 ==> forall r | IsRoot(s, r) :: r == t
    ensures SpaceOk(Grown(s, t, i, c, isKernel))
  {
    hide Present, Proper, BaseAddress, Entry;
    var s' := Grown(s, t, i, c, isKernel);
    EntryFields(c, isKernel);
    EmptyEntry();
    assert TableOk(s, t);
    forall u | u in s'.mem ensures TableOk(s', u) {
      if u != c { assert TableOk(s, u); }
      forall k | 0 <= k < 512 ensures EntryOk(s', u, k) {
        if u != c { assert EntryOk(s, u, k); }
      }
    }
    RootLevels(s, t);
    forall r, q ensures Agree(s', r, q) {
      assert Agree(s, r, q);
      assert IsRoot(s', r) ==> IsRoot(s, r);
      assert IsRoot(s', q) ==> IsRoot(s, q);
    }
  }

  lemma EmptyEntry()
    ensures !Present(EMPTY_ENTRY) && !Present(0) && !UserAccessible(0)
  {
  }

  /** A new table changes no translation. */
  lemma GrownLeaf(s: Space, t: int, i: int, c: int, isKernel: bool, r: int, p: int)
    requires SpaceOk(s) && t in s.mem && t in s.level && 0 <= i < |s.mem[t]| == 512 && s.level[t] > 1
    requires !Present(s.mem[t][i]) && c !in s.mem && IsBase(c)
    ensures Leaf(Grown(s, t, i, c, isKernel), r, p) == Leaf(s, r, p)
  {
    hide Present, Proper, BaseAddress, Entry, Node, Grown;
    EmptyEntry();
    GrownNode(s, t, i, c, isKernel, r, p, 1);
    GrownMem(s, t, i, c, isKernel);
    if Node(s, r, p, 1).Some? { NodeOk(s, r, p, 1); }
  }

  lemma GrownMem(s: Space, t: int, i: int, c: int, isKernel: bool)
    requires t in s.mem && t in s.level && 0 <= i < |s.mem[t]| && c !in s.mem
    ensures var s' := Grown(s, t, i, c, isKernel);
            && c in s'.mem && s'.mem[c] == EmptyTable()
            && forall u | u in s.mem && u != t :: u in s'.mem && s'.mem[u] == s.mem[u]
  {
  }

  lemma {:induction false} GrownNode(s: Space, t: int, i: int, c: int, isKernel: bool, r: int, p: int, l: int)
    requires SpaceOk(s) && t in s.mem && t in s.level && 0 <= i < |s.mem[t]| == 512 && s.level[t] > 1
    requires !Present(s.mem[t][i]) && c !in s.mem && IsBase(c) && 1 <= l <= 4
    ensures var n, n' := Node(s, r, p, l), Node(Grown(s, t, i, c, isKernel), r, p, l);
            n' == n || (l < 4 && n == None && n' == Some(c))
    decreases 4 - l
  {
    hide Present, Proper, BaseAddress, Entry, Idx, SpaceOk;
    var s' := Grown(s, t, i, c, isKernel);
    RootLevels(s, t);
    if l < 4 {
      GrownNode(s, t, i, c, isKernel, r, p, l + 1);
      EntryFields(c, isKernel);
      EmptyEntry();
      if Node(s, r, p, l + 1).Some? { NodeOk(s, r, p, l + 1); }
    } else {
      assert IsRoot(s', r) <==> IsRoot(s, r);
    }
  }

  lemma RootLevels(s: Space, t: int)
    requires SpaceOk(s) && t in s.mem
    ensures t in s.level && 1 <= s.level[t] <= 4
  {
    assert TableOk(s, t);
  }

  lemma GrownKeeps(s: Space, t: int, i: int, c: int, isKernel: bool)
    requires SpaceOk(s) && t in s.mem && t in s.level && 0 <= i < |s.mem[t]| == 512 && s.level[t] > 1
    requires !Present(s.mem[t][i]) && c !in s.mem && IsBase(c)
    ensures Keeps(s, Grown(s, t, i, c, isKernel))
  {
    hide Present, Proper, BaseAddress, Entry, Node;
    var s' := Grown(s, t, i, c, isKernel);
    RootLevels(s, t);
    forall r, p, l {:trigger Kept(s, s', r, p, l)} | 1 <= l <= 4 ensures Kept(s, s', r, p, l) {
      GrownNode(s, t, i, c, isKernel, r, p, l);
    }
  }

  /** An entry above the lowest level is opened to the user. */
  function Opened(s: Space, t: int, i: int): Space
    requires t in s.mem && 0 <= i < |s.mem[t]|
  {
    s.(mem := s.mem[t := s.mem[t][i := WithUser(s.mem[t][i])]])
  }

  lemma OpenedOk(s: Space, t: int, i: int)
    requires SpaceOk(s) && t in s.mem && t in s.level && 0 <= i < |s.mem[t]| == 512
    requires s.level[t] == 4 ==> i < 511
    ensures SpaceOk(Opened(s, t, i))
  {
    hide Present, Proper, BaseAddress, WithUser;
    var s' := Opened(s, t, i);
    WithUserFields(s.mem[t][i]);
    forall u | u in s'.mem ensures TableOk(s', u) {
      assert TableOk(s, u);
      forall k | 0 <= k < 512 ensures EntryOk(s', u, k) { assert EntryOk(s, u, k); }
    }
    forall r, q ensures Agree(s', r, q) { assert Agree(s, r, q); }
  }

  lemma {:induction false} OpenedNode(s: Space, t: int, i: int, r: int, p: int, l: int)
    requires t in s.mem && 0 <= i < |s.mem[t]|
    ensures Node(Opened(s, t, i), r, p, l) == Node(s, r, p, l)
    decreases 4 - l
  {
    hide Present, Proper, BaseAddress, WithUser, Idx;
    WithUserFields(s.mem[t][i]);
    if l < 4 { OpenedNode(s, t, i, r, p, l + 1); }
  }

  lemma OpenedEntry(s: Space, t: int, i: int, r: int, p: int, l: int)
    requires SpaceOk(s) && t in s.mem && t in s.level && 0 <= i < |s.mem[t]| == 512 && s.level[t] > 1 && 1 <= l <= 4
    ensures l == 1 ==> EntryAt(Opened(s, t, i), r, p, l) == EntryAt(s, r, p, l)
    ensures UserAt(s, r, p, l) ==> UserAt(Opened(s, t, i), r, p, l)
  {
    hide Present, Proper, BaseAddress, WithUser, Idx, Node, UserAccessible;
    WithUserFields(s.mem[t][i]);
    OpenedNode(s, t, i, r, p, l);
    if Node(s, r, p, l).Some? { NodeOk(s, r, p, l); }
  }

  lemma OpenedKeeps(s: Space, t: int, i: int)
    requires SpaceOk(s) && t in s.mem && t in s.level && 0 <= i < |s.mem[t]| == 512 && s.level[t] > 1
    ensures Keeps(s, Opened(s, t, i)) && forall r, p :: Leaf(Opened(s, t, i), r, p) == Leaf(s, r, p)
  {
    hide Present, Proper, BaseAddress, WithUser, Idx, Node, EntryAt, UserAt;
    var s' := Opened(s, t, i);
    forall r, p, l {:trigger Kept(s, s', r, p, l)} | 1 <= l <= 4 ensures Kept(s, s', r, p, l) {
      OpenedNode(s, t, i, r, p, l);
      OpenedEntry(s, t, i, r, p, l);
    }
    forall r, p ensures Leaf(s', r, p) == Leaf(s, r, p) { OpenedEntry(s, t, i, r, p, 1); }
  }

  /** A lowest entry is set. */
  function WithLeaf(s: Space, t: int, i: int, e: int): Space
    requires t in s.mem && 0 <= i < |s.mem[t]|
  {
    s.(mem := s.mem[t := s.mem[t][i := e]])
  }

  lemma {:induction false} WithLeafNode(s: Space, t: int, i: int, e: int, r: int, p: int, l: int)
    requires SpaceOk(s) && t in s.mem && t in s.level && 0 <= i < |s.mem[t]| && s.level[t] == 1 && 1 <= l <= 4
    ensures Node(WithLeaf(s, t, i, e), r, p, l) == Node(s, r, p, l)
    decreases 4 - l
  {
    hide Present, Proper, BaseAddress, Idx, SpaceOk;
    if l < 4 {
      WithLeafNode(s, t, i, e, r, p, l + 1);
      if Node(s, r, p, l + 1).Some? { NodeOk(s, r, p, l + 1); }
    }
  }

  lemma WithLeafOk(s: Space, t: int, i: int, e: int)
    requires SpaceOk(s) && t in s.mem && t in s.level && 0 <= i < |s.mem[t]| && s.level[t] == 1 && Proper(e)
    ensures SpaceOk(WithLeaf(s, t, i, e)) && Keeps(s, WithLeaf(s, t, i, e))
  {
    hide Present, Proper, BaseAddress, Node;
    var s' := WithLeaf(s, t, i, e);
    forall u | u in s'.mem ensures TableOk(s', u) {
      assert TableOk(s, u);
      forall k | 0 <= k < 512 ensures EntryOk(s', u, k) { assert EntryOk(s, u, k); }
    }
    forall r, q ensures Agree(s', r, q) { assert Agree(s, r, q); }
    forall r, p, l {:trigger Kept(s, s', r, p, l)} | 1 <= l <= 4 ensures Kept(s, s', r, p, l) {
      WithLeafNode(s, t, i, e, r, p, l);
      if Node(s, r, p, l).Some? { NodeOk(s, r, p, l); }
    }
  }

  /** Setting the lowest entry for page `q` of `root` changes that page, and nothing else. */
  lemma WithLeafEffect(s: Space, root: int, q: int, e: int, r: int, p: int)
    requires SpaceOk(s) && Node(s, root, q, 1).Some? && 0 <= p < PAGES && 0 <= q < PAGES && Present(e)
    ensures var t := Node(s, root, q, 1).value;
            && t in s.mem && t in s.level && s.level[t] == 1 && |s.mem[t]| == 512
            && Leaf(WithLeaf(s, t, Idx(q, 1), e), r, p)
               == if p == q && IsRoot(s, r) && Sees(r, root, p) then e else Leaf(s, r, p)
  {
    hide Present, Proper, BaseAddress, Node, Idx, SpaceOk, Span;
    NodeOk(s, root, q, 1);
    var t := Node(s, root, q, 1).value;
    WithLeafNode(s, t, Idx(q, 1), e, r, p, 1);
    if Node(s, r, p, 1) == Some(t) {
      UniquePath(s, root, q, r, p, 1);
      SamePage(p, q);
    } else if Node(s, r, p, 1).Some? {
      NodeOk(s, r, p, 1);
    }
    if p == q && IsRoot(s, r) && Sees(r, root, p) {
      NodeRoot(s, root, q, 1);
      if r != root { SharedNode(s, r, root, p, 1); }
    }
    if Node(s, r, p, 1).Some? { NodeRoot(s, r, p, 1); }
  }

  lemma SamePage(p: int, q: int)
    requires p / Span(1) == q / Span(1)
    ensures p == q <==> Idx(p, 1) == Idx(q, 1)
  {
  }

  lemma {:induction false} NodeRoot(s: Space, r: int, p: int, l: int)
    requires Node(s, r, p, l).Some? && 1 <= l <= 4
    ensures IsRoot(s, r)
    decreases 4 - l
  {
    hide IsRoot, Present, BaseAddress, Idx;
    if l < 4 { NodeRoot(s, r, p, l + 1); }
  }

  // ----- Roots ------------------------------------------------------------------------

  /** A new top-level table, empty but for the kernel's entry. */
  function Rooted(s: Space, r: int, e: int): Space {
    s.(mem := s.mem[r := EmptyTable()[511 := e]], level := s.level[r := 4])
  }

  lemma RootedOk(s: Space, r: int, e: int)
    requires SpaceOk(s) && r !in s.mem && IsBase(r)
    requires forall q | IsRoot(s, q) :: s.mem[q][511] == e
    requires Present(e) ==> exists q :: IsRoot(s, q)
    ensures SpaceOk(Rooted(s, r, e))
  {
    hide Present, Proper, BaseAddress;
    EmptyEntry();
    var s' := Rooted(s, r, e);
    forall u | u in s'.mem ensures TableOk(s', u) {
      if u != r { assert TableOk(s, u); }
      forall k | 0 <= k < 512 ensures EntryOk(s', u, k) {
        if u != r {
          assert EntryOk(s, u, k);
        } else if k == 511 && Present(e) {
          var q :| IsRoot(s, q);
          assert TableOk(s, q) && EntryOk(s, q, 511);
        }
      }
    }
    forall x, q ensures Agree(s', x, q) { assert Agree(s, x, q); }
  }

  lemma {:induction false} RootedNode(s: Space, r: int, e: int, x: int, p: int, l: int)
    requires SpaceOk(s) && r !in s.mem && x != r && 1 <= l <= 4
    ensures Node(Rooted(s, r, e), x, p, l) == Node(s, x, p, l)
    decreases 4 - l
  {
    hide Present, Proper, BaseAddress, Idx, SpaceOk;
    if l < 4 {
      RootedNode(s, r, e, x, p, l + 1);
      if Node(s, x, p, l + 1).Some? { NodeOk(s, x, p, l + 1); }
    }
  }

  /** A new root changes no translation from another root, and translates the kernel's part
      of the address space like them. */
  lemma RootedLeaf(s: Space, r: int, e: int, x: int, p: int)
    requires SpaceOk(s) && r !in s.mem && IsBase(r)
    requires forall q | IsRoot(s, q) :: s.mem[q][511] == e
    requires Present(e) ==> exists q :: IsRoot(s, q)
    ensures var s' := Rooted(s, r, e);
            && (x != r ==> Leaf(s', x, p) == Leaf(s, x, p))
            && (IsRoot(s, x) && 0 <= p < PAGES && p / Span(3) == 511 ==> Leaf(s', r, p) == Leaf(s, x, p))
  {
    hide Present, Proper, BaseAddress, Idx, Node, SpaceOk, Span;
    var s' := Rooted(s, r, e);
    RootedOk(s, r, e);
    if x != r {
      RootedNode(s, r, e, x, p, 1);
      if Node(s, x, p, 1).Some? { NodeOk(s, x, p, 1); }
    }
    if IsRoot(s, x) && 0 <= p < PAGES && p / Span(3) == 511 { SharedNode(s', r, x, p, 1); }
  }

  // ----- What may be written ----------------------------------------------------------

  /** The entry of level `l` on the walk for page `p` lets the page be written. */
  predicate WritableAt(s: Space, r: int, p: int, l: int) { Writable(EntryAt(s, r, p, l)) }

  /** The page may be written: the walk comes to an end, and each entry allows it. */
  predicate WritableReaches(s: Space, r: int, p: int) {
    WritableAt(s, r, p, 4) && WritableAt(s, r, p, 3) && WritableAt(s, r, p, 2) && WritableAt(s, r, p, 1)
  }

  lemma EntryWritable(s: Space, r: int, p: int, l: int)
    requires SpaceOk(s) && 1 <= l <= 4
    ensures WritableAt(s, r, p, l) <==> Present(EntryAt(s, r, p, l))
    ensures Present(EntryAt(s, r, p, l)) && l < 4 ==> Present(EntryAt(s, r, p, l + 1))
  {
    hide Proper, Writable, BaseAddress, Idx;
    EmptyWritable();
    EmptyEntry();
    if Node(s, r, p, l).Some? {
      NodeOk(s, r, p, l);
      var t := Node(s, r, p, l).value;
      assert TableOk(s, t) && EntryOk(s, t, Idx(p, l));
      if Present(EntryAt(s, r, p, l)) { ProperFields(EntryAt(s, r, p, l)); }
    }
  }

  lemma EmptyWritable()
    ensures !Writable(0)
  {
  }

  /** A page that is present may be written, at every level. */
  lemma PresentWritable(s: Space, r: int, p: int)
    requires SpaceOk(s)
    ensures WritableReaches(s, r, p) <==> Present(Leaf(s, r, p))
  {
    hide EntryAt, WritableAt, Present;
    EntryWritable(s, r, p, 1);
    EntryWritable(s, r, p, 2);
    EntryWritable(s, r, p, 3);
    EntryWritable(s, r, p, 4);
  }

  // ----- Ranges -----------------------------------------------------------------------

  /** From root `r` page `p` now has the entry it should have. */
  ghost predicate MappedAt(
    s: Space, s': Space, root: int, first: int, n: int, pa: int, isKernel: bool, r: int, p: int)
  {
    Leaf(s', r, p) == if first <= p < first + n && IsRoot(s, r) && Sees(r, root, p)
                      then Entry(pa + FOUR_KB * (p - first), isKernel)
                      else Leaf(s, r, p)
  }

  /** `n` pages from page `first` on are mapped to the frames from `pa` on, for `root` and
      for all that share the tables; every other page is left as it was. */
  ghost predicate Mapped(s: Space, s': Space, root: int, first: int, n: int, pa: int, isKernel: bool) {
    forall r, p {:trigger MappedAt(s, s', root, first, n, pa, isKernel, r, p)} | 0 <= p < PAGES ::
      MappedAt(s, s', root, first, n, pa, isKernel, r, p)
  }

  lemma MappedNothing(s: Space, root: int, first: int, pa: int, isKernel: bool)
    ensures Mapped(s, s, root, first, 0, pa, isKernel) && Keeps(s, s)
  {
    forall r, p | 0 <= p < PAGES ensures MappedAt(s, s, root, first, 0, pa, isKernel, r, p) {}
    forall r, p, l | 1 <= l <= 4 ensures Kept(s, s, r, p, l) {}
  }

  lemma MappedSame(s: Space, s': Space, s'': Space, root: int, first: int, n: int, pa: int, isKernel: bool)
    requires Mapped(s, s', root, first, n, pa, isKernel) && forall r, p :: Leaf(s'', r, p) == Leaf(s', r, p)
    ensures Mapped(s, s'', root, first, n, pa, isKernel)
  {
    hide Leaf, Entry, Sees;
    forall r, p | 0 <= p < PAGES ensures MappedAt(s, s'', root, first, n, pa, isKernel, r, p) {
      assert MappedAt(s, s', root, first, n, pa, isKernel, r, p);
    }
  }

  lemma MappedMore(s: Space, s': Space, s'': Space, root: int, first: int, n: int, k: int, pa: int, isKernel: bool)
    requires n >= 0 && k >= 0 && Keeps(s, s') && Mapped(s, s', root, first, n, pa, isKernel)
    requires Mapped(s', s'', root, first + n, k, pa + FOUR_KB * n, isKernel)
    ensures Mapped(s, s'', root, first, n + k, pa, isKernel)
  {
    hide Leaf, Entry, Sees, Node;
    var m := n + k;
    forall r, p | 0 <= p < PAGES ensures MappedAt(s, s'', root, first, m, pa, isKernel, r, p) {
      assert MappedAt(s, s', root, first, n, pa, isKernel, r, p);
      assert MappedAt(s', s'', root, first + n, k, pa + FOUR_KB * n, isKernel, r, p);
      assert pa + FOUR_KB * n + FOUR_KB * (p - (first + n)) == pa + FOUR_KB * (p - first);
    }
  }

  lemma MappedOne(s: Space, root: int, q: int, pa: int, isKernel: bool)
    requires SpaceOk(s) && Node(s, root, q, 1).Some? && 0 <= q < PAGES && IsBase(pa)
    ensures var t := Node(s, root, q, 1).value;
            && t in s.mem && t in s.level && s.level[t] == 1 && |s.mem[t]| == 512
            && Mapped(s, WithLeaf(s, t, Idx(q, 1), Entry(pa, isKernel)), root, q, 1, pa, isKernel)
  {
    hide Leaf, Entry, Sees, Node, SpaceOk, Idx, Present;
    EntryFields(pa, isKernel);
    NodeOk(s, root, q, 1);
    var t := Node(s, root, q, 1).value;
    var s' := WithLeaf(s, t, Idx(q, 1), Entry(pa, isKernel));
    forall r, p | 0 <= p < PAGES ensures MappedAt(s, s', root, q, 1, pa, isKernel, r, p) {
      WithLeafEffect(s, root, q, Entry(pa, isKernel), r, p);
      assert p == q ==> pa + FOUR_KB * (p - q) == pa;
    }
  }

  lemma KeepsTrans(s: Space, s': Space, s'': Space)
    requires Keeps(s, s') && Keeps(s', s'')
    ensures Keeps(s, s'')
  {
    hide Node, IsRoot;
    forall r, p, l | 1 <= l <= 4 ensures Kept(s, s'', r, p, l) {
      assert Kept(s, s', r, p, l) && Kept(s', s'', r, p, l);
    }
  }

  /** What the mapping means for an address: it translates to the frame of its page plus its
      offset in the page. */
  lemma MappedTranslates(s: Space, s': Space, root: int, first: int, n: int, pa: int, isKernel: bool, r: int, va: int)
    requires Mapped(s, s', root, first, n, pa, isKernel)
    requires IsBase(pa) && pa + FOUR_KB * n <= MEMORY
    ensures Translate(s', r, va) ==
            if first <= Page(va) < first + n && IsRoot(s, r) && Sees(r, root, Page(va))
            then Some(pa + FOUR_KB * (Page(va) - first) + va % FOUR_KB)
            else Translate(s, r, va)
  {
    hide Leaf, Sees, Entry, Present, BaseAddress, Page;
    var p := Page(va);
    assert MappedAt(s, s', root, first, n, pa, isKernel, r, p);
    Aligned(pa, p - first);
    if first <= p < first + n { EntryFields(pa + FOUR_KB * (p - first), isKernel); }
  }

  lemma Aligned(pa: int, k: int)
    requires pa % FOUR_KB == 0
    ensures (pa + FOUR_KB * k) % FOUR_KB == 0
  {
  }

  // ----- What is open to the user -----------------------------------------------------

  /** The user gets through the entries of levels 2 to `top` on the walks for `n` pages. */
  ghost predicate UserWalk(s: Space, root: int, first: int, n: int, top: int) {
    forall p, l {:trigger UserAt(s, root, p, l)} | first <= p < first + n && 2 <= l <= top :: UserAt(s, root, p, l)
  }

  /** The walks for the two pages go through the same entry of level `l`. */
  predicate Together(p: int, p': int, l: int) { p / Span(l - 1) == p' / Span(l - 1) }

  lemma SameEntry(s: Space, r: int, p: int, p': int, l: int)
    requires 2 <= l <= 4 && Together(p, p', l)
    ensures EntryAt(s, r, p, l) == EntryAt(s, r, p', l)
  {
    hide Span, Present, Node;
    if l < 4 { Halving(p, l - 1); Halving(p', l - 1); } else { TopHalving(p); TopHalving(p'); }
    SameBlock(s, r, p, p', l);
  }

  /** One of the `n` pages is reached through the same entry of level `l` as page `p`. */
  ghost predicate Beside(first: int, n: int, p: int, l: int) {
    exists q {:trigger Together(q, p, l)} :: first <= q < first + n && Together(q, p, l)
  }

  ghost predicate OpenAt(
    s: Space, s': Space, root: int, first: int, n: int, isKernel: bool, r: int, p: int, l: int)
  {
    UserAt(s', r, p, l) ==> UserAt(s, r, p, l) || (!isKernel && Sees(r, root, p) && Beside(first, n, p, l))
  }

  /** Nothing is opened for the kernel, and for the user no more than what leads to the pages. */
  ghost predicate OpensOnly(s: Space, s': Space, root: int, first: int, n: int, isKernel: bool) {
    forall r, p, l {:trigger OpenAt(s, s', root, first, n, isKernel, r, p, l)} | 0 <= p < PAGES && 2 <= l <= 4 ::
      OpenAt(s, s', root, first, n, isKernel, r, p, l)
  }

  lemma OpensNothing(s: Space, root: int, first: int, n: int, isKernel: bool)
    ensures OpensOnly(s, s, root, first, n, isKernel)
  {
    forall r, p, l | 0 <= p < PAGES && 2 <= l <= 4 ensures OpenAt(s, s, root, first, n, isKernel, r, p, l) {}
  }

  /** What two steps open lies in any range that holds those of both. */
  lemma OpensTrans(
    s: Space, s1: Space, s2: Space, root: int, f1: int, n1: int, f2: int, n2: int, first: int, n: int, isKernel: bool)
    requires OpensOnly(s, s1, root, f1, n1, isKernel) && OpensOnly(s1, s2, root, f2, n2, isKernel)
    requires first <= f1 && f1 + n1 <= first + n && first <= f2 && f2 + n2 <= first + n
    ensures OpensOnly(s, s2, root, first, n, isKernel)
  {
    hide UserAt, Sees, Together;
    forall r, p, l | 0 <= p < PAGES && 2 <= l <= 4 ensures OpenAt(s, s2, root, first, n, isKernel, r, p, l) {
      assert OpenAt(s, s1, root, f1, n1, isKernel, r, p, l) && OpenAt(s1, s2, root, f2, n2, isKernel, r, p, l);
    }
  }

  /** Two walks that come through the same entry. */
  lemma SameWay(s: Space, root: int, q: int, r: int, p: int, l: int)
    requires SpaceOk(s) && 2 <= l <= 4 && 0 <= p < PAGES && 0 <= q < PAGES
    requires Node(s, root, q, l).Some? && Node(s, r, p, l) == Node(s, root, q, l) && Idx(p, l) == Idx(q, l)
    ensures Sees(r, root, p) && Beside(q, 1, p, l)
  {
    hide Node, SpaceOk, Span, Idx;
    if l < 4 {
      UniquePath(s, root, q, r, p, l);
      Quotients(q, p, l - 1);
    } else {
      RootNode(s, root, q);
      RootNode(s, r, p);
      TopIndex(p);
      TopIndex(q);
    }
    assert Together(q, p, l);
  }

  lemma GrownOpens(s: Space, t: int, i: int, c: int, isKernel: bool, root: int, q: int, l: int)
    requires SpaceOk(s) && t in s.mem && t in s.level && 0 <= i < |s.mem[t]| == 512 && s.level[t] > 1
    requires !Present(s.mem[t][i]) && c !in s.mem && IsBase(c)
    requires 2 <= l <= 4 && 0 <= q < PAGES && Node(s, root, q, l) == Some(t) && Idx(q, l) == i
    ensures OpensOnly(s, Grown(s, t, i, c, isKernel), root, q, 1, isKernel)
  {
    hide Present, BaseAddress, Entry, Node, Idx, SpaceOk, UserAccessible, Sees, Beside;
    var s' := Grown(s, t, i, c, isKernel);
    EmptyEntry();
    EntryFields(c, isKernel);
    forall r, p, k | 0 <= p < PAGES && 2 <= k <= 4 ensures OpenAt(s, s', root, q, 1, isKernel, r, p, k) {
      GrownNode(s, t, i, c, isKernel, r, p, k);
      if Node(s, r, p, k).Some? { NodeOk(s, r, p, k); }
      NodeOk(s, root, q, l);
      if Node(s, r, p, k) == Some(t) && Idx(p, k) == i { SameWay(s, root, q, r, p, l); }
    }
  }

  lemma OpenedOpens(s: Space, t: int, i: int, root: int, q: int, l: int)
    requires SpaceOk(s) && t in s.mem && t in s.level && 0 <= i < |s.mem[t]| == 512
    requires 2 <= l <= 4 && 0 <= q < PAGES && Node(s, root, q, l) == Some(t) && Idx(q, l) == i
    ensures OpensOnly(s, Opened(s, t, i), root, q, 1, false)
  {
    hide Present, BaseAddress, WithUser, Node, Idx, SpaceOk, UserAccessible, Sees, Beside;
    var s' := Opened(s, t, i);
    WithUserFields(s.mem[t][i]);
    forall r, p, k | 0 <= p < PAGES && 2 <= k <= 4 ensures OpenAt(s, s', root, q, 1, false, r, p, k) {
      OpenedNode(s, t, i, r, p, k);
      if Node(s, r, p, k).Some? { NodeOk(s, r, p, k); }
      NodeOk(s, root, q, l);
      if Node(s, r, p, k) == Some(t) && Idx(p, k) == i { SameWay(s, root, q, r, p, l); }
    }
  }

  lemma WithLeafOpens(s: Space, t: int, i: int, e: int, root: int, q: int, isKernel: bool)
    requires SpaceOk(s) && t in s.mem && t in s.level && 0 <= i < |s.mem[t]| && s.level[t] == 1
    ensures OpensOnly(s, WithLeaf(s, t, i, e), root, q, 1, isKernel)
  {
    hide Present, BaseAddress, Node, Idx, SpaceOk, UserAccessible, Sees, Beside;
    var s' := WithLeaf(s, t, i, e);
    forall r, p, k | 0 <= p < PAGES && 2 <= k <= 4 ensures OpenAt(s, s', root, q, 1, isKernel, r, p, k) {
      WithLeafNode(s, t, i, e, r, p, k);
      if Node(s, r, p, k).Some? { NodeOk(s, r, p, k); }
    }
  }

  /** The user gets no further from a new root than from those there are, and only in the
      kernel's part of the address space. */
  lemma RootedOpens(s: Space, r: int, e: int, p: int, l: int)
    requires SpaceOk(s) && r !in s.mem && IsBase(r) && 0 <= p < PAGES && 2 <= l <= 4
    requires forall q | IsRoot(s, q) :: s.mem[q][511] == e
    requires Present(e) ==> exists q :: IsRoot(s, q)
    requires UserAt(Rooted(s, r, e), r, p, l)
    ensures p / Span(3) == 511 && exists q :: IsRoot(s, q) && UserAt(s, q, p, l)
  {
    hide BaseAddress, SpaceOk, Span, UserAccessible;
    var s' := Rooted(s, r, e);
    EmptyEntry();
    TopIndex(p);
    RootedOk(s, r, e);
    RootedWalk(s, r, e, p, l);
    var q :| IsRoot(s, q);
    assert IsRoot(s', q) && IsRoot(s', r);
    if l < 4 {
      SharedNode(s', r, q, p, l);
      RootedNode(s, r, e, q, p, l);
      if Node(s, q, p, l).Some? { NodeOk(s, q, p, l); }
    }
    assert UserAt(s, q, p, l);
  }

  // A walk from the new root gets anywhere by the kernel's entry only.
  lemma {:induction false} RootedWalk(s: Space, r: int, e: int, p: int, l: int)
    requires SpaceOk(s) && r !in s.mem && 0 <= p < PAGES && 1 <= l <= 4
    requires EntryAt(Rooted(s, r, e), r, p, l) != 0
    ensures p / Span(3) == 511 && Present(e)
    decreases 4 - l
  {
    hide BaseAddress, SpaceOk, Span, Present;
    EmptyEntry();
    TopIndex(p);
    if l < 4 { RootedWalk(s, r, e, p, l + 1); }
  }

  lemma UserNothing(s: Space, root: int, first: int, n: int, top: int)
    requires n <= 0 || top < 2
    ensures UserWalk(s, root, first, n, top)
  {
  }

  /** The user may use the page: the walk comes to an end, and each entry lets the user
      through. */
  predicate UserReaches(s: Space, r: int, p: int) {
    UserAt(s, r, p, 4) && UserAt(s, r, p, 3) && UserAt(s, r, p, 2) && UserAt(s, r, p, 1)
  }

  /** A page mapped for the user is open to the user, a page mapped for the kernel is not. */
  lemma MappedReaches(s: Space, s': Space, root: int, first: int, n: int, pa: int, isKernel: bool, p: int)
    requires Mapped(s, s', root, first, n, pa, isKernel) && IsBase(pa) && pa + FOUR_KB * n <= MEMORY
    requires !isKernel ==> UserWalk(s', root, first, n, 4)
    requires IsRoot(s, root) && first <= p < first + n && 0 <= p < PAGES
    ensures UserReaches(s', root, p) <==> !isKernel
  {
    hide EntryAt, UserAccessible, Entry, Present, BaseAddress, IsRoot;
    assert MappedAt(s, s', root, first, n, pa, isKernel, root, p);
    Aligned(pa, p - first);
    EntryFields(pa + FOUR_KB * (p - first), isKernel);
    if !isKernel {
      assert UserAt(s', root, p, 4) && UserAt(s', root, p, 3) && UserAt(s', root, p, 2);
    }
  }
}
