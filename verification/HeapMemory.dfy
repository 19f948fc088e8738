/** How a heap layout is written in memory: a tag word at each end of a block, and the
    two links of the free list in the last words of a free payload.  The lemmas say what
    the splices of the allocator do to the list that the words spell. */
module HeapMemory {
  import opened HeapLayout
  import opened Lists

  const END_OF_LIST: int := 0xBBBBBBBB
  // Offsets fit the 31-bit size field and the int that a search returns.
  const LIMIT: int := 0x8000_0000

  // The word at each word-aligned byte offset.
  type Mem = map<int, int>

  // The words in the tail of a block that ends at `e`.
  function BackTag(e: int): int { e - 4 }
  function NextLink(e: int): int { e - 8 }
  function PrevLink(e: int): int { e - 12 }

  /** A tag: the size, shifted by one, over the free bit. */
  function Tag(isFree: bool, sz: int): int {
    2 * sz + if isFree then 1 else 0
  }

  // The fields of a tag word.
  function SizeField(word: int): int { word / 2 }
  function FreeField(word: int): bool { word % 2 == 1 }

  lemma TagFields(isFree: bool, sz: int)
    ensures SizeField(Tag(isFree, sz)) == sz && FreeField(Tag(isFree, sz)) == isFree
  {
  }

  function IsFree(mem: Mem, tag: int): bool
    requires tag in mem
  {
    FreeField(mem[tag])
  }

  function Size(mem: Mem, tag: int): int
    requires tag in mem
  {
    SizeField(mem[tag])
  }

  /** Where the block at `o` ends, as its front tag says. */
  function End(mem: Mem, o: int): int
    requires o in mem
  {
    o + Size(mem, o) + META
  }

  ghost predicate Mapped(mem: Mem, size: int) {
    forall a: int :: a in mem <==> 0 <= a < size && Aligned(a)
  }

  /** Both tags of the block at `o` give its size, and each some free bit. */
  ghost predicate SizedAt(mem: Mem, ends: Ends, o: int)
    requires o in ends
  {
    && o + META + LINKS <= ends[o]
    && o in mem && BackTag(ends[o]) in mem
    && NextLink(ends[o]) in mem && PrevLink(ends[o]) in mem
    && Size(mem, o) == ends[o] - o - META == Size(mem, BackTag(ends[o]))
  }

  ghost predicate TaggedAt(mem: Mem, l: Layout, o: int)
    requires o in l.ends
  {
    && SizedAt(mem, l.ends, o)
    && mem[o] == mem[BackTag(l.ends[o])]
    && (IsFree(mem, o) <==> o in l.free)
  }

  ghost predicate Tagged(mem: Mem, l: Layout) {
    forall o | o in l.ends :: TaggedAt(mem, l, o)
  }

  function HeadOf(free: seq<int>): int {
    if free == [] then END_OF_LIST else free[0]
  }

  function PrevOf(free: seq<int>, k: nat): int
    requires k < |free|
  {
    if k == 0 then END_OF_LIST else free[k - 1]
  }

  function NextOf(free: seq<int>, k: nat): int
    requires k < |free|
  {
    if k + 1 == |free| then END_OF_LIST else free[k + 1]
  }

  ghost predicate LinksAt(mem: Mem, e: int, prev: int, next: int) {
    && PrevLink(e) in mem && mem[PrevLink(e)] == prev
    && NextLink(e) in mem && mem[NextLink(e)] == next
  }

  ghost predicate LinkedAt(mem: Mem, ends: Ends, free: seq<int>, k: nat)
    requires k < |free|
  {
    && free[k] in ends
    && LinksAt(mem, ends[free[k]], PrevOf(free, k), NextOf(free, k))
  }

  /** The links in memory, read from `head`, spell exactly the list `free`, in both
      directions. */
  ghost predicate Linked(mem: Mem, ends: Ends, free: seq<int>) {
    forall k {:trigger LinkedAt(mem, ends, free, k)} | 0 <= k < |free| :: LinkedAt(mem, ends, free, k)
  }

  /** The words from block starts up to block ends are unchanged. */
  ghost predicate Kept(mem: Mem, mem': Mem, blocks: Ends) {
    forall o, a | o in blocks && a in mem && o <= a < blocks[o] :: a in mem' && mem'[a] == mem[a]
  }

  ghost predicate Represents(mem: Mem, head: int, l: Layout) {
    && Valid(l) && l.size < LIMIT
    && Mapped(mem, l.size)
    && Tagged(mem, l)
    && Linked(mem, l.ends, l.free) && head == HeadOf(l.free)
  }

  // ----- Splices ----------------------------------------------------------------------

  /** The blocks `prev` and `next`, where they exist, get new links towards each other. */
  function Redirected(mem: Mem, ends: Ends, prev: int, next: int, forward: int, backward: int): Mem
    requires prev != END_OF_LIST ==> prev in ends
    requires next != END_OF_LIST ==> next in ends
  {
    var m1 := if prev != END_OF_LIST then mem[NextLink(ends[prev]) := forward] else mem;
    if next != END_OF_LIST then m1[PrevLink(ends[next]) := backward] else m1
  }

  /** The block `o` is linked in front of the list. */
  function Pushed(mem: Mem, ends: Ends, free: seq<int>, o: int): Mem
    requires o in ends && (free != [] ==> free[0] in ends)
  {
    var m1 := mem[NextLink(ends[o]) := HeadOf(free)][PrevLink(ends[o]) := END_OF_LIST];
    if free == [] then m1 else m1[PrevLink(ends[free[0]]) := o]
  }

  ghost predicate Apart(a: int, b: int) {
    a + META + LINKS <= b || b + META + LINKS <= a
  }

  lemma EndsApart(l: Layout, o: int, p: int)
    requires Tiled(l.ends, l.size) && o in l.ends && p in l.ends && o != p
    ensures Apart(l.ends[o], l.ends[p])
  {
  }

  /** The neighbours in the list of its `k`th block. */
  lemma Neighbours(l: Layout, k: nat)
    requires Valid(l) && l.size < LIMIT && k < |l.free|
    ensures l.free[k] in l.ends && l.free[k] != END_OF_LIST
    ensures var p, n := PrevOf(l.free, k), NextOf(l.free, k);
            && (p == END_OF_LIST <==> k == 0) && (n == END_OF_LIST <==> k + 1 == |l.free|)
            && (p != END_OF_LIST ==> p in l.ends && p in l.free && Apart(l.ends[p], l.ends[l.free[k]]))
            && (n != END_OF_LIST ==> n in l.ends && n in l.free && Apart(l.ends[n], l.ends[l.free[k]]))
            && (p != END_OF_LIST && n != END_OF_LIST ==> Apart(l.ends[p], l.ends[n]))
    ensures HeadOf(l.free) == l.free[k] <==> k == 0
  {
    hide Tag, SizeField, FreeField, Aligned;
    assert l.free[k] in l.free;
    if k > 0 {
      assert l.free[k - 1] in l.free && l.free[0] != l.free[k];
      EndsApart(l, l.free[k - 1], l.free[k]);
    }
    if k + 1 < |l.free| {
      assert l.free[k + 1] in l.free;
      EndsApart(l, l.free[k + 1], l.free[k]);
      if k > 0 { EndsApart(l, l.free[k + 1], l.free[k - 1]); }
    }
  }

  /** What a redirection around the `k`th block leaves in the links of the `i`th. */
  lemma RedirectedAt(mem: Mem, l: Layout, k: nat, forward: int, backward: int, i: nat)
    requires Valid(l) && l.size < LIMIT && k < |l.free|
    requires i < |l.free| && LinkedAt(mem, l.ends, l.free, i)
    ensures PrevOf(l.free, k) != END_OF_LIST ==> PrevOf(l.free, k) in l.ends
    ensures NextOf(l.free, k) != END_OF_LIST ==> NextOf(l.free, k) in l.ends
    ensures LinksAt(Redirected(mem, l.ends, PrevOf(l.free, k), NextOf(l.free, k), forward, backward),
                    l.ends[l.free[i]],
                    if i == k + 1 then backward else PrevOf(l.free, i),
                    if i + 1 == k then forward else NextOf(l.free, i))
  {
    hide Tag, SizeField, FreeField, Aligned;
    Neighbours(l, k);
    if k > 0 && i != k - 1 { EndsApart(l, l.free[i], l.free[k - 1]); }
    if k + 1 < |l.free| && i != k + 1 { EndsApart(l, l.free[i], l.free[k + 1]); }
  }

  lemma UnlinkAt(mem: Mem, l: Layout, k: nat, i: nat)
    requires Valid(l) && l.size < LIMIT && Linked(mem, l.ends, l.free)
    requires k < |l.free| && i < |l.free| && i != k
    ensures var p, n := PrevOf(l.free, k), NextOf(l.free, k);
            && (p != END_OF_LIST ==> p in l.ends) && (n != END_OF_LIST ==> n in l.ends)
            && LinkedAt(Redirected(mem, l.ends, p, n, n, p), l.ends,
                        l.free[..k] + l.free[k + 1..], if i < k then i else i - 1)
  {
    hide Tag, SizeField, FreeField, Aligned;
    Neighbours(l, k);
    assert LinkedAt(mem, l.ends, l.free, i);
    RedirectedAt(mem, l, k, NextOf(l.free, k), PrevOf(l.free, k), i);
    hide Valid, Redirected;
  }

  /** Unlinking spells the list without the block. */
  lemma UnlinkSpells(mem: Mem, l: Layout, o: int)
    requires Valid(l) && l.size < LIMIT && Linked(mem, l.ends, l.free) && o in l.free
    ensures var p, n := PrevOf(l.free, Index(l.free, o)), NextOf(l.free, Index(l.free, o));
            && (p != END_OF_LIST ==> p in l.ends) && (n != END_OF_LIST ==> n in l.ends)
            && Linked(Redirected(mem, l.ends, p, n, n, p), l.ends, Without(l.free, o))
            && HeadOf(Without(l.free, o)) == if HeadOf(l.free) == o then n else HeadOf(l.free)
  {
    hide Valid, Redirected, LinkedAt, Aligned;
    var k := Index(l.free, o);
    Neighbours(l, k);
    var p, n, r := PrevOf(l.free, k), NextOf(l.free, k), Without(l.free, o);
    var m := Redirected(mem, l.ends, p, n, n, p);
    forall i | 0 <= i < |r| ensures LinkedAt(m, l.ends, r, i) {
      UnlinkAt(mem, l, k, if i < k then i else i + 1);
    }
  }

  lemma PushSpells(mem: Mem, l: Layout, o: int)
    requires Valid(l) && Linked(mem, l.ends, l.free) && o in l.ends && o !in l.free
    ensures l.free != [] ==> l.free[0] in l.ends
    ensures Linked(Pushed(mem, l.ends, l.free, o), l.ends, [o] + l.free)
  {
    hide Tag, SizeField, FreeField, Aligned;
    if l.free != [] { ListedIsBlock(l, 0); }
    var m, r := Pushed(mem, l.ends, l.free, o), [o] + l.free;
    forall i | 0 <= i < |r| ensures LinkedAt(m, l.ends, r, i) {
      if i > 0 {
        assert LinkedAt(mem, l.ends, l.free, i - 1);
        EndsApart(l, o, r[i]);
        if i > 1 { EndsApart(l, l.free[0], r[i]); }
      }
    }
  }

  lemma RenameAt(mem: Mem, l: Layout, k: nat, ends': Ends, x: int, i: nat)
    requires Valid(l) && l.size < LIMIT && Linked(mem, l.ends, l.free)
    requires k < |l.free| && i < |l.free|
    requires l.free[k] in l.ends && x in ends' && ends'[x] == l.ends[l.free[k]]
    requires forall p | p in l.free && p != l.free[k] :: p in ends' && p in l.ends && ends'[p] == l.ends[p]
    ensures var p, n := PrevOf(l.free, k), NextOf(l.free, k);
            && (p != END_OF_LIST ==> p in l.ends) && (n != END_OF_LIST ==> n in l.ends)
            && LinkedAt(Redirected(mem, l.ends, p, n, x, x), ends', l.free[k := x], i)
  {
    hide Tag, SizeField, FreeField, Aligned;
    Neighbours(l, k);
    assert LinkedAt(mem, l.ends, l.free, i);
    RedirectedAt(mem, l, k, x, x, i);
    assert i != k ==> l.free[i] != l.free[k];
    hide Valid, Redirected;
  }

  /** Renaming a listed block to another start with the same end spells the renamed list:
      the links of the block itself do not move. */
  lemma RenameSpells(mem: Mem, l: Layout, o: int, ends': Ends, x: int)
    requires Valid(l) && l.size < LIMIT && Linked(mem, l.ends, l.free) && o in l.free
    requires o in l.ends && x in ends' && ends'[x] == l.ends[o]
    requires forall p | p in l.free && p != o :: p in ends' && p in l.ends && ends'[p] == l.ends[p]
    ensures var p, n := PrevOf(l.free, Index(l.free, o)), NextOf(l.free, Index(l.free, o));
            && (p != END_OF_LIST ==> p in l.ends) && (n != END_OF_LIST ==> n in l.ends)
            && Linked(Redirected(mem, l.ends, p, n, x, x), ends', Renamed(l.free, o, x))
            && HeadOf(Renamed(l.free, o, x)) == if HeadOf(l.free) == o then x else HeadOf(l.free)
  {
    hide Tag, SizeField, FreeField, Aligned;
    var k := Index(l.free, o);
    Neighbours(l, k);
    hide Valid, Redirected, LinkedAt;
    var p, n, r := PrevOf(l.free, k), NextOf(l.free, k), Renamed(l.free, o, x);
    var m := Redirected(mem, l.ends, p, n, x, x);
    forall i | 0 <= i < |r| ensures LinkedAt(m, ends', r, i) {
      RenameAt(mem, l, k, ends', x, i);
    }
  }

  // ----- What a splice leaves alone ---------------------------------------------------

  /** Tags are unchanged, no address appears or disappears, live blocks are unchanged. */
  ghost predicate OnlyLinksChanged(mem: Mem, mem': Mem, l: Layout) {
    && mem'.Keys == mem.Keys
    && (forall o | o in l.ends && o in mem :: mem'[o] == mem[o])
    && (forall o | o in l.ends && BackTag(l.ends[o]) in mem ::
          mem'[BackTag(l.ends[o])] == mem[BackTag(l.ends[o])])
    && Kept(mem, mem', Live(l))
  }

  /** A write to a link word of a free block. */
  lemma LinkWrite(mem: Mem, l: Layout, f: int, a: int, v: int)
    requires Valid(l) && f in l.free && a in mem
    requires a == NextLink(l.ends[f]) || a == PrevLink(l.ends[f])
    ensures OnlyLinksChanged(mem, mem[a := v], l)
  {
    hide Tag, SizeField, FreeField, Aligned;
    hide Distinct, Gapless;
    forall o | o in l.ends ensures a != o && a != BackTag(l.ends[o]) {
      if o != f { EndsApart(l, o, f); }
    }
    forall o | o in Live(l) ensures !(o <= a < l.ends[o]) {
      EndsApart(l, o, f);
    }
  }

  lemma OnlyLinksChangedTrans(m0: Mem, m1: Mem, m2: Mem, l: Layout)
    requires OnlyLinksChanged(m0, m1, l) && OnlyLinksChanged(m1, m2, l)
    ensures OnlyLinksChanged(m0, m2, l)
  {
    hide Tag, SizeField, FreeField, Aligned;
    assert forall o | o in l.ends && o in m0 :: m2[o] == m1[o];
  }

  /** The link words of all listed blocks exist. */
  ghost predicate LinksMapped(mem: Mem, l: Layout) {
    forall p | p in l.free && p in l.ends :: NextLink(l.ends[p]) in mem && PrevLink(l.ends[p]) in mem
  }

  lemma LinkedMapped(mem: Mem, l: Layout)
    requires Linked(mem, l.ends, l.free)
    ensures LinksMapped(mem, l)
  {
    forall p | p in l.free && p in l.ends ensures NextLink(l.ends[p]) in mem && PrevLink(l.ends[p]) in mem {
      assert LinkedAt(mem, l.ends, l.free, Index(l.free, p));
    }
  }

  lemma RedirectedFrame(mem: Mem, l: Layout, o: int, forward: int, backward: int)
    requires Valid(l) && l.size < LIMIT && o in l.free && LinksMapped(mem, l)
    ensures var p, n := PrevOf(l.free, Index(l.free, o)), NextOf(l.free, Index(l.free, o));
            && (p != END_OF_LIST ==> p in l.ends) && (n != END_OF_LIST ==> n in l.ends)
            && OnlyLinksChanged(mem, Redirected(mem, l.ends, p, n, forward, backward), l)
  {
    hide Tag, SizeField, FreeField, Aligned;
    var k := Index(l.free, o);
    Neighbours(l, k);
    var p, n := PrevOf(l.free, k), NextOf(l.free, k);
    var m1 := mem;
    assert OnlyLinksChanged(mem, m1, l);
    hide OnlyLinksChanged, Tiled, Distinct, PrevOf, NextOf;
    if p != END_OF_LIST {
      LinkWrite(mem, l, p, NextLink(l.ends[p]), forward);
      m1 := mem[NextLink(l.ends[p]) := forward];
    }
    if n != END_OF_LIST {
      LinkWrite(m1, l, n, PrevLink(l.ends[n]), backward);
      OnlyLinksChangedTrans(mem, m1, m1[PrevLink(l.ends[n]) := backward], l);
    }
  }

  lemma PushedFrame(mem: Mem, l: Layout, o: int)
    requires Valid(l) && LinksMapped(mem, l) && o in l.ends && o !in l.free
    requires NextLink(l.ends[o]) in mem && PrevLink(l.ends[o]) in mem
    ensures l.free != [] ==> l.free[0] in l.ends
    ensures OnlyLinksChanged(mem, Pushed(mem, l.ends, l.free, o), Listed(l, o))
  {
    hide Tag, SizeField, FreeField, Aligned;
    hide OnlyLinksChanged, Tiled, Distinct;
    var l1, e := Listed(l, o), l.ends[o];
    var m1 := mem[NextLink(e) := HeadOf(l.free)];
    var m2 := m1[PrevLink(e) := END_OF_LIST];
    LinkWrite(mem, l1, o, NextLink(e), HeadOf(l.free));
    LinkWrite(m1, l1, o, PrevLink(e), END_OF_LIST);
    OnlyLinksChangedTrans(mem, m1, m2, l1);
    if l.free != [] {
      ListedIsBlock(l, 0);
      var f := l.free[0];
      assert l1.free[1] == f;
      LinkWrite(m2, l1, f, PrevLink(l.ends[f]), o);
      OnlyLinksChangedTrans(mem, m2, m2[PrevLink(l.ends[f]) := o], l1);
    }
  }

  ghost predicate AllSized(mem: Mem, ends: Ends) {
    forall o | o in ends :: SizedAt(mem, ends, o)
  }

  lemma SizedAfterLinks(mem: Mem, mem': Mem, l: Layout)
    requires AllSized(mem, l.ends) && OnlyLinksChanged(mem, mem', l)
    ensures AllSized(mem', l.ends)
  {
    hide SizeField, Kept;
    forall p | p in l.ends ensures SizedAt(mem', l.ends, p) {
      assert SizedAt(mem, l.ends, p);
    }
  }

  /** A write inside the block at `o`, but not to its links, leaves the list and all other
      blocks alone. */
  lemma InsideWrite(mem: Mem, l: Layout, o: int, a: int, v: int)
    requires Valid(l) && o in l.ends && a in mem && o <= a < l.ends[o]
    requires o in l.free ==> a != NextLink(l.ends[o]) && a != PrevLink(l.ends[o])
    ensures Linked(mem, l.ends, l.free) ==> Linked(mem[a := v], l.ends, l.free)
    ensures forall p | p in l.ends && p != o ::
              a != p && a != BackTag(l.ends[p]) && !(p <= a < l.ends[p])
    ensures Kept(mem, mem[a := v], Live(l) - {o})
  {
    hide Tag, SizeField, FreeField, Aligned;
    forall p | p in l.ends && p != o
      ensures a != p && a != BackTag(l.ends[p]) && !(p <= a < l.ends[p])
      ensures a != NextLink(l.ends[p]) && a != PrevLink(l.ends[p])
    {
      EndsApart(l, o, p);
    }
    if Linked(mem, l.ends, l.free) {
      var mem' := mem[a := v];
      forall k | 0 <= k < |l.free| ensures LinkedAt(mem', l.ends, l.free, k) {
        assert LinkedAt(mem, l.ends, l.free, k);
      }
    }
  }

  // ----- Tags -------------------------------------------------------------------------

  ghost predicate TaggedExcept(mem: Mem, l: Layout, o: int) {
    forall p | p in l.ends && p != o :: TaggedAt(mem, l, p)
  }

  /** The free bits in both tags of the block at `o` are set. */
  function Retagged(mem: Mem, ends: Ends, o: int, isFree: bool): Mem
    requires o in ends && o in mem
  {
    mem[o := Tag(isFree, Size(mem, o))][BackTag(ends[o]) := Tag(isFree, Size(mem, o))]
  }

  lemma RetaggedEffect(mem: Mem, l: Layout, o: int, isFree: bool)
    requires Valid(l) && o in l.ends && AllSized(mem, l.ends) && TaggedExcept(mem, l, o)
    requires Linked(mem, l.ends, l.free)
    ensures o in mem
    ensures var m := Retagged(mem, l.ends, o, isFree);
            && m.Keys == mem.Keys
            && m[o] == m[BackTag(l.ends[o])] && IsFree(m, o) == isFree
            && AllSized(m, l.ends) && TaggedExcept(m, l, o) && Linked(m, l.ends, l.free)
            && Kept(mem, m, Live(l) - {o})
  {
    hide Tag, SizeField, FreeField, Aligned;
    assert SizedAt(mem, l.ends, o);
    TagFields(isFree, Size(mem, o));
    var v := Tag(isFree, Size(mem, o));
    var m := mem[o := v];
    InsideWrite(mem, l, o, o, v);
    InsideWrite(m, l, o, BackTag(l.ends[o]), v);
    hide Valid, Linked, Live, Kept;
    var m' := m[BackTag(l.ends[o]) := v];
    assert Size(m', o) == Size(mem, o) == Size(m', BackTag(l.ends[o]));
    forall p | p in l.ends ensures SizedAt(m', l.ends, p) && (p != o ==> TaggedAt(m', l, p)) {
      assert SizedAt(mem, l.ends, p);
    }
    KeptTrans(mem, m, m', Live(l) - {o});
  }

  lemma KeptTrans(m0: Mem, m1: Mem, m2: Mem, blocks: Ends)
    requires Kept(m0, m1, blocks) && Kept(m1, m2, blocks)
    ensures Kept(m0, m2, blocks)
  {
  }

  /** Tags survive a change of links; a block whose tags say otherwise than before has
      changed sides. */
  lemma TagsAfterLinks(mem: Mem, mem': Mem, l: Layout, free': seq<int>, o: int)
    requires o in l.ends && OnlyLinksChanged(mem, mem', l)
    requires AllSized(mem, l.ends) && TaggedExcept(mem, l, o)
    requires mem[o] == mem[BackTag(l.ends[o])] && (IsFree(mem, o) <==> o in free')
    requires forall p :: p != o ==> (p in free' <==> p in l.free)
    ensures Tagged(mem', l.(free := free'))
  {
    hide Tag, SizeField, FreeField, Aligned;
    hide Kept;
    forall p | p in l.ends ensures TaggedAt(mem', l.(free := free'), p) {
      assert SizedAt(mem, l.ends, p);
    }
  }

  lemma LiveOf(l: Layout, o: int)
    requires o in l.free
    ensures Live(l) - {o} == Live(l)
  {
  }

  lemma LiveKept(m0: Mem, m1: Mem, m2: Mem, l: Layout, o: int)
    requires o in l.free && Kept(m0, m1, Live(l) - {o}) && OnlyLinksChanged(m1, m2, l)
    ensures Kept(m0, m2, Live(l))
  {
    hide Kept, Live;
    LiveOf(l, o);
    KeptTrans(m0, m1, m2, Live(l));
  }

  lemma TagsSized(mem: Mem, l: Layout)
    requires Tagged(mem, l)
    ensures AllSized(mem, l.ends)
  {
    hide Tag, SizeField, FreeField, Aligned;
    forall p | p in l.ends ensures SizedAt(mem, l.ends, p) { assert TaggedAt(mem, l, p); }
  }

  // ----- Merging ----------------------------------------------------------------------

  /** The tags of all blocks but the two at `o` and `p`. */
  ghost predicate TaggedExceptBoth(mem: Mem, l: Layout, o: int, p: int) {
    forall q | q in l.ends && q != o && q != p :: TaggedAt(mem, l, q)
  }

  lemma RightIsBlock(l: Layout, left: int, right: int)
    requires Valid(l) && left in l.ends && right in l.free && l.ends[left] == right
    ensures right in l.ends && left + META + LINKS <= l.ends[left] && right + META + LINKS <= l.ends[right]
  {
  }

  lemma OuterTagsOthers(m1: Mem, l: Layout, left: int, right: int, v: int)
    requires left in l.ends && right in l.ends && TaggedExceptBoth(m1, l, left, right)
    requires forall p | p in l.ends && p != left :: left != p && left != BackTag(l.ends[p])
    requires forall p | p in l.ends && p != right ::
               BackTag(l.ends[right]) != p && BackTag(l.ends[right]) != BackTag(l.ends[p])
    ensures TaggedExceptBoth(m1[left := v][BackTag(l.ends[right]) := v], l, left, right)
  {
    hide SizeField, FreeField;
    var m2 := m1[left := v][BackTag(l.ends[right]) := v];
    forall q | q in l.ends && q != left && q != right ensures TaggedAt(m2, l, q) {
      assert TaggedAt(m1, l, q);
    }
  }

  /** Writing the outer tags of two adjacent blocks leaves the other tags, the list and the
      live blocks alone. */
  lemma OuterTagsWritten(m1: Mem, l: Layout, left: int, right: int, v: int)
    requires Valid(l) && left in l.ends && right in l.free && l.ends[left] == right
    requires left in m1 && BackTag(l.ends[right]) in m1 && TaggedExceptBoth(m1, l, left, right)
    requires Linked(m1, l.ends, l.free)
    ensures var m2 := m1[left := v][BackTag(l.ends[right]) := v];
            && m2.Keys == m1.Keys
            && Linked(m2, l.ends, l.free)
            && TaggedExceptBoth(m2, l, left, right)
            && Kept(m1, m2, Live(l) - {left})
  {
    hide Tag, SizeField, FreeField, Aligned, Valid, Linked, Live, Kept, TaggedExceptBoth;
    RightIsBlock(l, left, right);
    var a := BackTag(l.ends[right]);
    var m := m1[left := v];
    var m2 := m[a := v];
    InsideWrite(m1, l, left, left, v);
    InsideWrite(m, l, right, a, v);
    LiveOf(l, right);
    KeptSubset(m, m2, Live(l), Live(l) - {left});
    KeptTrans(m1, m, m2, Live(l) - {left});
    OuterTagsOthers(m1, l, left, right, v);
  }

  /** Unlinking `left` changes no tag. */
  lemma TagsUnlinked(m0: Mem, m1: Mem, l: Layout, left: int, right: int)
    requires Distinct(l.free) && left in l.free && Tagged(m0, l) && OnlyLinksChanged(m0, m1, l)
    ensures TaggedExceptBoth(m1, l.(free := Without(l.free, left)), left, right)
  {
    hide Tag, SizeField, FreeField, Aligned;
    WithoutElements(l.free, left);
    var l1 := l.(free := Without(l.free, left));
    hide Distinct, Without, Kept;
    forall q | q in l.ends && q != left && q != right ensures TaggedAt(m1, l1, q) {
      assert TaggedAt(m0, l, q);
    }
  }

  lemma KeptSubset(m: Mem, m': Mem, blocks: Ends, some: Ends)
    requires Kept(m, m', blocks) && forall o | o in some :: o in blocks && blocks[o] == some[o]
    ensures Kept(m, m', some)
  {
  }

  /** What a splice around the block at `o`, between `prev` and `next` in the list, reads. */
  ghost predicate SpliceReads(mem: Mem, ends: Ends, o: int, prev: int, next: int) {
    && o in ends && SizedAt(mem, ends, o) && LinksAt(mem, ends[o], prev, next)
    && (prev != END_OF_LIST ==>
          && prev in ends && SizedAt(mem, ends, prev)
          && Apart(ends[prev], ends[o]) && o != NextLink(ends[prev]))
    && (next != END_OF_LIST ==> next in ends && SizedAt(mem, ends, next))
    && (prev != END_OF_LIST && next != END_OF_LIST ==> next != NextLink(ends[prev]))
  }

  lemma ListedSpliceReads(mem: Mem, l: Layout, k: nat)
    requires Valid(l) && l.size < LIMIT && k < |l.free|
    requires AllSized(mem, l.ends) && Linked(mem, l.ends, l.free)
    ensures SpliceReads(mem, l.ends, l.free[k], PrevOf(l.free, k), NextOf(l.free, k))
  {
    hide Tag, SizeField, FreeField, Aligned;
    Neighbours(l, k);
    assert LinkedAt(mem, l.ends, l.free, k);
  }

  /** The state in the middle of a merge: the tags are those of the merged block, `left`
      is unlinked, `right` is still listed. */
  ghost predicate HalfMerged(mem: Mem, l: Layout, left: int)
    requires Valid(l) && left in l.free && l.ends[left] in l.free
  {
    var right := l.ends[left];
    var l1 := l.(free := Without(l.free, left));
    && l.size < LIMIT
    && Linked(mem, l.ends, l1.free)
    && TaggedExceptBoth(mem, l1, left, right)
    && SizedAt(mem, MergedEnds(l.ends, left, right), left)
    && mem[left] == mem[BackTag(l.ends[right])] && IsFree(mem, left)
  }

  // Block starts are not link words.
  lemma StartsAreNotLinks(l: Layout, o: int, p: int)
    requires Valid(l) && o in l.ends && p in l.ends
    ensures o != NextLink(l.ends[p]) && o != PrevLink(l.ends[p])
  {
  }

  lemma MergedEndsAgree(l: Layout, left: int)
    requires Valid(l) && left in l.free && l.ends[left] in l.free
    ensures var right, f := l.ends[left], Without(l.free, left);
            && left in l.ends && right in f && left !in f
            && Valid(l.(free := f))
            && var ends' := MergedEnds(l.ends, left, right);
            && right in l.ends && left in ends' && ends'[left] == l.ends[right]
            && (forall p | p in f && p != right :: p in ends' && p in l.ends && ends'[p] == l.ends[p])
  {
    hide Tag, SizeField, FreeField, Aligned;
    WithoutElements(l.free, left);
  }

  lemma MergedSpliceReads(mem: Mem, l: Layout, left: int)
    requires Valid(l) && left in l.free && l.ends[left] in l.free && HalfMerged(mem, l, left)
    ensures var right, f := l.ends[left], Without(l.free, left);
            && right in f
            && SpliceReads(mem, MergedEnds(l.ends, left, right), left,
                           PrevOf(f, Index(f, right)), NextOf(f, Index(f, right)))
  {
    hide Tag, SizeField, FreeField, Aligned, Valid, MergedEnds, Without;
    MergedEndsAgree(l, left);
    var right := l.ends[left];
    var l1 := l.(free := Without(l.free, left));
    var k := Index(l1.free, right);
    Neighbours(l1, k);
    assert LinkedAt(mem, l.ends, l1.free, k);
    var p, n := PrevOf(l1.free, k), NextOf(l1.free, k);
    if n != END_OF_LIST { assert n != right && TaggedAt(mem, l1, n); }
    if p != END_OF_LIST {
      assert p != right && TaggedAt(mem, l1, p);
      StartsAreNotLinks(l, left, p);
      if n != END_OF_LIST { StartsAreNotLinks(l, n, p); }
    }
  }

  /** A half-merged memory after its links are redirected to the merged block. */
  ghost function Rewired(mem: Mem, l: Layout, left: int): Mem
    requires Valid(l) && left in l.free && l.ends[left] in l.free && HalfMerged(mem, l, left)
  {
    MergedSpliceReads(mem, l, left);
    var right, f := l.ends[left], Without(l.free, left);
    Redirected(mem, MergedEnds(l.ends, left, right),
               PrevOf(f, Index(f, right)), NextOf(f, Index(f, right)), left, left)
  }

  lemma MergedLinked(mem: Mem, l: Layout, left: int)
    requires Valid(l) && left in l.free && l.ends[left] in l.free && HalfMerged(mem, l, left)
    ensures var f, m, l' := Without(l.free, left), Rewired(mem, l, left), Merge(l, left);
            && OnlyLinksChanged(mem, m, l.(free := f))
            && Linked(m, l'.ends, l'.free)
            && HeadOf(l'.free) == (if HeadOf(f) == l.ends[left] then left else HeadOf(f))
  {
    hide Tag, SizeField, FreeField, Aligned;
    var right := l.ends[left];
    MergedEndsAgree(l, left);
    var l1 := l.(free := Without(l.free, left));
    var ends' := MergedEnds(l.ends, left, right);
    var k := Index(l1.free, right);
    Neighbours(l1, k);
    hide Valid, Without, MergedEnds, Linked, OnlyLinksChanged;
    RenameSpells(mem, l1, right, ends', left);
    LinkedMapped(mem, l1);
    RedirectedFrame(mem, l1, right, left, left);
    var p, n := PrevOf(l1.free, k), NextOf(l1.free, k);
    assert p != END_OF_LIST ==> p != right && ends'[p] == l1.ends[p];
    assert n != END_OF_LIST ==> n != right && ends'[n] == l1.ends[n];
    RedirectedSame(mem, l1.ends, ends', p, n, left, left);
    hide Renamed, HeadOf, Redirected, PrevOf, NextOf;
  }

  lemma RedirectedSame(mem: Mem, ends: Ends, ends': Ends, p: int, n: int, forward: int, backward: int)
    requires p != END_OF_LIST ==> p in ends && p in ends' && ends[p] == ends'[p]
    requires n != END_OF_LIST ==> n in ends && n in ends' && ends[n] == ends'[n]
    ensures Redirected(mem, ends, p, n, forward, backward) == Redirected(mem, ends', p, n, forward, backward)
  {
  }

  lemma MergedTagged(m2: Mem, m3: Mem, l: Layout, left: int)
    requires Valid(l) && left in l.free && l.ends[left] in l.free && HalfMerged(m2, l, left)
    requires OnlyLinksChanged(m2, m3, l.(free := Without(l.free, left)))
    ensures Tagged(m3, Merge(l, left))
  {
    hide Tag, SizeField, FreeField, Aligned;
    MergeEffect(l, left);
    WithoutElements(l.free, left);
    var l', l1 := Merge(l, left), l.(free := Without(l.free, left));
    hide Valid, Kept, Merge, Without, Linked;
    assert l'.ends == MergedEnds(l.ends, left, l.ends[left]);
    forall q | q in l'.ends ensures TaggedAt(m3, l', q) {
      if q != left { assert TaggedAt(m2, l1, q); }
    }
  }

  /** The outer tags of the blocks at `left` and right of it give their common size. */
  function OuterTags(mem: Mem, ends: Ends, left: int): Mem
    requires left in ends && ends[left] in ends
  {
    var e := ends[ends[left]];
    mem[left := Tag(true, e - left - META)][BackTag(e) := Tag(true, e - left - META)]
  }

  /** Unlinking `left` leaves the tags of both blocks readable. */
  lemma UnlinkedTags(m0: Mem, m1: Mem, l: Layout, left: int)
    requires Valid(l) && left in l.free && l.ends[left] in l.free
    requires Tagged(m0, l) && OnlyLinksChanged(m0, m1, l)
    ensures var right := l.ends[left];
            && SizedAt(m1, l.ends, left) && SizedAt(m1, l.ends, right)
            && IsFree(m1, left) && IsFree(m1, BackTag(l.ends[right]))
  {
    hide Tag, SizeField, FreeField, Aligned;
    assert TaggedAt(m0, l, left) && TaggedAt(m0, l, l.ends[left]);
  }

  lemma OuterTagsFit(m0: Mem, m1: Mem, l: Layout, left: int)
    requires Valid(l) && left in l.free && left in l.ends && l.ends[left] in l.free && l.ends[left] in l.ends
    requires Tagged(m0, l) && OnlyLinksChanged(m0, m1, l)
    ensures var right, m2 := l.ends[left], OuterTags(m1, l.ends, left);
            && left in m1 && BackTag(l.ends[right]) in m1
            && SizedAt(m2, MergedEnds(l.ends, left, right), left)
            && m2[left] == m2[BackTag(l.ends[right])] && IsFree(m2, left)
  {
    hide Tag, SizeField, FreeField, Aligned, Tagged, Valid, Kept;
    var right := l.ends[left];
    UnlinkedTags(m0, m1, l, left);
    MergedEndsAgree(l, left);
    TagFields(true, l.ends[right] - left - META);
  }

  lemma TagsUnlinkedBoth(m0: Mem, m1: Mem, l: Layout, left: int)
    requires Valid(l) && left in l.free && Tagged(m0, l) && OnlyLinksChanged(m0, m1, l)
    ensures TaggedExceptBoth(m1, l.(free := Without(l.free, left)), left, l.ends[left])
  {
    hide Tagged, TaggedExceptBoth, OnlyLinksChanged, Tiled;
    TagsUnlinked(m0, m1, l, left, l.ends[left]);
  }

  lemma OuterTagsKeep(m1: Mem, l: Layout, left: int)
    requires Valid(l) && left in l.ends && l.ends[left] in l.free && l.ends[left] in l.ends
    requires left in m1 && BackTag(l.ends[l.ends[left]]) in m1
    requires Linked(m1, l.ends, l.free) && TaggedExceptBoth(m1, l, left, l.ends[left])
    ensures var m2 := OuterTags(m1, l.ends, left);
            && m2.Keys == m1.Keys && Linked(m2, l.ends, l.free)
            && TaggedExceptBoth(m2, l, left, l.ends[left]) && Kept(m1, m2, Live(l) - {left})
  {
    hide Linked, TaggedExceptBoth, Valid, Kept, Live, Tag;
    var e := l.ends[l.ends[left]];
    OuterTagsWritten(m1, l, left, l.ends[left], Tag(true, e - left - META));
  }

  /** The first half of a merge: unlinking `left` gave `m1`, then the outer tags were
      rewritten. */
  lemma TagsMakeHalfMerged(m0: Mem, m1: Mem, l: Layout, left: int)
    requires Valid(l) && l.size < LIMIT && left in l.free && l.ends[left] in l.free
    requires Tagged(m0, l) && OnlyLinksChanged(m0, m1, l)
    requires Linked(m1, l.ends, Without(l.free, left))
    ensures HalfMerged(OuterTags(m1, l.ends, left), l, left)
  {
    hide Linked, Kept, Live, Tagged, TaggedExceptBoth, Valid, Without, OnlyLinksChanged, OuterTags, SizedAt, FreeField;
    MergedEndsAgree(l, left);
    OuterTagsFit(m0, m1, l, left);
    TagsUnlinkedBoth(m0, m1, l, left);
    OuterTagsKeep(m1, l.(free := Without(l.free, left)), left);
  }

  lemma KeptByMergedTags(m0: Mem, m1: Mem, l: Layout, left: int)
    requires Valid(l) && left in l.free && l.ends[left] in l.free
    requires Tagged(m0, l) && OnlyLinksChanged(m0, m1, l)
    requires Linked(m1, l.ends, Without(l.free, left))
    ensures var m2 := OuterTags(m1, l.ends, left);
            m2.Keys == m0.Keys && Kept(m0, m2, Live(l))
  {
    hide Linked, Kept, Live, Tagged, TaggedExceptBoth, Valid, Without, OuterTags;
    MergedEndsAgree(l, left);
    OuterTagsFit(m0, m1, l, left);
    TagsUnlinkedBoth(m0, m1, l, left);
    OuterTagsKeep(m1, l.(free := Without(l.free, left)), left);
    LiveWithout(l, left);
    KeptTrans(m0, m1, OuterTags(m1, l.ends, left), Live(l));
  }

  lemma MergeReady(m0: Mem, m1: Mem, l: Layout, left: int)
    requires Valid(l) && l.size < LIMIT && left in l.free && l.ends[left] in l.free
    requires Tagged(m0, l) && OnlyLinksChanged(m0, m1, l)
    requires Linked(m1, l.ends, Without(l.free, left))
    ensures var right, m2 := l.ends[left], OuterTags(m1, l.ends, left);
            && SizedAt(m1, l.ends, left) && SizedAt(m1, l.ends, right)
            && IsFree(m1, left) && IsFree(m1, BackTag(l.ends[right]))
            && HalfMerged(m2, l, left) && m2.Keys == m0.Keys && Kept(m0, m2, Live(l))
  {
    UnlinkedTags(m0, m1, l, left);
    TagsMakeHalfMerged(m0, m1, l, left);
    KeptByMergedTags(m0, m1, l, left);
    hide *;
  }

  lemma RewiredKept(m0: Mem, m2: Mem, l: Layout, left: int)
    requires Valid(l) && left in l.free && l.ends[left] in l.free && HalfMerged(m2, l, left)
    requires m2.Keys == m0.Keys && Kept(m0, m2, Live(l))
    ensures var m3 := Rewired(m2, l, left); m3.Keys == m0.Keys && Kept(m0, m3, Live(l))
  {
    hide Valid, Tagged, Linked, HalfMerged, Without, Rewired, Merge, Live, Kept, MergedEnds;
    var m3 := Rewired(m2, l, left);
    MergedLinked(m2, l, left);
    LiveAfterUnlink(l, left);
    KeptSubset(m2, m3, Live(l.(free := Without(l.free, left))), Live(l));
    KeptTrans(m0, m2, m3, Live(l));
  }

  lemma LiveAfterUnlink(l: Layout, left: int)
    requires Valid(l) && left in l.free
    ensures var l1 := l.(free := Without(l.free, left));
            forall o | o in Live(l) :: o in Live(l1) && Live(l1)[o] == Live(l)[o]
  {
    WithoutElements(l.free, left);
  }

  lemma MergedHeap(m2: Mem, l: Layout, left: int)
    requires Valid(l) && left in l.free && l.ends[left] in l.free && HalfMerged(m2, l, left)
    ensures Valid(Merge(l, left)) && Merge(l, left).size == l.size < LIMIT
  {
    hide Valid, Merge, Linked, TaggedExceptBoth, MergedEnds;
  }

  /** The second half of a merge: the list now names the merged block. */
  lemma MergeRepresented(m0: Mem, m2: Mem, head: int, l: Layout, left: int)
    requires Valid(l) && left in l.free && l.ends[left] in l.free && Mapped(m0, l.size)
    requires HalfMerged(m2, l, left) && m2.Keys == m0.Keys && Kept(m0, m2, Live(l))
    requires head == HeadOf(Merge(l, left).free)
    ensures Represents(Rewired(m2, l, left), head, Merge(l, left))
    ensures Kept(m0, Rewired(m2, l, left), Live(l))
  {
    hide Valid, Mapped, Tagged, Linked, Kept, Live, HalfMerged, Without, Rewired, HeadOf, Merge,
         OnlyLinksChanged, MergedEnds;
    var m3 := Rewired(m2, l, left);
    MergedLinked(m2, l, left);
    MergedTagged(m2, m3, l, left);
    RewiredKept(m0, m2, l, left);
    MergedHeap(m2, l, left);
    MappedSame(m0, m3, l.size);
  }

  // ----- Joining the list -------------------------------------------------------------

  /** The heap is in order except that the free bits of the block at `o`, which is not
      listed, may say anything. */
  ghost predicate Pending(mem: Mem, head: int, l: Layout, o: int) {
    && Valid(l) && l.size < LIMIT && Mapped(mem, l.size)
    && Linked(mem, l.ends, l.free) && head == HeadOf(l.free)
    && o in l.ends && o !in l.free
    && AllSized(mem, l.ends) && TaggedExcept(mem, l, o)
  }

  /** What linking the block at `o` in front of the list reads. */
  ghost predicate PushReads(mem: Mem, ends: Ends, free: seq<int>, o: int) {
    && o in ends && SizedAt(mem, ends, o)
    && END_OF_LIST !in free
    && (free != [] ==>
          && free[0] in ends && SizedAt(mem, ends, free[0])
          && free[0] != PrevLink(ends[o]) && free[0] != NextLink(ends[o]))
  }

  lemma UnlistedPushReads(mem: Mem, l: Layout, o: int)
    requires Valid(l) && l.size < LIMIT && o in l.ends && o !in l.free && AllSized(mem, l.ends)
    ensures PushReads(mem, l.ends, l.free, o)
  {
    hide Tag, SizeField, FreeField, Aligned;
    if l.free != [] { ListedIsBlock(l, 0); }
    assert forall i | 0 <= i < |l.free| :: l.free[i] in l.free;
  }

  lemma PendingTagged(mem: Mem, head: int, l: Layout, o: int)
    requires Pending(mem, head, l, o)
    ensures o in mem
    ensures var m := Retagged(mem, l.ends, o, true);
            && m.Keys == mem.Keys && m[o] == m[BackTag(l.ends[o])] && IsFree(m, o)
            && Pending(m, head, l, o) && Kept(mem, m, Live(l) - {o})
  {
    RetaggedEffect(mem, l, o, true);
    hide Tag, SizeField, FreeField, Aligned, Valid, Linked, AllSized, TaggedExcept, Kept, Live;
  }

  lemma PushTagged(mem: Mem, head: int, l: Layout, o: int)
    requires Pending(mem, head, l, o) && mem[o] == mem[BackTag(l.ends[o])] && IsFree(mem, o)
    ensures l.free != [] ==> l.free[0] in l.ends
    ensures var m := Pushed(mem, l.ends, l.free, o);
            m.Keys == mem.Keys && Tagged(m, Listed(l, o)) && Kept(mem, m, Live(l) - {o})
  {
    hide Tag, SizeField, FreeField, Aligned, Kept, Live, Tiled, Distinct, Pushed, Linked, Mapped;
    assert SizedAt(mem, l.ends, o);
    var m, l1 := Pushed(mem, l.ends, l.free, o), Listed(l, o);
    LinkedMapped(mem, l);
    PushedFrame(mem, l, o);
    LiveListed(l, o);
    StillTagged(mem, l, o);
    TagsAfterLinks(mem, m, l1, l1.free, o);
  }

  lemma StillTagged(mem: Mem, l: Layout, o: int)
    requires Valid(l) && o in l.ends && o !in l.free && TaggedExcept(mem, l, o)
    ensures TaggedExcept(mem, Listed(l, o), o)
  {
    hide SizedAt, Tiled, Distinct, FreeField;
    forall p | p in l.ends && p != o ensures TaggedAt(mem, Listed(l, o), p) { assert TaggedAt(mem, l, p); }
  }

  lemma ListedFirst(l: Layout, o: int)
    requires Valid(l) && o in l.ends && o !in l.free
    ensures var l1 := Listed(l, o);
            Valid(l1) && l1.ends == l.ends && l1.free == [o] + l.free && l1.size == l.size && HeadOf(l1.free) == o
  {
    hide Tiled, Distinct;
  }

  /** Linking a block whose tags say it is free puts the heap in order. */
  lemma PushRepresented(mem: Mem, head: int, l: Layout, o: int)
    requires Pending(mem, head, l, o)
    requires mem[o] == mem[BackTag(l.ends[o])] && IsFree(mem, o)
    ensures l.free != [] ==> l.free[0] in l.ends
    ensures Represents(Pushed(mem, l.ends, l.free, o), o, Listed(l, o))
    ensures Kept(mem, Pushed(mem, l.ends, l.free, o), Live(l) - {o})
  {
    hide Valid, Mapped, Tagged, Linked, Kept, Live, Pushed, HeadOf, AllSized, TaggedExcept, Listed,
         SizeField, FreeField;
    PushTagged(mem, head, l, o);
    PushSpells(mem, l, o);
    ListedFirst(l, o);
    MappedSame(mem, Pushed(mem, l.ends, l.free, o), l.size);
  }

  // ----- More memory ------------------------------------------------------------------

  /** The first and the last word of the memory that is fetched. */
  lemma FreshWords(m0: Mem, m1: Mem, size: int, needed: int)
    requires Mapped(m0, size) && Mapped(m1, size + needed) && 0 <= size
    requires Aligned(size) && Aligned(needed) && META + LINKS <= needed
    ensures size in m1 && BackTag(size + needed) in m1 && size !in m0 && BackTag(size + needed) !in m0
  {
    hide Aligned;
    assert Aligned(4) by { AlignedFour(); }
    AlignedSum(size, needed);
    AlignedSum(size + needed, 4);
  }

  lemma AlignedFour()
    ensures Aligned(4)
  {
  }

  lemma OldWords(m0: Mem, m1: Mem, m2: Mem, size: int, needed: int)
    requires size !in m0 && BackTag(size + needed) !in m0
    requires forall a | a in m0 :: a in m1 && m1[a] == m0[a]
    requires m2.Keys == m1.Keys && forall a | a in m2 && a != size && a != BackTag(size + needed) :: m2[a] == m1[a]
    ensures forall a | a in m0 :: a in m2 && m2[a] == m0[a]
  {
    forall a | a in m0 ensures a in m2 && m2[a] == m0[a] { assert a in m1.Keys; }
  }

  lemma KeptWords(m0: Mem, m1: Mem, blocks: Ends)
    requires forall a | a in m0 :: a in m1 && m1[a] == m0[a]
    ensures Kept(m0, m1, blocks)
  {
  }

  lemma SizedOf(mem: Mem, l: Layout, o: int)
    requires o in l.ends && AllSized(mem, l.ends)
    ensures SizedAt(mem, l.ends, o)
  {
  }

  /** Fresh words behind the heap, with sizes in the outer tags of the one block they
      form, leave that block to be freed. */
  lemma ExtendedPending(m0: Mem, m1: Mem, head: int, l: Layout, needed: int)
    requires Represents(m0, head, l) && Aligned(needed) && META + LINKS <= needed && l.size + needed < LIMIT
    requires Mapped(m1, l.size + needed)
    requires forall a | a in m0 :: a in m1 && m1[a] == m0[a]
    requires l.size in m1 && BackTag(l.size + needed) in m1
    requires Size(m1, l.size) == needed - META == Size(m1, BackTag(l.size + needed))
    ensures Pending(m1, head, Extended(l, needed), l.size)
  {
    var l1 := Extended(l, needed);
    ExtendedTiled(l.ends, l.size, needed);
    ExtendedLinkWords(m1, l, needed);
    TagsSized(m0, l);
    hide Tag, SizeField, FreeField, Aligned, Valid, Mapped;
    assert SizedAt(m1, l1.ends, l.size);
    forall p | p in l.ends ensures TaggedAt(m1, l1, p) && SizedAt(m1, l1.ends, p) {
      assert TaggedAt(m0, l, p);
    }
    forall k | 0 <= k < |l.free| ensures LinkedAt(m1, l1.ends, l1.free, k) {
      assert LinkedAt(m0, l.ends, l.free, k);
    }
  }

  lemma ExtendedLinkWords(m: Mem, l: Layout, needed: int)
    requires Valid(l) && Aligned(needed) && META + LINKS <= needed && Mapped(m, l.size + needed)
    ensures var e := l.size + needed; NextLink(e) in m && PrevLink(e) in m
  {
    AlignedSum(l.size, needed);
    assert Aligned(8) && Aligned(12);
    AlignedSum(l.size + needed, 8);
    AlignedSum(l.size + needed, 12);
  }

  lemma MappedSame(m: Mem, m': Mem, size: int)
    requires Mapped(m, size) && m.Keys == m'.Keys
    ensures Mapped(m', size)
  {
  }

  // ----- A heap in order --------------------------------------------------------------

  lemma NoEnd(l: Layout)
    requires Valid(l) && l.size < LIMIT
    ensures forall k | 0 <= k < |l.free| :: l.free[k] != END_OF_LIST
  {
    forall k | 0 <= k < |l.free| ensures l.free[k] != END_OF_LIST { Neighbours(l, k); }
  }

  /** What the walk along the list reads at the node at position `k`. */
  lemma ListNode(mem: Mem, head: int, l: Layout, k: nat)
    requires Represents(mem, head, l) && k < |l.free|
    ensures var o := l.free[k];
            && o in l.ends && o in mem && Size(mem, o) == Payload(l, o)
            && NextLink(End(mem, o)) in mem && mem[NextLink(End(mem, o))] == NextOf(l.free, k)
  {
    hide SizeField, FreeField, Tiled, Distinct, Mapped;
    ListedIsBlock(l, k);
    assert TaggedAt(mem, l, l.free[k]) && LinkedAt(mem, l.ends, l.free, k);
  }

  lemma RepresentsValid(mem: Mem, head: int, l: Layout)
    requires Represents(mem, head, l)
    ensures Valid(l) && 0 <= l.size < LIMIT && Aligned(l.size)
    ensures forall o | o in l.free :: o in l.ends
  {
  }

  lemma RepresentsPending(mem: Mem, head: int, l: Layout, o: int)
    requires Represents(mem, head, l) && o in Live(l)
    ensures Valid(l) && o in l.ends && o !in l.free && Pending(mem, head, l, o)
  {
    TagsSized(mem, l);
  }

  /** The tag that ends the heap leads to its last block. */
  lemma LastBlock(mem: Mem, head: int, l: Layout)
    requires Represents(mem, head, l) && 0 < l.size
    ensures Valid(l) && BackTag(l.size) in mem
    ensures l.size - META - Size(mem, BackTag(l.size)) == Left(l.ends, l.size, l.size)
  {
    assert TaggedAt(mem, l, Left(l.ends, l.size, l.size));
  }

  lemma KeptSame(mem: Mem, blocks: Ends)
    ensures Kept(mem, mem, blocks)
  {
  }

  lemma LiveBlock(l: Layout, o: int)
    requires Valid(l) && o in Live(l)
    ensures o in l.ends && o !in l.free
  {
  }

  lemma StoredTags(mem: Mem, l: Layout, o: int, a: int, v: int)
    requires Valid(l) && Tagged(mem, l) && o in l.ends && a in mem && o + 4 <= a < l.ends[o] - 4
    requires forall p | p in l.ends && p != o :: a != p && a != BackTag(l.ends[p])
    ensures Tagged(mem[a := v], l)
  {
    hide Valid, SizeField, FreeField;
    forall p | p in l.ends ensures TaggedAt(mem[a := v], l, p) { assert TaggedAt(mem, l, p); }
  }

  /** A client that writes inside its payload cannot disturb the heap. */
  lemma StoreRepresented(mem: Mem, head: int, l: Layout, o: int, a: int, v: int)
    requires Represents(mem, head, l) && o in Live(l) && a in mem && o + 4 <= a < l.ends[o] - 4
    ensures Represents(mem[a := v], head, l) && Kept(mem, mem[a := v], Live(l) - {o})
  {
    hide Valid, Mapped, Linked, Tagged, Kept, HeadOf, SizeField, FreeField;
    var m := mem[a := v];
    LiveBlock(l, o);
    InsideWrite(mem, l, o, a, v);
    StoredTags(mem, l, o, a, v);
    MappedSame(mem, m, l.size);
  }
}
