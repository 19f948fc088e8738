/** The layout of the user heap, without its memory: which byte ranges are blocks, and
    which blocks are on the free list, in list order.  The functions say what each
    operation of the allocator does to a layout; the lemmas are the promises of the
    allocator over every run of such operations. */
module HeapLayout {
  import opened Arithmetic
  import opened Lists

  const FOUR_KB: int := 4096
  // Bytes of tags around a payload: one word in front and one behind.
  const META: int := 8
  // Bytes of the two list links at the tail of a free payload.
  const LINKS: int := 8
  const FIRST_SIZE: int := FOUR_KB - 4

  // Block starts, each with the offset just past its block.
  type Ends = map<int, int>

  /** `free` is the free list in list order; `size` is where the heap ends. */
  datatype Layout = Layout(ends: Ends, free: seq<int>, size: int)

  function Payload(l: Layout, o: int): int
    requires o in l.ends
  {
    l.ends[o] - o - META
  }

  predicate Aligned(a: int) {
    a % 4 == 0
  }

  lemma AlignedSum(a: int, b: int)
    requires Aligned(a) && Aligned(b)
    ensures Aligned(a + b) && Aligned(a - b)
  {
    QuotientIs(a + b, 4, a / 4 + b / 4, 0);
    QuotientIs(a - b, 4, a / 4 - b / 4, 0);
  }

  ghost predicate Sized(ends: Ends, size: int) {
    forall o | o in ends ::
      0 <= o && Aligned(o) && Aligned(ends[o]) && o + META + LINKS <= ends[o] <= size
  }

  ghost predicate Disjoint(ends: Ends) {
    forall o, p | o in ends && p in ends && o < p :: ends[o] <= p
  }

  /** The block at `o` is the last one, or another starts where it ends. */
  ghost predicate Followed(ends: Ends, size: int, o: int)
    requires o in ends
  {
    ends[o] == size || ends[o] in ends
  }

  ghost predicate Gapless(ends: Ends, size: int) {
    && (size > 0 ==> 0 in ends)
    && (forall o {:trigger Followed(ends, size, o)} | o in ends :: Followed(ends, size, o))
  }

  /** The blocks cover [0, size) without gap or overlap, on word boundaries, and each
      has room for the links of the free list. */
  ghost predicate Tiled(ends: Ends, size: int) {
    0 <= size && Aligned(size) && Sized(ends, size) && Disjoint(ends) && Gapless(ends, size)
  }

  ghost predicate Valid(l: Layout) {
    && Tiled(l.ends, l.size)
    && Distinct(l.free)
    && (forall o | o in l.free :: o in l.ends)
  }

  lemma ListedIsBlock(l: Layout, i: nat)
    requires Valid(l) && i < |l.free|
    ensures l.free[i] in l.free && l.free[i] in l.ends
  {
    var o := l.free[i];
    assert o in l.free;
  }

  /** No two neighbouring blocks are both free. */
  ghost predicate Coalesced(l: Layout) {
    forall o | o in l.free && o in l.ends :: l.ends[o] !in l.free
  }

  // ----- Tilings ----------------------------------------------------------------------

  /** The block that ends at `p`, found by walking right from `from`. */
  function LeftFrom(ends: Ends, size: int, from: int, p: int): (o: int)
    requires Tiled(ends, size) && from in ends && from < p && (p in ends || p == size)
    ensures from <= o < p && o in ends && ends[o] == p
    decreases p - from
  {
    assert Followed(ends, size, from);
    if ends[from] == p then from else LeftFrom(ends, size, ends[from], p)
  }

  function Left(ends: Ends, size: int, p: int): (o: int)
    requires Tiled(ends, size) && 0 < p && (p in ends || p == size)
    ensures o < p && o in ends && ends[o] == p
  {
    LeftFrom(ends, size, 0, p)
  }

  function MergedEnds(ends: Ends, left: int, right: int): Ends
    requires left in ends && right in ends
  {
    (ends - {right})[left := ends[right]]
  }

  lemma MergedTiled(ends: Ends, size: int, left: int, right: int)
    requires Tiled(ends, size) && left in ends && right in ends && ends[left] == right
    ensures Tiled(MergedEnds(ends, left, right), size)
  {
    hide Aligned;
    var e := MergedEnds(ends, left, right);
    assert Sized(e, size);
    assert Disjoint(e);
    forall o | o in e ensures Followed(e, size, o) {
      assert Followed(ends, size, if o == left then right else o);
    }
  }

  function CutEnds(ends: Ends, o: int, cut: int): Ends
    requires o in ends
  {
    ends[o := cut][cut := ends[o]]
  }

  lemma CutTiled(ends: Ends, size: int, o: int, cut: int)
    requires Tiled(ends, size) && o in ends && Aligned(cut)
    requires o + META + LINKS <= cut && cut + META + LINKS <= ends[o]
    ensures cut !in ends && Tiled(CutEnds(ends, o, cut), size)
  {
    hide Aligned;
    var e := CutEnds(ends, o, cut);
    assert cut !in ends;
    assert Sized(e, size);
    assert Disjoint(e);
    forall p | p in e ensures Followed(e, size, p) {
      assert Followed(ends, size, if p == cut then o else p);
    }
  }

  // ----- Operations -------------------------------------------------------------------

  /** What the client holds: the blocks that are not free, with their ends. */
  ghost function Live(l: Layout): map<int, int> {
    map o | o in l.ends && o !in l.free :: l.ends[o]
  }

  lemma LiveWithout(l: Layout, o: int)
    requires Valid(l) && o in l.free
    ensures Live(l.(free := Without(l.free, o))) - {o} == Live(l)
  {
    WithoutElements(l.free, o);
  }

  /** Two adjacent free blocks become one, which keeps the place of the right one in the
      list. */
  function Merge(l: Layout, left: int): (l': Layout)
    requires Valid(l) && left in l.free && l.ends[left] in l.free
    ensures Valid(l') && l'.size == l.size && left in l'.free
  {
    var right := l.ends[left];
    WithoutElements(l.free, left);
    RenamedElements(Without(l.free, left), right, left);
    MergedTiled(l.ends, l.size, left, right);
    Layout(MergedEnds(l.ends, left, right), Renamed(Without(l.free, left), right, left), l.size)
  }

  lemma MergeEffect(l: Layout, left: int)
    requires Valid(l) && left in l.free && l.ends[left] in l.free
    ensures forall o :: o in Merge(l, left).free <==> o in l.free && o != l.ends[left]
    ensures Live(Merge(l, left)) == Live(l)
  {
    WithoutElements(l.free, left);
    RenamedElements(Without(l.free, left), l.ends[left], left);
  }

  /** A free block is cut after a payload of `bytes`; the left part moves to the head of
      the list, the right part takes the old place.  A remainder too small to stand alone
      is not cut off. */
  function Split(l: Layout, o: int, bytes: nat): (l': Layout)
    requires Valid(l) && o in l.free && Aligned(bytes) && LINKS <= bytes <= Payload(l, o)
    ensures Valid(l') && l'.size == l.size && o in l'.free
  {
    var cut := o + bytes + META;
    if Payload(l, o) < bytes + META + LINKS then l
    else
      assert Aligned(cut);
      CutTiled(l.ends, l.size, o, cut);
      RenamedElements(l.free, o, cut);
      AddedElements(Renamed(l.free, o, cut), o);
      hide Tiled, Distinct, Renamed;
      Layout(CutEnds(l.ends, o, cut), [o] + Renamed(l.free, o, cut), l.size)
  }

  lemma SplitEffect(l: Layout, o: int, bytes: nat)
    requires Valid(l) && o in l.free && Aligned(bytes) && LINKS <= bytes <= Payload(l, o)
    ensures var l' := Split(l, o, bytes);
            && (forall x :: x in l'.free <==> x in l.free || (l' != l && x == l'.ends[o]))
            && Live(l') == Live(l)
            && bytes <= Payload(l', o) < bytes + META + LINKS
  {
    var cut, l' := o + bytes + META, Split(l, o, bytes);
    if Payload(l, o) >= bytes + META + LINKS {
      CutTiled(l.ends, l.size, o, cut);
      RenamedElements(l.free, o, cut);
      AddedElements(Renamed(l.free, o, cut), o);
      assert forall x :: x in l'.free <==> x in l.free || x == cut;
      assert Live(l').Keys == Live(l).Keys;
    }
  }

  /** A block joins the free list at its head. */
  function Listed(l: Layout, o: int): (l': Layout)
    requires Valid(l) && o in l.ends && o !in l.free
    ensures Valid(l') && l'.size == l.size && o in l'.free
  {
    AddedElements(l.free, o);
    l.(free := [o] + l.free)
  }

  lemma LiveListed(l: Layout, o: int)
    requires Valid(l) && o in l.ends && o !in l.free
    ensures Live(Listed(l, o)) == Live(l) - {o}
  {
    AddedElements(l.free, o);
  }

  function AbsorbRight(l: Layout, o: int): (l': Layout)
    requires Valid(l) && o in l.free
    ensures Valid(l') && l'.size == l.size && o in l'.free
  {
    if l.ends[o] in l.free then Merge(l, o) else l
  }

  lemma AbsorbRightLive(l: Layout, o: int)
    requires Valid(l) && o in l.free
    ensures Live(AbsorbRight(l, o)) == Live(l)
  {
    if l.ends[o] in l.free { MergeEffect(l, o); }
  }

  function JoinLeft(l: Layout, o: int): (l': Layout)
    requires Valid(l) && o in l.free
    ensures Valid(l') && l'.size == l.size
  {
    if o > 0 && Left(l.ends, l.size, o) in l.free then Merge(l, Left(l.ends, l.size, o)) else l
  }

  /** Freeing a block: it joins the list, absorbs a free right neighbour, and is absorbed
      by a free left one. */
  function Freed(l: Layout, o: int): (l': Layout)
    requires Valid(l) && o in l.ends && o !in l.free
    ensures Valid(l') && l'.size == l.size
  {
    JoinLeft(AbsorbRight(Listed(l, o), o), o)
  }

  lemma AbsorbRightEffect(l: Layout, o: int)
    requires Valid(l) && o in l.free
    requires forall x | x in l.free && l.ends[x] in l.free :: x == o || l.ends[x] == o
    ensures var l' := AbsorbRight(l, o);
            && (forall x | x in l'.free && l'.ends[x] in l'.free :: l'.ends[x] == o)
            && Live(l') == Live(l)
  {
    if l.ends[o] in l.free { MergeEffect(l, o); }
  }

  lemma JoinLeftEffect(l: Layout, o: int)
    requires Valid(l) && o in l.free
    requires forall x | x in l.free && l.ends[x] in l.free :: l.ends[x] == o
    ensures Coalesced(JoinLeft(l, o)) && Live(JoinLeft(l, o)) == Live(l)
  {
    if o > 0 && Left(l.ends, l.size, o) in l.free { MergeEffect(l, Left(l.ends, l.size, o)); }
  }

  /** Freeing takes exactly the freed block from the client, and leaves no two free
      neighbours. */
  lemma FreeEffect(l: Layout, o: int)
    requires Valid(l) && Coalesced(l) && o in l.ends && o !in l.free
    ensures Coalesced(Freed(l, o))
    ensures Live(Freed(l, o)) == Live(l) - {o}
  {
    AddedElements(l.free, o);
    LiveListed(l, o);
    var l0 := Listed(l, o);
    AbsorbRightEffect(l0, o);
    JoinLeftEffect(AbsorbRight(l0, o), o);
  }

  function RoundUpTo8(bytes: nat): (r: nat)
    ensures r % 8 == 0 && bytes <= r < bytes + 8
    ensures Aligned(r)
  {
    if bytes % 8 == 0 then bytes else (bytes / 8 + 1) * 8
  }

  function RoundUpTo4Kb(bytes: nat): (r: nat)
    ensures r % FOUR_KB == 0 && bytes <= r < bytes + FOUR_KB
    ensures Aligned(r)
  {
    var r := if bytes % FOUR_KB == 0 then bytes else (bytes / FOUR_KB + 1) * FOUR_KB;
    PagesAreWords(r);
    r
  }

  lemma PagesAreWords(r: int)
    requires r % FOUR_KB == 0
    ensures Aligned(r)
  {
    assert r == 4 * (1024 * (r / FOUR_KB));
  }

  /** The first block in list order, from position `from`, with room for `bytes`; the
      length of the list if there is none. */
  function FirstFit(l: Layout, bytes: nat, from: nat): (k: nat)
    requires Valid(l) && from <= |l.free|
    ensures from <= k <= |l.free|
    ensures k < |l.free| ==> bytes <= Payload(l, l.free[k])
    ensures forall i | from <= i < k :: Payload(l, l.free[i]) < bytes
    decreases |l.free| - from
  {
    if from == |l.free| || Payload(l, l.free[from]) >= bytes then from
    else FirstFit(l, bytes, from + 1)
  }

  /** A free block is cut to `bytes` and handed out. */
  function Occupied(l: Layout, o: int, bytes: nat): (l': Layout)
    requires Valid(l) && o in l.free && Aligned(bytes) && LINKS <= bytes <= Payload(l, o)
    ensures Valid(l') && l'.size == l.size
  {
    var cut := Split(l, o, bytes);
    WithoutElements(cut.free, o);
    cut.(free := Without(cut.free, o))
  }

  /** `needed` more bytes arrive behind the heap and are freed there. */
  function Extended(l: Layout, needed: int): (l': Layout)
    requires Valid(l) && Aligned(needed) && needed >= META + LINKS
    ensures Valid(l') && l.size in l'.ends && l.size !in l'.free && l'.size == l.size + needed
  {
    ExtendedTiled(l.ends, l.size, needed);
    hide Tiled;
    Layout(l.ends[l.size := l.size + needed], l.free, l.size + needed)
  }

  lemma ExtendedTiled(ends: Ends, size: int, needed: int)
    requires Tiled(ends, size) && Aligned(needed) && needed >= META + LINKS
    ensures size !in ends && Tiled(ends[size := size + needed], size + needed)
  {
    var e := ends[size := size + needed];
    assert Aligned(size + needed);
    hide Aligned;
    assert Sized(e, size + needed);
    assert Disjoint(e);
    forall o | o in e ensures Followed(e, size + needed, o) {
      if o != size { assert Followed(ends, size, o); }
    }
    if size == 0 {
      // The new block is the only one.
    } else {
      // Block 0 was there before.
      assert 0 in e;
    }
  }

  function Grown(l: Layout, needed: int): (l': Layout)
    requires Valid(l) && Aligned(needed) && needed >= META + LINKS
    ensures Valid(l') && l'.size == l.size + needed
  {
    Freed(Extended(l, needed), l.size)
  }

  const EMPTY := Layout(map[], [], 0)

  /** The heap as it is before the first request is served. */
  function Started(l: Layout): (l': Layout)
    requires Valid(l)
    ensures Valid(l')
  {
    if l.size == 0 then Grown(l, FIRST_SIZE) else l
  }

  /** The block that ends a grown heap is free and holds what was asked for. */
  lemma GrownEnd(l: Layout, needed: int)
    requires Valid(l) && Aligned(needed) && needed >= META + LINKS
    ensures var l' := Grown(l, needed);
            var o := Left(l'.ends, l'.size, l'.size);
            o in l'.free && Payload(l', o) >= needed - META
  {
    var l0 := Extended(l, needed);
    AddedElements(l0.free, l.size);
    var l1 := Listed(l0, l.size);
    assert AbsorbRight(l1, l.size) == l1 by { assert l.size + needed !in l1.ends; }
    if l.size > 0 && Left(l1.ends, l1.size, l.size) in l1.free {
      MergeEffect(l1, Left(l1.ends, l1.size, l.size));
    }
  }

  /** With no room left the heap grows by whole pages, and the block that then ends it is
      handed out. */
  function Fetch(l: Layout, b: int): (r: (Layout, int))
    requires Valid(l) && Aligned(b) && LINKS <= b
    ensures Valid(r.0)
  {
    assert l.size >= 0;
    hide Grown, Occupied, Tiled, Distinct;
    var needed := RoundUpTo4Kb(b + META);
    var l1 := Grown(l, needed);
    var o := Left(l1.ends, l1.size, l1.size);
    GrownEnd(l, needed);
    (Occupied(l1, o, b), o)
  }

  /** A request: the first fit if there is one, otherwise fresh memory.  The result is the
      new layout and the offset of the block. */
  function Allocate(l: Layout, bytes: nat): (r: (Layout, int))
    requires Valid(l) && bytes > 0
    ensures Valid(r.0)
  {
    var b, l0 := RoundUpTo8(bytes), Started(l);
    var k := FirstFit(l0, b, 0);
    if k < |l0.free| then (Occupied(l0, l0.free[k], b), l0.free[k]) else Fetch(l0, b)
  }

  // ----- Effects ----------------------------------------------------------------------

  lemma FreeLive(l: Layout, o: int)
    requires Valid(l) && o in l.ends && o !in l.free
    ensures Live(Freed(l, o)) == Live(l) - {o}
  {
    var l1 := Listed(l, o);
    LiveListed(l, o);
    AbsorbRightLive(l1, o);
    var l2 := AbsorbRight(l1, o);
    if o > 0 && Left(l2.ends, l2.size, o) in l2.free { MergeEffect(l2, Left(l2.ends, l2.size, o)); }
  }

  lemma GrownLive(l: Layout, needed: int)
    requires Valid(l) && Aligned(needed) && needed >= META + LINKS
    ensures Live(Grown(l, needed)) == Live(l)
  {
    ExtendedLive(l, needed);
    FreeLive(Extended(l, needed), l.size);
  }

  lemma ExtendedEffect(l: Layout, needed: int)
    requires Valid(l) && Coalesced(l) && Aligned(needed) && needed >= META + LINKS
    ensures Coalesced(Extended(l, needed)) && l.size !in Live(l)
    ensures Live(Extended(l, needed)) == Live(l)[l.size := l.size + needed]
  {
    ExtendedTiled(l.ends, l.size, needed);
  }

  lemma ExtendedLive(l: Layout, needed: int)
    requires Valid(l) && Aligned(needed) && needed >= META + LINKS
    ensures Live(Extended(l, needed)) - {l.size} == Live(l)
  {
    ExtendedTiled(l.ends, l.size, needed);
  }

  lemma GrownEffect(l: Layout, needed: int)
    requires Valid(l) && Coalesced(l) && Aligned(needed) && needed >= META + LINKS
    ensures Coalesced(Grown(l, needed)) && Live(Grown(l, needed)) == Live(l)
  {
    hide Extended, Freed, Coalesced, Tiled, Distinct, Live;
    ExtendedEffect(l, needed);
    FreeEffect(Extended(l, needed), l.size);
  }

  /** `l'` is `l` after the client was granted the block `o` with room for `bytes`. */
  ghost predicate Granted(l: Layout, l': Layout, o: int, bytes: nat) {
    && Coalesced(l')
    && o !in Live(l) && o in l'.ends
    && bytes <= Payload(l', o) < bytes + META + LINKS
    && Live(l') == Live(l)[o := l'.ends[o]]
  }

  /** Only the two halves of a cut block can be free neighbours. */
  lemma SplitNeighbours(l: Layout, o: int, bytes: nat, x: int)
    requires Valid(l) && Coalesced(l) && o in l.free && Aligned(bytes) && LINKS <= bytes <= Payload(l, o)
    requires x != o && x in Split(l, o, bytes).free
    ensures var l' := Split(l, o, bytes); l'.ends[x] in l'.free ==> l'.ends[x] == o
  {
    hide Distinct;
    SplitEffect(l, o, bytes);
  }

  lemma OccupyEffect(l: Layout, o: int, bytes: nat)
    requires Valid(l) && Coalesced(l) && o in l.free && Aligned(bytes) && LINKS <= bytes <= Payload(l, o)
    ensures Granted(l, Occupied(l, o, bytes), o, bytes)
  {
    hide Tiled, Distinct;
    var cut := Split(l, o, bytes);
    SplitEffect(l, o, bytes);
    WithoutElements(cut.free, o);
    var l' := Occupied(l, o, bytes);
    assert Live(l') == Live(cut)[o := cut.ends[o]];
    forall x | x in l'.free ensures l'.ends[x] !in l'.free {
      SplitNeighbours(l, o, bytes, x);
    }
  }

  lemma StartedEffect(l: Layout)
    requires Valid(l) && Coalesced(l)
    ensures Coalesced(Started(l)) && Live(Started(l)) == Live(l)
  {
    if l.size == 0 { GrownEffect(l, FIRST_SIZE); }
  }

  lemma FetchEffect(l: Layout, b: int)
    requires Valid(l) && Coalesced(l) && Aligned(b) && LINKS <= b
    ensures Granted(l, Fetch(l, b).0, Fetch(l, b).1, b)
  {
    hide Grown, Occupied, Coalesced, Tiled, Distinct;
    var needed := RoundUpTo4Kb(b + META);
    GrownEffect(l, needed);
    GrownEnd(l, needed);
    var l1 := Grown(l, needed);
    OccupyEffect(l1, Left(l1.ends, l1.size, l1.size), b);
  }

  /** Serving a request gives the client one new block with room for it, and leaves the
      blocks it already holds as they were. */
  lemma AllocateEffect(l: Layout, bytes: nat)
    requires Valid(l) && Coalesced(l) && bytes > 0
    ensures Granted(l, Allocate(l, bytes).0, Allocate(l, bytes).1, RoundUpTo8(bytes))
  {
    hide Fetch, Occupied, Started, Live, Coalesced, Tiled, Distinct;
    var b := RoundUpTo8(bytes);
    StartedEffect(l);
    var l0 := Started(l);
    var k := FirstFit(l0, b, 0);
    if k < |l0.free| {
      OccupyEffect(l0, l0.free[k], b);
    } else {
      FetchEffect(l0, b);
    }
  }

  /** The heap grows only when no free block has room, and then by whole pages. */
  lemma GrowsOnlyWhenFull(l: Layout, bytes: nat)
    requires Valid(l) && bytes > 0
    ensures var l0, l' := Started(l), Allocate(l, bytes).0;
            && (l'.size == l0.size <==> exists o | o in l0.free :: Payload(l0, o) >= RoundUpTo8(bytes))
            && (l'.size != l0.size ==> l'.size == l0.size + RoundUpTo4Kb(RoundUpTo8(bytes) + META))
  {
    var l0 := Started(l);
    var k := FirstFit(l0, RoundUpTo8(bytes), 0);
    if k < |l0.free| { assert l0.free[k] in l0.free; }
  }

  /** A first fit is what a request is answered with; it is what `Occupied` makes of the free
      block found. */
  lemma AllocateFits(l: Layout, bytes: nat)
    requires Valid(l) && bytes > 0
    ensures var b, l0 := RoundUpTo8(bytes), Started(l);
            var k := FirstFit(l0, b, 0);
            && Aligned(b) && LINKS <= b
            && (k < |l0.free| ==>
                  && l0.free[k] in l0.free && l0.free[k] in l0.ends && 0 <= l0.free[k]
                  && b <= Payload(l0, l0.free[k])
                  && Allocate(l, bytes) == (Occupied(l0, l0.free[k], b), l0.free[k]))
            && (k == |l0.free| ==> Allocate(l, bytes) == Fetch(l0, b))
    ensures var (l', o) := Allocate(l, bytes); o in l'.ends && RoundUpTo8(bytes) <= Payload(l', o)
  {
    hide Distinct, Started, Occupied, Fetch;
    var l0 := Started(l);
    var k := FirstFit(l0, RoundUpTo8(bytes), 0);
    if k < |l0.free| {
      ListedIsBlock(l0, k);
      OccupiedFits(l0, l0.free[k], RoundUpTo8(bytes));
    } else {
      FetchIs(l0, RoundUpTo8(bytes));
      FetchFits(l0, RoundUpTo8(bytes));
    }
  }

  lemma OccupiedFits(l: Layout, o: int, bytes: nat)
    requires Valid(l) && o in l.free && Aligned(bytes) && LINKS <= bytes <= Payload(l, o)
    ensures var l' := Occupied(l, o, bytes); o in l'.ends && bytes <= Payload(l', o)
  {
    hide Tiled, Distinct;
    SplitEffect(l, o, bytes);
  }

  lemma FetchFits(l: Layout, b: int)
    requires Valid(l) && Aligned(b) && LINKS <= b
    ensures var (l', o) := Fetch(l, b); o in l'.ends && b <= Payload(l', o)
  {
    hide Occupied, Grown;
    FetchIs(l, b);
    var l1 := Grown(l, RoundUpTo4Kb(b + META));
    OccupiedFits(l1, Left(l1.ends, l1.size, l1.size), b);
  }

  /** There is a first fit if and only if some free block is large enough. */
  lemma FitsOrGrows(l: Layout, bytes: nat)
    requires Valid(l)
    ensures var l0, b := Started(l), RoundUpTo8(bytes);
            FirstFit(l0, b, 0) < |l0.free| <==> exists o | o in l0.free :: b <= Payload(l0, o)
  {
    hide Tiled, Distinct, Started;
    var l0, b := Started(l), RoundUpTo8(bytes);
    var k := FirstFit(l0, b, 0);
    if k < |l0.free| { assert l0.free[k] in l0.free; }
  }

  lemma StartedSize(l: Layout)
    requires Valid(l)
    ensures l.size <= Started(l).size <= l.size + FIRST_SIZE && Started(l).size != 0
    ensures l.size != 0 ==> Started(l) == l
    ensures Live(Started(l)) == Live(l)
  {
    if l.size == 0 { GrownLive(l, FIRST_SIZE); }
  }

  lemma FetchIs(l: Layout, b: int)
    requires Valid(l) && Aligned(b) && LINKS <= b
    ensures var needed := RoundUpTo4Kb(b + META);
            && Aligned(needed) && META + LINKS <= needed
            && var l1 := Grown(l, needed);
            && 0 < l1.size
            && var o := Left(l1.ends, l1.size, l1.size);
            && o in l1.free && b <= Payload(l1, o) && Fetch(l, b) == (Occupied(l1, o, b), o)
  {
    GrownEnd(l, RoundUpTo4Kb(b + META));
  }

  // ----- The order of the free list ---------------------------------------------------

  lemma FirstRemoved(s: seq<int>, x: int)
    ensures x in [x] + s && Without([x] + s, x) == s
  {
    assert ([x] + s)[0] == x;
  }

  /** A block that is cut leaves its remainder in its place in the list. */
  lemma OccupiedPlace(l: Layout, k: nat, bytes: nat)
    requires Valid(l) && k < |l.free| && l.free[k] in l.ends && l.free[k] in l.free
    requires Aligned(bytes) && LINKS <= bytes <= Payload(l, l.free[k])
    ensures var o, l' := l.free[k], Occupied(l, l.free[k], bytes);
            var cut := o + bytes + META;
            if cut + META + LINKS <= l.ends[o]
            then l'.free == l.free[k := cut] && l'.ends == l.ends[o := cut][cut := l.ends[o]]
            else l'.free == l.free[..k] + l.free[k + 1..] && l'.ends == l.ends
  {
    hide Tiled, Aligned;
    var o := l.free[k];
    IndexUnique(l.free, k);
    FirstRemoved(Renamed(l.free, o, o + bytes + META), o);
  }

  /** The list before a free left neighbour is looked for. */
  lemma AbsorbedPlace(l: Layout, o: int)
    requires Valid(l) && o in l.ends && o !in l.free
    ensures var r, l2 := l.ends[o], AbsorbRight(Listed(l, o), o);
            && l2.free == (if r in l.free then Renamed(l.free, r, o) else [o] + l.free)
            && (forall p | p in l.ends && p < o :: p in l2.ends && l2.ends[p] == l.ends[p])
  {
    hide Tiled, Distinct, Renamed, Without;
    RightOf(l, o);
    FirstRemoved(l.free, o);
    AddedElements(l.free, o);
  }

  lemma RightOf(l: Layout, o: int)
    requires Valid(l) && o in l.ends
    ensures l.ends[o] > o
  {
  }

  /** A freed block is first in the list, or has the place of its right neighbour if that is
      free; a free left neighbour gives up its own place for it. */
  lemma FreedPlace(l: Layout, o: int)
    requires Valid(l) && o in l.ends && o !in l.free
    ensures var r, f := l.ends[o], Freed(l, o).free;
            if o > 0 && Left(l.ends, l.size, o) in l.free then
              var p := Left(l.ends, l.size, o);
              f == if r in Without(l.free, p) then Renamed(Without(l.free, p), r, p) else [p] + Without(l.free, p)
            else f == if r in l.free then Renamed(l.free, r, o) else [o] + l.free
  {
    hide Listed, AbsorbRight, Tiled, Distinct;
    AbsorbedPlace(l, o);
    var r, l2 := l.ends[o], AbsorbRight(Listed(l, o), o);
    if o > 0 { LeftUnique(l2, o, Left(l.ends, l.size, o)); }
    if r in l.free { RenamedElements(l.free, r, o); } else { AddedElements(l.free, o); }
    if o > 0 {
      var p := Left(l.ends, l.size, o);
      if p in l.free {
        RightIsNotLeft(l, o);
        WithoutElements(l.free, p);
        hide Left, Renamed, Without;
        if r in l.free { RenamedTwice(l.free, r, o, p); } else { WithoutBehind(l.free, o, p); }
      }
    }
  }

  lemma RightIsNotLeft(l: Layout, o: int)
    requires Valid(l) && o in l.ends && 0 < o
    ensures Left(l.ends, l.size, o) < o < l.ends[o]
  {
  }

  lemma LeftUnique(l: Layout, o: int, p: int)
    requires Valid(l) && 0 < o && (o in l.ends || o == l.size) && p in l.ends && l.ends[p] == o
    ensures Left(l.ends, l.size, o) == p
  {
    assert Disjoint(l.ends);
  }

  lemma WithoutBehind(s: seq<int>, o: int, p: int)
    requires Distinct(s) && o !in s && p in s
    ensures p in [o] + s && o in Without([o] + s, p)
    ensures Renamed(Without([o] + s, p), o, p) == [p] + Without(s, p)
  {
    var k := Index(s, p);
    AddedElements(s, o);
    IndexUnique([o] + s, k + 1);
    assert Without([o] + s, p) == [o] + Without(s, p);
    assert ([o] + Without(s, p))[0] == o;
  }

  lemma RemoveUpdated(s: seq<int>, i: nat, k: nat, x: int)
    requires i < |s| && k < |s| && i != k
    ensures RemoveAt(s[i := x], k) == RemoveAt(s, k)[if i < k then i else i - 1 := x]
  {
  }

  lemma RenamedTwice(s: seq<int>, r: int, o: int, p: int)
    requires Distinct(s) && o !in s && p in s && r in s && r != p
    ensures p in Renamed(s, r, o) && o in Without(Renamed(s, r, o), p) && r in Without(s, p)
    ensures Renamed(Without(Renamed(s, r, o), p), o, p) == Renamed(Without(s, p), r, p)
  {
    hide Distinct, Index, RemoveAt;
    RenamedElements(s, r, o);
    WithoutElements(s, p);
    var k, i := Index(s, p), Index(s, r);
    var t, u, j := Renamed(s, r, o), Without(s, p), if i < k then i else i - 1;
    assert t[k] == p;
    IndexUnique(t, k);
    WithoutElements(t, p);
    RemoveUpdated(s, i, k, o);
    assert Without(t, p) == u[j := o];
    IndexUnique(u[j := o], j);
    IndexUnique(u, j);
    assert u[j := o][j := p] == u[j := p];
  }

  /** The block freed last is the first to be offered, unless it was joined to one on its
      right. */
  lemma LastFreedFirst(l: Layout, o: int, bytes: nat)
    requires Valid(l) && o in l.ends && o !in l.free && l.ends[o] !in l.free
    requires 0 < bytes && RoundUpTo8(bytes) <= Payload(l, o)
    ensures Allocate(Freed(l, o), bytes).1 ==
            if o > 0 && Left(l.ends, l.size, o) in l.free then Left(l.ends, l.size, o) else o
  {
    hide Occupied, Fetch, Distinct, Freed;
    FreedPlace(l, o);
    FreedHead(l, o);
    var l' := Freed(l, o);
    assert FirstFit(l', RoundUpTo8(bytes), 0) == 0;
  }

  lemma FreedHead(l: Layout, o: int)
    requires Valid(l) && o in l.ends && o !in l.free && l.ends[o] !in l.free
    ensures l.size > 0
    ensures var h := if o > 0 && Left(l.ends, l.size, o) in l.free then Left(l.ends, l.size, o) else o;
            0 <= h <= o && h in Freed(l, o).ends && Freed(l, o).ends[h] == l.ends[o]
  {
    AddedElements(l.free, o);
    if o > 0 { LeftUnique(l, o, Left(l.ends, l.size, o)); }
  }

  /** Fresh memory is used from where the last block starts if that is free, and else from the
      old end of the heap. */
  lemma FetchPlace(l: Layout, b: int)
    requires Valid(l) && Aligned(b) && LINKS <= b
    ensures Fetch(l, b).1 ==
            if l.size > 0 && Left(l.ends, l.size, l.size) in l.free then Left(l.ends, l.size, l.size) else l.size
  {
    hide Occupied, Distinct, Left, Freed;
    var needed, n := RoundUpTo4Kb(b + META), l.size;
    var e, l1 := Extended(l, needed), Grown(l, needed);
    FreedHead(e, n);
    FetchIs(l, b);
    if n > 0 {
      LeftUnique(e, n, Left(l.ends, n, n));
      LeftUnique(l1, l1.size, if Left(l.ends, n, n) in l.free then Left(l.ends, n, n) else n);
    } else {
      LeftUnique(l1, l1.size, n);
    }
  }

  // ----- Runs -------------------------------------------------------------------------

  datatype Request = Malloc(bytes: nat) | Release(o: int)

  /** A layout together with what its client was granted: block offsets and the sizes
      that were asked for. */
  datatype Session = Session(heap: Layout, held: map<int, int>)

  /** A client frees only what it holds. */
  ghost predicate Legal(s: Session, r: Request) {
    match r
    case Malloc(_) => true
    case Release(o) => o in s.held
  }

  ghost predicate Sound(s: Session) {
    && Valid(s.heap) && Coalesced(s.heap)
    && s.held.Keys == Live(s.heap).Keys
    && (forall o | o in s.held :: s.held[o] <= Payload(s.heap, o))
  }

  /** A request for no bytes is answered with a null pointer and changes nothing. */
  ghost function Serve(s: Session, r: Request): Session
    requires Sound(s) && Legal(s, r)
  {
    match r
    case Malloc(bytes) =>
      if bytes == 0 then s
      else
        var (l, o) := Allocate(s.heap, bytes);
        Session(l, s.held[o := bytes])
    case Release(o) => Session(Freed(s.heap, o), s.held - {o})
  }

  lemma MallocSound(s: Session, bytes: nat)
    requires Sound(s) && bytes > 0
    ensures var (l, o) := Allocate(s.heap, bytes);
            && Sound(Session(l, s.held[o := bytes]))
            && (forall p | p in s.held :: p in Live(l) && Live(l)[p] == Live(s.heap)[p])
  {
    hide Allocate, Valid, Coalesced;
    AllocateEffect(s.heap, bytes);
    var (l, o) := Allocate(s.heap, bytes);
    assert Live(l).Keys == Live(s.heap).Keys + {o};
    forall p | p in s.held[o := bytes] ensures s.held[o := bytes][p] <= Payload(l, p) {
      if p != o { assert Live(l)[p] == Live(s.heap)[p]; }
    }
  }

  lemma ReleaseSound(s: Session, o: int)
    requires Sound(s) && o in s.held
    ensures var l := Freed(s.heap, o);
            && Sound(Session(l, s.held - {o}))
            && (forall p | p in s.held && p != o :: p in Live(l) && Live(l)[p] == Live(s.heap)[p])
  {
    hide Freed, Valid, Coalesced;
    FreeEffect(s.heap, o);
    var l := Freed(s.heap, o);
    assert Live(l).Keys == Live(s.heap).Keys - {o};
    forall p | p in s.held && p != o
      ensures p in Live(l) && Live(l)[p] == Live(s.heap)[p] && s.held[p] <= Payload(l, p)
    {
      assert p in Live(s.heap);
    }
  }

  /** Every legal request keeps the session sound, and leaves alone every block it does
      not name. */
  lemma ServeSound(s: Session, r: Request)
    requires Sound(s) && Legal(s, r)
    ensures Sound(Serve(s, r))
    ensures forall o | o in s.held && r != Release(o) ::
              o in Live(Serve(s, r).heap) && Live(Serve(s, r).heap)[o] == Live(s.heap)[o]
  {
    match r
    case Malloc(bytes) => if bytes > 0 { MallocSound(s, bytes); }
    case Release(o) => ReleaseSound(s, o);
  }

  ghost predicate Run(s: Session, rs: seq<Request>, t: Session)
    decreases |rs|
  {
    if rs == [] then s == t
    else Sound(s) && Legal(s, rs[0]) && Run(Serve(s, rs[0]), rs[1..], t)
  }

  lemma {:induction false} RunSound(s: Session, rs: seq<Request>, t: Session)
    requires Sound(s) && Run(s, rs, t)
    ensures Sound(t)
    decreases |rs|
  {
    if rs != [] {
      ServeSound(s, rs[0]);
      RunSound(Serve(s, rs[0]), rs[1..], t);
    }
  }

  /** After any run from an empty heap the payloads the client holds lie inside the heap,
      are as large as asked for, and do not overlap. */
  lemma HeldPayloadsDisjoint(rs: seq<Request>, t: Session)
    requires Run(Session(EMPTY, map[]), rs, t)
    ensures forall o | o in t.held :: o in t.heap.ends && o + 4 + t.held[o] <= t.heap.ends[o] - 4 <= t.heap.size
    ensures forall o, p | o in t.held && p in t.held && o < p :: o + 4 + t.held[o] < p + 4
  {
    RunSound(Session(EMPTY, map[]), rs, t);
  }

  /** A client that has given everything back leaves one free block that spans the
      heap. */
  lemma AllReleased(rs: seq<Request>, t: Session)
    requires Run(Session(EMPTY, map[]), rs, t) && t.held == map[] && t.heap.size > 0
    ensures t.heap == Layout(map[0 := t.heap.size], [0], t.heap.size)
  {
    RunSound(Session(EMPTY, map[]), rs, t);
    AllFree(t.heap);
  }

  lemma AllFree(l: Layout)
    requires Valid(l) && Coalesced(l) && l.size > 0 && Live(l) == map[]
    ensures l == Layout(map[0 := l.size], [0], l.size)
  {
    assert |l.free| > 1 ==> l.free[0] != l.free[1];
    forall o | o in l.ends ensures o in l.free { assert o !in Live(l); }
    assert Followed(l.ends, l.size, 0);
    assert forall o | o in l.ends :: o == 0;
    assert l.ends == map[0 := l.size];
    assert forall i | 0 <= i < |l.free| :: l.free[i] in l.ends;
    assert 0 in l.free;
  }
}
