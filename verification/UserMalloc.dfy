/** The allocator of the user library, over its memory. */
module UserMalloc {
  import opened Arithmetic
  import opened HeapLayout
  import opened Lists
  import opened HeapMemory
  import opened HeapCut

  // Where the program sees the first word of the heap.
  const HEAP_START: int := 0x10000004
  const NULL: int := 0

  // Where the system puts the first page of the heap.
  const FIRST_PAGE: int := 0x10000000

  // No words before the heap has been used.
  lemma NotMapped(mem: Mem, size: int, size': int)
    requires Mapped(mem, size') && (size == size' || size <= 0 == size')
    ensures Mapped(mem, size)
  {
  }

  lemma WholeAlready(bytes: nat)
    requires bytes % FOUR_KB == 0
    ensures RoundUpTo4Kb(bytes) == bytes
  {
  }

  class UserHeap {
    // Words by byte offset from the start of the heap.
    var mem: Mem
    var allocatedSize: int
    var freeBlockListStart: int
    // The end of the memory that the system has handed over, which is the system's to keep.
    var programBreak: int
    ghost var layout: Layout

    /** The heap ends where that memory ends; before its first use there is none of either. */
    ghost predicate EndsAtBreak()
      reads this`allocatedSize, this`programBreak
    {
      programBreak == if allocatedSize == 0 then FIRST_PAGE else HEAP_START + allocatedSize
    }

    ghost predicate Valid()
      reads this
    {
      allocatedSize == layout.size && Represents(mem, freeBlockListStart, layout) && EndsAtBreak()
    }

    constructor ()
      ensures Valid() && layout == EMPTY
    {
      mem, allocatedSize, freeBlockListStart, layout := map[], 0, END_OF_LIST, EMPTY;
      programBreak := FIRST_PAGE;
    }

    method SetSize(tag: int, sz: int)
      requires tag in mem
      modifies this`mem
      ensures mem == old(mem)[tag := Tag(IsFree(old(mem), tag), sz)]
    {
      mem := mem[tag := Tag(IsFree(mem, tag), sz)];
    }

    method SetFree(tag: int, isFree: bool)
      requires tag in mem
      modifies this`mem
      ensures mem == old(mem)[tag := Tag(isFree, Size(old(mem), tag))]
    {
      mem := mem[tag := Tag(isFree, Size(mem, tag))];
    }

    // ----- Free list ------------------------------------------------------------------

    method AddToFreeList(offset: int)
      requires PushReads(mem, layout.ends, layout.free, offset)
      requires freeBlockListStart == HeadOf(layout.free)
      modifies this`mem, this`freeBlockListStart
      ensures mem == Pushed(old(mem), layout.ends, layout.free, offset)
      ensures freeBlockListStart == offset
    {
      hide Tag, SizeField, FreeField, Aligned;
      var back := End(mem, offset);
      mem := mem[NextLink(back) := freeBlockListStart];
      mem := mem[PrevLink(back) := END_OF_LIST];
      if freeBlockListStart != END_OF_LIST {
        mem := mem[PrevLink(End(mem, freeBlockListStart)) := offset];
      }
      freeBlockListStart := offset;
    }

    /** The neighbours in the list of the block at `offset`, which are `prev` and `next`,
        get `forward` and `backward` as their links towards it. */
    method RedirectNeighbours(offset: int, forward: int, backward: int,
                              ghost ends: Ends, ghost prev: int, ghost next: int)
      requires SpliceReads(mem, ends, offset, prev, next)
      modifies this`mem
      ensures mem == Redirected(old(mem), ends, prev, next, forward, backward)
    {
      hide Tag, SizeField, FreeField, Aligned;
      var back := End(mem, offset);
      if mem[PrevLink(back)] != END_OF_LIST {
        mem := mem[NextLink(End(mem, mem[PrevLink(back)])) := forward];
      }
      assert mem[NextLink(back)] == next;
      if mem[NextLink(back)] != END_OF_LIST {
        mem := mem[PrevLink(End(mem, mem[NextLink(back)])) := backward];
      }
    }

    method RemoveFromFreeList(offset: int)
      requires HeapLayout.Valid(layout) && AllSized(mem, layout.ends) && offset in layout.free
      requires Linked(mem, layout.ends, layout.free) && freeBlockListStart == HeadOf(layout.free)
      requires layout.size < LIMIT
      modifies this`mem, this`freeBlockListStart
      ensures Linked(mem, layout.ends, Without(layout.free, offset))
      ensures freeBlockListStart == HeadOf(Without(layout.free, offset))
      ensures OnlyLinksChanged(old(mem), mem, layout)
    {
      hide Tag, SizeField, FreeField, Aligned;
      ghost var k := Index(layout.free, offset);
      ghost var prev, next := PrevOf(layout.free, k), NextOf(layout.free, k);
      UnlinkSpells(mem, layout, offset);
      LinkedMapped(mem, layout);
      RedirectedFrame(mem, layout, offset, next, prev);
      Neighbours(layout, k);
      ListedSpliceReads(mem, layout, k);
      hide HeapLayout.Valid, Linked, AllSized, OnlyLinksChanged, Without, HeadOf;
      var back := End(mem, offset);
      if freeBlockListStart == offset {
        freeBlockListStart := mem[NextLink(back)];
      }
      RedirectNeighbours(offset, mem[NextLink(back)], mem[PrevLink(back)], layout.ends, prev, next);
    }

    // ----- Blocks ---------------------------------------------------------------------

    method MarkTags(offset: int, isFree: bool, ghost ends: Ends)
      requires offset in ends && SizedAt(mem, ends, offset)
      modifies this`mem
      ensures mem == Retagged(old(mem), ends, offset, isFree)
    {
      hide Tag, SizeField, FreeField;
      TagFields(isFree, Size(mem, offset));
      SetFree(offset, isFree);
      SetFree(BackTag(End(mem, offset)), isFree);
    }

    method MarkOccupied(offset: int)
      requires Valid() && offset in layout.free
      modifies this`mem, this`freeBlockListStart, this`layout
      ensures Valid() && layout == old(layout).(free := Without(old(layout.free), offset))
      ensures Kept(old(mem), mem, Live(old(layout)))
    {
      hide Tag, SizeField, FreeField, Aligned;
      ghost var m0, l0 := mem, layout;
      TagsSized(m0, l0);
      assert SizedAt(m0, l0.ends, offset);
      RetaggedEffect(m0, l0, offset, false);
      hide Retagged, Tagged, TaggedExcept, AllSized, Linked, OnlyLinksChanged, Without, Tiled, Distinct, Kept;
      MarkTags(offset, false, l0.ends);
      ghost var m1 := mem;
      RemoveFromFreeList(offset);
      layout := l0.(free := Without(l0.free, offset));
      WithoutElements(l0.free, offset);
      TagsAfterLinks(m1, mem, l0, layout.free, offset);
      LiveKept(m0, m1, mem, l0, offset);
    }

    /** The block at `left` grows over the one at `right`; both outer tags say so. */
    method GrowOver(left: int, right: int, ghost ends: Ends)
      requires left in ends && right in ends && ends[left] == right
      requires SizedAt(mem, ends, left) && SizedAt(mem, ends, right)
      requires IsFree(mem, left) && IsFree(mem, BackTag(ends[right]))
      modifies this`mem
      ensures mem == OuterTags(old(mem), ends, left)
    {
      hide Tag, SizeField, FreeField;
      TagFields(true, Size(mem, left) + Size(mem, right) + META);
      SetSize(left, Size(mem, left) + Size(mem, right) + META);
      SetSize(BackTag(End(mem, left)), Size(mem, left));
    }

    /** The end of a merge: the links of the right block have become those of the merged
        one, and its neighbours in the list are told. */
    method RewireMerged(left: int, right: int)
      requires HeapLayout.Valid(layout) && left in layout.free && right in layout.free
      requires layout.ends[left] == right && HalfMerged(mem, layout, left)
      requires freeBlockListStart == HeadOf(Without(layout.free, left))
      modifies this`mem, this`freeBlockListStart
      ensures mem == Rewired(old(mem), layout, left)
      ensures freeBlockListStart == HeadOf(Merge(layout, left).free)
    {
      hide SpliceReads, Redirected, HalfMerged, Linked, OnlyLinksChanged, Tiled, Distinct, Without, MergedEnds, Merge;
      ghost var f := Without(layout.free, left);
      MergedSpliceReads(mem, layout, left);
      MergedLinked(mem, layout, left);
      RedirectNeighbours(left, left, left, MergedEnds(layout.ends, left, right),
                         PrevOf(f, Index(f, right)), NextOf(f, Index(f, right)));
      if freeBlockListStart == right {
        freeBlockListStart := left;
      }
    }

    /** The start of a merge: the left block leaves the list and takes over the bytes of the
        right one. */
    method TakeOver(left: int, right: int)
      requires Valid() && left in layout.free && right in layout.free && layout.ends[left] == right
      modifies this`mem, this`freeBlockListStart
      ensures HeapLayout.Valid(layout) && HalfMerged(mem, layout, left)
      ensures mem.Keys == old(mem).Keys && Kept(old(mem), mem, Live(layout))
      ensures freeBlockListStart == HeadOf(Without(layout.free, left))
    {
      hide Tag, SizeField, FreeField, Aligned;
      ghost var m0 := mem;
      TagsSized(m0, layout);
      assert left in layout.ends && right in layout.ends;
      hide Tagged, AllSized, SizedAt, Linked, Kept, Without, HeapLayout.Valid, Live, HalfMerged, HeadOf;
      hide OnlyLinksChanged, OuterTags, Mapped;
      RemoveFromFreeList(left);
      MergeReady(m0, mem, layout, left);
      GrowOver(left, right, layout.ends);
    }

    method MergeTwoBlocks(left: int, right: int)
      requires Valid() && left in layout.free && right in layout.free && layout.ends[left] == right
      modifies this`mem, this`freeBlockListStart, this`layout
      ensures Valid() && layout == Merge(old(layout), left)
      ensures Kept(old(mem), mem, Live(old(layout)))
    {
      hide HeapLayout.Valid, Tagged, Linked, Kept, Without, Live, HalfMerged, HeadOf, Mapped, Rewired, Merge;
      ghost var m0 := mem;
      TakeOver(left, right);
      MergeRepresented(m0, mem, HeadOf(Merge(layout, left).free), layout, left);
      RewireMerged(left, right);
      layout := Merge(layout, left);
    }

    // ----- Freeing --------------------------------------------------------------------

    method Enlist(offset: int)
      requires allocatedSize == layout.size && Pending(mem, freeBlockListStart, layout, offset) && EndsAtBreak()
      modifies this`mem, this`freeBlockListStart, this`layout
      ensures Valid() && layout == Listed(old(layout), offset)
      ensures Kept(old(mem), mem, Live(old(layout)) - {offset})
    {
      hide Tagged, TaggedExcept, AllSized, Linked, Kept, Live, HeapLayout.Valid, Listed, Pushed, Retagged;
      hide Mapped, PushReads, SizedAt, FreeField, HeadOf;
      ghost var m0, l0 := mem, layout;
      SizedOf(m0, l0, offset);
      PendingTagged(m0, freeBlockListStart, l0, offset);
      MarkTags(offset, true, l0.ends);
      ghost var m1 := mem;
      PushRepresented(m1, freeBlockListStart, l0, offset);
      UnlistedPushReads(m1, l0, offset);
      RepresentsValid(Pushed(m1, l0.ends, l0.free, offset), offset, Listed(l0, offset));
      AddToFreeList(offset);
      layout := Listed(layout, offset);
      KeptTrans(m0, m1, mem, Live(l0) - {offset});
    }

    method AbsorbRightNeighbour(offset: int)
      requires Valid() && offset in layout.free
      modifies this`mem, this`freeBlockListStart, this`layout
      ensures Valid() && layout == AbsorbRight(old(layout), offset)
      ensures Kept(old(mem), mem, Live(old(layout)))
    {
      assert TaggedAt(mem, layout, offset) && Followed(layout.ends, layout.size, offset);
      var right := End(mem, offset);
      assert right in layout.ends ==> TaggedAt(mem, layout, right);
      hide Tag, SizeField, FreeField, Aligned, Tagged, Linked, Kept, Live, Distinct, Merge;
      if right < allocatedSize && IsFree(mem, right) {
        MergeTwoBlocks(offset, right);
      }
    }

    method JoinLeftNeighbour(offset: int)
      requires Valid() && offset in layout.free
      modifies this`mem, this`freeBlockListStart, this`layout
      ensures Valid() && layout == JoinLeft(old(layout), offset)
      ensures Kept(old(mem), mem, Live(old(layout)))
    {
      if offset > 0 {
        ghost var l := Left(layout.ends, layout.size, offset);
        assert TaggedAt(mem, layout, l) && BackTag(offset) in mem;
        hide Tag, SizeField, FreeField, Aligned, Tagged, Linked, Kept, Live, Distinct, Merge, Left;
        var left := offset - META - Size(mem, BackTag(offset));
        assert left == l;
        if IsFree(mem, left) {
          MergeTwoBlocks(left, offset);
        }
      }
    }

    method MarkFree(offset: int)
      requires allocatedSize == layout.size && Pending(mem, freeBlockListStart, layout, offset) && EndsAtBreak()
      modifies this`mem, this`freeBlockListStart, this`layout
      ensures Valid() && layout == Freed(old(layout), offset)
      ensures Kept(old(mem), mem, Live(old(layout)) - {offset})
    {
      ghost var m0, l0 := mem, layout;
      assert HeapLayout.Valid(l0) && offset in l0.ends && offset !in l0.free;
      hide Pending, Represents, Kept, Live, Listed, AbsorbRight, JoinLeft, Merge;
      LiveListed(l0, offset);
      AbsorbRightLive(Listed(l0, offset), offset);
      Enlist(offset);
      ghost var m1 := mem;
      AbsorbRightNeighbour(offset);
      KeptTrans(m0, m1, mem, Live(l0) - {offset});
      ghost var m2 := mem;
      JoinLeftNeighbour(offset);
      KeptTrans(m0, m2, mem, Live(l0) - {offset});
    }

    // ----- Searching ------------------------------------------------------------------

    /** The first listed block with room for `sz` bytes; -1 if there is none. */
    method FindFreeBlock(sz: nat) returns (r: int)
      requires Valid()
      ensures var k := FirstFit(layout, sz, 0);
              r == if k < |layout.free| then layout.free[k] else -1
    {
      hide SizeField, HeapLayout.Valid, Mapped, Tagged, Linked, Payload;
      NoEnd(layout);
      var current := freeBlockListStart;
      ghost var k: nat := 0;
      while current != END_OF_LIST
        invariant k <= |layout.free|
        invariant current == if k < |layout.free| then layout.free[k] else END_OF_LIST
        invariant FirstFit(layout, sz, 0) == FirstFit(layout, sz, k)
        decreases |layout.free| - k
      {
        ListNode(mem, freeBlockListStart, layout, k);
        if Size(mem, current) >= sz {
          return current;
        }
        current := mem[NextLink(End(mem, current))];
        k := k + 1;
      }
      assert k == |layout.free|;
      return -1;
    }

    // ----- Splitting ------------------------------------------------------------------

    /** The four tags of a cut.  If the block is the head of the list, its right part is
        now. */
    method WriteCutTags(offset: int, bytes: nat, ghost e: int) returns (neighbor: int)
      requires offset in mem && IsFree(mem, offset) && End(mem, offset) == e
      requires offset + bytes + 2 * META <= e
      requires var cut := offset + bytes + META; BackTag(cut) in mem && cut in mem && BackTag(e) in mem
      modifies this`mem, this`freeBlockListStart
      ensures mem == CutTags(old(mem), e, offset, bytes) && neighbor == offset + bytes + META
      ensures freeBlockListStart ==
                if old(freeBlockListStart) == offset then neighbor else old(freeBlockListStart)
    {
      hide Tag, SizeField, FreeField;
      var newFreeBlockSize := Size(mem, offset) - (bytes + META);
      TagFields(true, bytes);
      TagFields(true, newFreeBlockSize);
      SetSize(offset, bytes);
      mem := mem[BackTag(End(mem, offset)) := Tag(true, bytes)];
      neighbor := End(mem, offset);
      if freeBlockListStart == offset {
        freeBlockListStart := neighbor;
      }
      mem := mem[neighbor := Tag(true, newFreeBlockSize)];
      mem := mem[BackTag(End(mem, neighbor)) := Tag(true, newFreeBlockSize)];
    }

    /** The left part of a cut is linked in front of the list, and the neighbours of the
        right part are told about it. */
    method RelinkCut(offset: int, neighbor: int, ghost bytes: nat, ghost target: Mem)
      requires Cuttable(layout, offset, bytes) && Linked(mem, layout.ends, layout.free)
      requires neighbor == offset + bytes + META
      requires AllSized(mem, CutLayout(layout, offset, bytes).ends)
      requires freeBlockListStart == HeadOf(CutLayout(layout, offset, bytes).free)
      requires target == Recut(mem, layout, offset, bytes)
      modifies this`mem, this`freeBlockListStart, this`layout
      ensures mem == target && layout == Split(old(layout), offset, bytes)
      ensures freeBlockListStart == offset
    {
      hide Linked, AllSized, CutLayout, CutRewired, PushReads, SpliceReads, Pushed, Redirected;
      hide HeapLayout.Valid, Live, Split, Listed, Aligned, HeadOf, PrevOf, NextOf;
      ghost var l0 := layout;
      CutSpliceReads(mem, layout, offset, bytes);
      CutCommutes(mem, layout, offset, bytes);
      CutLayoutEffect(layout, offset, bytes);
      layout := CutLayout(layout, offset, bytes);
      AddToFreeList(offset);
      RedirectNeighbours(neighbor, neighbor, neighbor, layout.ends,
                         PrevOfCut(l0, offset), NextOf(l0.free, Index(l0.free, offset)));
      layout := Listed(layout, offset);
    }

    method CutFreeBlock(offset: int, bytes: nat)
      requires Valid() && Cuttable(layout, offset, bytes)
      modifies this`mem, this`freeBlockListStart, this`layout
      ensures Valid() && layout == Split(old(layout), offset, bytes)
      ensures Kept(old(mem), mem, Live(old(layout)))
    {
      hide Represents, HeapLayout.Valid, Cuttable, Aligned, Payload, Tag, SizeField, FreeField;
      hide CutTags, CutLayout, Recut, Kept, Live, Linked, AllSized, Split, HeadOf;
      ghost var m0, l0 := mem, layout;
      CutReady(m0, freeBlockListStart, l0, offset, bytes);
      ghost var e := l0.ends[offset];
      ghost var target := Recut(CutTags(m0, e, offset, bytes), l0, offset, bytes);
      var neighbor := WriteCutTags(offset, bytes, e);
      RelinkCut(offset, neighbor, bytes, target);
    }

    method SplitFreeBlock(offset: int, bytes: nat)
      requires Valid() && offset in layout.free
      requires Aligned(bytes) && LINKS <= bytes <= Payload(layout, offset)
      modifies this`mem, this`freeBlockListStart, this`layout
      ensures Valid() && layout == Split(old(layout), offset, bytes)
      ensures Kept(old(mem), mem, Live(old(layout)))
    {
      assert TaggedAt(mem, layout, offset);
      if Size(mem, offset) < bytes + META + LINKS {
        return;
      }
      assert Cuttable(layout, offset, bytes);
      hide Represents, HeapLayout.Valid, Cuttable, Kept, Live, Split;
      CutFreeBlock(offset, bytes);
    }

    // ----- More memory ----------------------------------------------------------------

    /** The system hands over whole pages behind the last, for `bytes` more bytes, with
        arbitrary content. */
    method Sbrk(bytes: nat)
      requires FIRST_PAGE <= programBreak && Mapped(mem, programBreak - HEAP_START)
      modifies this`mem, this`programBreak
      ensures programBreak == old(programBreak) + RoundUpTo4Kb(bytes)
      ensures Mapped(mem, programBreak - HEAP_START)
      ensures forall a | a in old(mem) :: a in mem && mem[a] == old(mem)[a]
    {
      var first := Max(0, programBreak - HEAP_START);
      programBreak := programBreak + RoundUpTo4Kb(bytes);
      // There is such content, all zeros for one; what there is, is not known.
      var end := programBreak - HEAP_START;
      ghost var zeroed := map a: int | first <= a < end && Aligned(a) :: 0;
      var addresses := set a: int | first <= a < end && Aligned(a);
      assert zeroed.Keys == addresses;
      var fetched: Mem :| fetched.Keys == addresses;
      mem := mem + fetched;
    }

    /** The system is asked for `bytes` bytes, of which `needed` become a block behind the
        others, not yet free. */
    method AppendBlock(needed: nat, bytes: nat)
      requires Valid() && Aligned(needed) && META + LINKS <= needed && layout.size + needed < LIMIT
      requires programBreak + RoundUpTo4Kb(bytes) == HEAP_START + allocatedSize + needed
      modifies this
      ensures layout == Extended(old(layout), needed) && allocatedSize == layout.size && EndsAtBreak()
      ensures Pending(mem, freeBlockListStart, layout, old(layout.size))
      ensures Kept(old(mem), mem, Live(old(layout)))
    {
      hide HeapLayout.Valid, Linked, Tagged, Mapped, Aligned, SizeField, Kept, Live, Extended, HeadOf, RoundUpTo4Kb;
      ghost var m0, l0 := mem, layout;
      var newFreeMem := allocatedSize;
      RepresentsValid(m0, freeBlockListStart, l0);
      NotMapped(m0, programBreak - HEAP_START, l0.size);
      Sbrk(bytes);
      ghost var m1 := mem;
      FreshWords(m0, m1, l0.size, needed);
      allocatedSize := allocatedSize + needed;
      WriteSizes(newFreeMem, needed);
      OldWords(m0, m1, mem, l0.size, needed);
      MappedSame(m1, mem, l0.size + needed);
      ExtendedPending(m0, mem, freeBlockListStart, l0, needed);
      KeptWords(m0, mem, Live(l0));
      layout := Extended(layout, needed);
    }

    /** The sizes in the tags of a new block; its free bits stay as memory has them. */
    method WriteSizes(offset: int, needed: nat)
      requires META + LINKS <= needed && offset in mem && BackTag(offset + needed) in mem
      modifies this`mem
      ensures mem.Keys == old(mem).Keys
      ensures Size(mem, offset) == needed - META == Size(mem, BackTag(offset + needed))
      ensures forall a | a in mem && a != offset && a != BackTag(offset + needed) :: mem[a] == old(mem)[a]
    {
      hide Tag, SizeField, FreeField;
      TagFields(IsFree(mem, offset), needed - META);
      SetSize(offset, needed - META);
      TagFields(IsFree(mem, BackTag(offset + needed)), needed - META);
      SetSize(BackTag(End(mem, offset)), Size(mem, offset));
    }

    method AppendFree(needed: nat, bytes: nat)
      requires Valid() && Aligned(needed) && META + LINKS <= needed && layout.size + needed < LIMIT
      requires programBreak + RoundUpTo4Kb(bytes) == HEAP_START + allocatedSize + needed
      modifies this
      ensures Valid() && layout == Grown(old(layout), needed)
      ensures Kept(old(mem), mem, Live(old(layout)))
    {
      ghost var m0, l0, newFreeMem := mem, layout, layout.size;
      var offset := allocatedSize;
      ExtendedLive(l0, needed);
      hide Represents, Pending, Kept, Live, Extended, Freed;
      AppendBlock(needed, bytes);
      ghost var m1 := mem;
      MarkFree(offset);
      KeptTrans(m0, m1, mem, Live(l0));
    }

    method InitMalloc()
      requires Valid()
      modifies this
      ensures Valid() && layout == Started(old(layout))
      ensures Kept(old(mem), mem, Live(old(layout)))
    {
      if allocatedSize != 0 {
        return;
      }
      // A whole page is fetched, but its first word lies before the start of the heap.
      AppendFree(FIRST_SIZE, FOUR_KB);
    }

    // ----- Requests -------------------------------------------------------------------

    /** A free block serves a request of `bytes`, or the heap, grown for it, stays within what
        offsets can express. */
    ghost predicate Room(bytes: nat)
      requires HeapLayout.Valid(layout)
      reads this
    {
      var l, b := Started(layout), RoundUpTo8(bytes);
      (exists o | o in l.free :: b <= Payload(l, o)) || l.size + RoundUpTo4Kb(b + META) < LIMIT
    }

    /** A free block is cut to `bytes` and marked. */
    method Occupy(offset: int, bytes: nat)
      requires Valid() && offset in layout.free
      requires Aligned(bytes) && LINKS <= bytes <= Payload(layout, offset)
      modifies this
      ensures Valid() && layout == Occupied(old(layout), offset, bytes)
      ensures Kept(old(mem), mem, Live(old(layout)))
    {
      hide Represents, HeapLayout.Valid, Aligned, Payload, Kept, Live, Split, Without;
      ghost var m0, l0 := mem, layout;
      RepresentsValid(m0, freeBlockListStart, l0);
      SplitEffect(l0, offset, bytes);
      SplitFreeBlock(offset, bytes);
      ghost var m1 := mem;
      MarkOccupied(offset);
      KeptTrans(m0, m1, mem, Live(l0));
    }

    /** More memory is fetched for `b` bytes; the block that now ends the heap is taken. */
    method FetchBlock(b: nat) returns (offset: int)
      requires Valid() && Aligned(b) && LINKS <= b && layout.size + RoundUpTo4Kb(b + META) < LIMIT
      requires allocatedSize != 0
      modifies this
      ensures Valid() && (layout, offset) == Fetch(old(layout), b)
      ensures Kept(old(mem), mem, Live(old(layout)))
    {
      hide Represents, HeapLayout.Valid, Aligned, Payload, Kept, Live, RoundUpTo4Kb, Grown, Left;
      hide Occupied, Fetch;
      ghost var m0, l0 := mem, layout;
      RepresentsValid(m0, freeBlockListStart, l0);
      FetchIs(l0, b);
      var needed := RoundUpTo4Kb(b + META);
      WholeAlready(needed);
      AppendFree(needed, needed);
      ghost var m1 := mem;
      LastBlock(m1, freeBlockListStart, layout);
      GrownLive(l0, needed);
      offset := allocatedSize - META - Size(mem, BackTag(allocatedSize));
      Occupy(offset, b);
      KeptTrans(m0, m1, mem, Live(l0));
    }

    /** Takes a free block with room, or grows the heap. */
    method Malloc(bytes: nat) returns (p: int)
      requires Valid() && Coalesced(layout) && (bytes > 0 ==> Room(bytes))
      modifies this
      ensures Valid() && Coalesced(layout) && Kept(old(mem), mem, Live(old(layout)))
      ensures bytes == 0 ==> p == NULL && layout == old(layout)
      ensures bytes > 0 ==>
                var (l, o) := Allocate(old(layout), bytes);
                layout == l && p == HEAP_START + o + 4 && Granted(old(layout), l, o, RoundUpTo8(bytes))
    {
      hide Represents, HeapLayout.Valid, Aligned, Payload, Kept, Live, RoundUpTo8, RoundUpTo4Kb;
      hide Fetch, Occupied, Allocate, Started, FirstFit, Coalesced;
      ghost var m0, l0 := mem, layout;
      RepresentsValid(m0, freeBlockListStart, l0);
      if bytes == 0 {
        KeptSame(m0, Live(l0));
        return NULL;
      }
      AllocateEffect(l0, bytes);
      AllocateFits(l0, bytes);
      FitsOrGrows(l0, bytes);
      StartedSize(l0);
      var b := RoundUpTo8(bytes);
      if allocatedSize == 0 {
        InitMalloc();
      } else {
        KeptSame(m0, Live(l0));
      }
      ghost var m1 := mem;
      var offset := FindFreeBlock(b);
      if offset != -1 {
        Occupy(offset, b);
      } else {
        offset := FetchBlock(b);
      }
      KeptTrans(m0, m1, mem, Live(l0));
      return HEAP_START + offset + 4;
    }

    /** Gives the block with payload at `p` back. */
    method Free(p: int)
      requires Valid() && Coalesced(layout)
      requires p != NULL ==> p - HEAP_START - 4 in Live(layout)
      modifies this
      ensures Valid() && Coalesced(layout)
      ensures p == NULL ==> layout == old(layout) && mem == old(mem)
      ensures p != NULL ==>
                var o := p - HEAP_START - 4;
                && layout == Freed(old(layout), o)
                && Live(layout) == Live(old(layout)) - {o}
                && Kept(old(mem), mem, Live(layout))
    {
      if p == NULL {
        return;
      }
      hide Represents, HeapLayout.Valid, Kept, Freed, Coalesced, Pending;
      var offset := p - HEAP_START - 4;
      RepresentsPending(mem, freeBlockListStart, layout, offset);
      FreeEffect(layout, offset);
      MarkFree(offset);
    }

    // ----- Use and inspection ---------------------------------------------------------

    /** The client writes a word of a payload it holds. */
    method Store(o: int, a: int, v: int)
      requires Valid() && o in Live(layout) && a in mem && o + 4 <= a < layout.ends[o] - 4
      modifies this`mem
      ensures Valid() && mem == old(mem)[a := v]
      ensures Kept(old(mem), mem, Live(layout) - {o})
    {
      hide Tag, SizeField, FreeField, Aligned, HeapLayout.Valid, Linked, Mapped, Kept;
      StoreRepresented(mem, freeBlockListStart, layout, o, a, v);
      mem := mem[a := v];
    }

    /** Walks the blocks from the start of the heap and compares their tags. */
    method SanityCheck() returns (ok: bool)
      requires Valid()
      ensures ok
    {
      var current := 0;
      while current < allocatedSize
        invariant 0 <= current && (current in layout.ends || current == allocatedSize)
        decreases allocatedSize - current
      {
        assert TaggedAt(mem, layout, current) && Followed(layout.ends, layout.size, current);
        var back := BackTag(End(mem, current));
        if Size(mem, current) != Size(mem, back) {
          return false;
        } else if IsFree(mem, current) != IsFree(mem, back) {
          return false;
        }
        current := current + Size(mem, current) + META;
      }
      return true;
    }
  }
}
