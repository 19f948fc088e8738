/** The kernel's memory manager, as it writes its heap. */
module Kmalloc {
  import opened KernelHeap
  import opened KernelHeapMemory
  import opened Lists
  import opened Powers

  const NULL := 0
  const MAX_HEAP := 0x4000_0000 // so that sizes fit in the 31 bits of a size word

  class KernelMemoryManager {
    var words: Words
    var freeList: seq<int>
    var currentHeapSize: int
    const heapMemoryLimit: int
    ghost var heap: Heap

    /** The memory is that of the heap, which may be in the middle of a change. */
    ghost predicate Rep()
      reads this
    {
      && Ok(heap) && Represents(words, freeList, heap) && currentHeapSize == heap.end
      && heap.end <= heapMemoryLimit <= MAX_HEAP
    }

    ghost predicate Valid()
      reads this
    {
      Rep() && KernelHeap.Valid(heap)
    }

    constructor (words: Words, heapMemoryLimit: int)
      requires HEAP_BEGIN <= heapMemoryLimit <= MAX_HEAP
      ensures Valid() && heap == Fresh() && this.words == words && this.heapMemoryLimit == heapMemoryLimit
    {
      this.words := words;
      freeList := seq(BUCKETS, i => 0);
      currentHeapSize := HEAP_BEGIN;
      this.heapMemoryLimit := heapMemoryLimit;
      heap := Fresh();
      FreshValid();
    }

    // ----- Steps ----------------------------------------------------------------------

    method SetPrevOffset(chunk: int, prev: int)
      modifies this`words
      ensures words == Write(old(words), chunk + 4, prev)
    {
      words := Write(words, chunk + 4, prev);
    }

    method SetNextOffset(chunk: int, next: int)
      modifies this`words
      ensures words == Write(old(words), chunk + 8, next)
    {
      words := Write(words, chunk + 8, next);
    }

    /** A size word with the free bit in its lowest place. */
    method SetChunk(addr: int, size: int, free: bool)
      modifies this`words
      ensures words == Write(old(words), addr, Tag(size, free))
    {
      words := Write(words, addr, Tag(size, free));
    }

    method WeaveTwoChunksTogether(prev: int, next: int, bucketIndex: int, ghost k: int)
      requires |freeList| == |heap.lists| == BUCKETS && 0 <= bucketIndex < BUCKETS && 0 <= k < |heap.lists[bucketIndex]|
      requires prev == At(heap.lists[bucketIndex], k - 1) && next == At(heap.lists[bucketIndex], k + 1)
      requires prev == 0 <==> k == 0
      modifies this`words, this`freeList
      ensures words == Woven(old(words), heap.lists[bucketIndex], k)
      ensures freeList == HeadsWithout(old(freeList), heap.lists[bucketIndex], bucketIndex, k)
    {
      if prev == 0 {
        freeList := freeList[bucketIndex := next];
      } else {
        SetNextOffset(prev, next);
      }
      if next != 0 {
        SetPrevOffset(next, prev);
      }
    }

    /** A free chunk leaves its list. */
    method Unlist(c: int, bucketIndex: int, ghost live: map<int, int>)
      requires Rep() && Listed(heap, c) && c in heap.chunks && heap.chunks[c].size >= 8 && Among(live, heap)
      requires bucketIndex == BucketOfFreeChunk(heap.chunks[c].size)
      modifies this`words, this`freeList, this`heap
      ensures Rep() && SameFor(live, old(words), words) && Among(live, heap)
      ensures |old(heap).lists| == BUCKETS && c in old(heap).lists[bucketIndex] && heap == Unlisted(old(heap), c)
    {
      hide BucketOfFreeChunk, Among, SameFor, Write, Listed;
      ghost var h := heap;
      UnlistedOk(h, c);
      ghost var list := h.lists[bucketIndex];
      ghost var k := Index(list, c);
      LinksAt(words, freeList, h, bucketIndex, k);
      WovenRepresents(words, freeList, h, bucketIndex, k);
      WovenSame(words, freeList, h, bucketIndex, k, live);
      AmongUnlisted(live, h, c);
      var prev, next := words[c + 4], words[c + 8];
      WeaveTwoChunksTogether(prev, next, bucketIndex, k);
      heap := Unlisted(h, c);
    }

    /** A chunk in use is made; at the end of the heap the heap grows.  Near the limit of the
        heap nothing is done. */
    method CreateNewUsedChunkAt(addr: int, memorySize: int, ghost live: map<int, int>) returns (payload: int)
      requires Rep() && !Listed(heap, addr) && addr >= HEAP_BEGIN && memorySize >= 8
      requires Clear(heap.chunks, addr, memorySize)
      requires addr == heap.end || addr + memorySize + INFO <= heap.end
      requires Among(live, heap) && addr !in live
      modifies this`words, this`currentHeapSize, this`heap
      ensures Rep() && SameFor(live, old(words), words) && Among(live, heap)
      ensures if old(currentHeapSize) + memorySize + 8 >= heapMemoryLimit
              then payload == NULL && heap == old(heap) && words == old(words)
              else payload == addr + 4 && heap == MadeUsed(old(heap), addr, memorySize)
    {
      hide Clear, SameFor, Write, Listed, ListsOk, Tag;
      ghost var h := heap;
      MadeUsedOk(h, addr, memorySize);
      UsedRepresents(words, freeList, h, addr, memorySize);
      TagsSame(words, h, addr, memorySize, false, live);
      LiveSame(live, words);
      var allocatedSize := memorySize + 8;
      if currentHeapSize + allocatedSize >= heapMemoryLimit {
        return NULL;
      }
      if addr == currentHeapSize {
        currentHeapSize := currentHeapSize + allocatedSize;
      }
      SetChunk(addr, memorySize, false);
      SetChunk(addr + 4 + memorySize, memorySize, false);
      heap := MadeUsed(h, addr, memorySize);
      payload := addr + 4;
    }

    /** A free chunk is made, first in the list of its bucket. */
    method CreateNewFreeChunkAt(addr: int, memorySize: int, bucketIndex: int, ghost live: map<int, int>)
      requires Rep() && !Listed(heap, addr) && addr >= HEAP_BEGIN && memorySize >= 8
      requires Clear(heap.chunks, addr, memorySize)
      requires addr + memorySize + INFO <= heap.end && bucketIndex == BucketOfFreeChunk(memorySize)
      requires Among(live, heap) && addr !in live
      modifies this`words, this`freeList, this`heap
      ensures Rep() && SameFor(live, old(words), words) && Among(live, heap)
      ensures |old(heap).lists| == BUCKETS && heap == MadeFree(old(heap), addr, memorySize)
      ensures 0 <= bucketIndex < |old(freeList)|
      ensures words == FreeWritten(old(words), addr, memorySize, old(freeList)[bucketIndex])
    {
      hide Clear, SameFor, Write, Listed, ListOk, Tag, BucketOfFreeChunk;
      ghost var h := heap;
      MadeFreeOk(h, addr, memorySize);
      FreeRepresents(words, freeList, h, addr, memorySize);
      FreeSame(words, freeList, h, addr, memorySize, live);
      SetChunk(addr, memorySize, true);
      var next := freeList[bucketIndex];
      freeList := freeList[bucketIndex := addr];
      if next != 0 {
        SetPrevOffset(next, addr);
      }
      SetPrevOffset(addr, 0);
      SetNextOffset(addr, next);
      SetChunk(addr + 4 + memorySize, memorySize, true);
      heap := MadeFree(h, addr, memorySize);
    }

    // ----- Allocation -----------------------------------------------------------------

    /** The first chunk of a list that is large enough; under the promise that every chunk
        of the list is, its head. */
    method IterateFreeList(list: int, memorySize: int) returns (offset: int)
      requires Rep() && (list != 0 ==> list in heap.chunks && heap.chunks[list].size >= memorySize)
      ensures offset == list
    {
      var currentOffset := list;
      if currentOffset != 0 {
        assert Tagged(words, heap.chunks, currentOffset);
        TagFields(heap.chunks[currentOffset].size, heap.chunks[currentOffset].free);
        var chunkMemSize := SizeOf(words[currentOffset]);
        if chunkMemSize >= memorySize {
          return currentOffset;
        }
        assert false;
      }
      return 0;
    }

    /** The first chunk of a bucket is cut.  Where the limit test fails, the chunk is handed out
        all the same: it is off its list, its size word still says that it is free, and the
        remainder is a chunk of its own. */
    method SplitMemory(addr: int, splitSize0: int, bucketIndex: int) returns (start: int)
      requires Valid() && 0 <= bucketIndex < BUCKETS && heap.lists[bucketIndex] != []
      requires addr == heap.lists[bucketIndex][0]
      requires 8 <= splitSize0 && HeadServes(heap, bucketIndex, splitSize0)
      modifies this
      ensures Rep() && start == addr && SameFor(Live(old(heap)), old(words), words)
      ensures addr in old(heap).chunks && old(heap).chunks[addr].size >= splitSize0
      ensures addr in old(heap).lists[BucketOfFreeChunk(old(heap).chunks[addr].size)]
      ensures heap == FetchedWithin(old(heap), bucketIndex, splitSize0, heapMemoryLimit)
      ensures var size := old(heap).chunks[addr].size;
              old(currentHeapSize) + Taken(size, splitSize0) + 8 >= heapMemoryLimit ==>
                addr !in heap.chunks && Holds(words, addr, Tag(size, true))
    {
      hide SameFor, Listed, ListOk, Tag, BucketOfFreeChunk, Holds, FreeWritten, Clear, MadeUsed, MadeFree, Dropped;
      hide BucketIndex, Represents, KernelHeap.Valid, Unlisted, CeilLog, Pow2;
      ghost var h, live, w := heap, Live(heap), words;
      ChunkTagged(words, freeList, h, addr, bucketIndex, splitSize0);
      FetchedValid(h, bucketIndex, splitSize0);
      LiveAmong(h);
      var splitSize := splitSize0;
      var memorySize := SizeOf(words[addr]);
      if memorySize - splitSize < 16 {
        splitSize := memorySize;
      }
      SplitReady(h, addr, splitSize);
      SpoilReady(h, addr, splitSize);
      SpoiledBroken(h, addr, splitSize);
      Unlist(addr, bucketIndex, live);
      ghost var w1 := words;
      UnlistedTagged(words, freeList, h, addr);
      ghost var tag := Tag(memorySize, true);
      ghost var fits := currentHeapSize + splitSize + 8 < heapMemoryLimit;
      var _ := CreateNewUsedChunkAt(addr, splitSize, live);
      SameForTwice(live, w, w1, words);
      ghost var w2 := words;
      if !fits { Lose(addr, live); }
      start := addr;
      if memorySize == splitSize {
        return;
      }
      var remainingSize := memorySize - splitSize - 8;
      var freeChunkStart := addr + splitSize + 8;
      var bucketIndexOfRemaining := BucketOfFreeChunk(remainingSize);
      ghost var heads, h2 := freeList, heap;
      CreateNewFreeChunkAt(freeChunkStart, remainingSize, bucketIndexOfRemaining, live);
      if !fits { SizeWordKept(w2, heads, h2, addr, tag, freeChunkStart, remainingSize); }
      SameForTwice(live, w, w2, words);
    }

    /** A chunk that is in no list is none of the heap any more. */
    ghost method Lose(c: int, live: map<int, int>)
      requires Rep() && !Listed(heap, c) && Among(live, heap) && c !in live
      modifies this`heap
      ensures Rep() && heap == Dropped(old(heap), c) && Among(live, heap)
    {
      hide Listed, ListOk, Represents, Placed;
      DroppedOk(heap, c);
      DroppedRepresents(words, freeList, heap, c);
      DroppedChunks(heap, c);
      heap := Dropped(heap, c);
    }

    method GetMemoryFromBucket(bucketIndex: int, bytes: int) returns (payload: int)
      requires Valid() && 8 <= bytes <= MAX_HEAP && bucketIndex == BucketIndex(bytes) && Serves(heap, bytes)
      modifies this
      ensures Rep() && SameFor(Live(old(heap)), old(words), words)
      ensures (heap, payload - 4) == Given(old(heap), bytes, heapMemoryLimit)
      ensures !Room(old(heap), bytes, heapMemoryLimit) ==>
                payload - 4 in old(heap).chunks
                && Holds(words, payload - 4, Tag(old(heap).chunks[payload - 4].size, true))
    {
      hide SameFor, Listed, ListOk, Tag, BucketOfFreeChunk, BucketIndex, Represents, CeilLog, Pow2, FetchedWithin;
      hide Quiet, Placed, Taken, Holds;
      var i := bucketIndex;
      while i < BUCKETS
        invariant bucketIndex <= i <= BUCKETS && Valid() && heap == old(heap) && words == old(words)
        invariant FirstBucket(heap, BucketIndex(bytes)) == FirstBucket(heap, i)
        invariant i < BUCKETS ==> HeadServes(heap, i, bytes)
      {
        HeadOf(words, freeList, heap, i, bytes);
        var freeChunkOffset := IterateFreeList(freeList[i], bytes);
        if freeChunkOffset != 0 {
          var start := SplitMemory(freeChunkOffset, bytes, i);
          return start + 4;
        }
        i := i + 1;
      }
      ghost var h, live := heap, Live(heap);
      LiveAmong(h);
      GrowReady(h, Pow2(CeilLog(bytes)), bytes);
      var allocateSize := Pow2(CeilLog(bytes));
      payload := CreateNewUsedChunkAt(currentHeapSize, allocateSize, live);
    }

    /** Null for no bytes, and where there is no room; otherwise memory for at least as many.
        Only near the limit of the heap it may be memory that is not marked as used. */
    method Kmalloc(bytes0: int) returns (payload: int)
      requires Valid() && 0 <= bytes0 <= MAX_HEAP && Serves(heap, AtLeast8(bytes0))
      modifies this
      ensures Rep() && SameFor(Live(old(heap)), old(words), words)
      ensures bytes0 == 0 ==> Valid() && payload == NULL && heap == old(heap)
      ensures bytes0 > 0 ==> (heap, payload - 4) == Given(old(heap), AtLeast8(bytes0), heapMemoryLimit)
      ensures bytes0 > 0 ==>
                (Suits(old(heap), payload - 4, AtLeast8(bytes0)) <==>
                 exists c :: Suits(old(heap), c, AtLeast8(bytes0)))
      ensures bytes0 > 0 && !(exists c :: Suits(old(heap), c, AtLeast8(bytes0))) ==>
                payload == if heap == old(heap) then NULL else old(currentHeapSize) + 4
      ensures bytes0 > 0 && Room(old(heap), AtLeast8(bytes0), heapMemoryLimit) ==>
                Valid() && (heap, payload - 4)
                           == if Full(old(heap), AtLeast8(bytes0), heapMemoryLimit) then (old(heap), NULL - 4)
                              else Allocated(old(heap), AtLeast8(bytes0))
      ensures bytes0 > 0 && !Room(old(heap), AtLeast8(bytes0), heapMemoryLimit) ==>
                && !Valid() && payload != NULL && payload - 4 !in Live(heap) && payload - 4 in old(heap).chunks
                && Holds(words, payload - 4, Tag(old(heap).chunks[payload - 4].size, true))
    {
      hide SameFor, Represents, KernelHeap.Valid, CeilLog, Pow2, Allocated, FirstBucket, BucketIndex, Serves;
      hide Given, Room, Full, Live, Holds, Suits;
      LiveSame(Live(heap), words);
      var bytes := bytes0;
      if bytes == 0 {
        return NULL;
      }
      if bytes < 8 {
        bytes := 8;
      }
      GivenRightIff(heap, bytes, heapMemoryLimit);
      ServedFrom(heap, bytes, heapMemoryLimit);
      var bucketIndex := BucketIndex(bytes);
      payload := GetMemoryFromBucket(bucketIndex, bytes);
    }

    // ----- Release --------------------------------------------------------------------

    /** Two adjacent free chunks become one. */
    method CoalsceTwoChunks(left: int, right: int, ghost live: map<int, int>)
      requires Rep() && Whole(heap) && IsFree(heap, left) && right == End(heap.chunks, left) && IsFree(heap, right)
      requires Among(live, heap)
      modifies this`words, this`freeList, this`heap
      ensures Rep() && SameFor(live, old(words), words) && Among(live, heap)
      ensures heap == Coalesced(old(heap), left)
    {
      hide SameFor, Listed, ListOk, Tag, BucketOfFreeChunk, Represents, Unlisted, Dropped, Clear, FreeWritten;
      ghost var h, w := heap, words;
      SizeRead(w, freeList, h, left);
      SizeRead(w, freeList, h, right);
      CoalesceReady(h, left);
      var leftSize := SizeOf(words[left]);
      var rightSize := SizeOf(words[right]);
      Unlist(left, BucketOfFreeChunk(leftSize), live);
      ghost var w1, h1 := words, heap;
      Unlist(right, BucketOfFreeChunk(rightSize), live);
      SameForTwice(live, w, w1, words);
      ghost var w2 := words;
      DroppedRepresents(words, freeList, heap, right);
      DroppedOk(heap, right);
      DroppedChunks(heap, right);
      AmongDropped(live, heap, right);
      FreeNotHeld(live, heap, left);
      heap := Dropped(heap, right);
      var totalSize := leftSize + rightSize + 8;
      var bucketIndex := BucketOfFreeChunk(totalSize);
      CreateNewFreeChunkAt(left, totalSize, bucketIndex, live);
      SameForTwice(live, w, w2, words);
    }

    /** A free chunk at the end is given up. */
    method RemoveFreeChunkFromHeap(addr: int, ghost live: map<int, int>)
      requires Rep() && Whole(heap) && QuietBut(heap, addr) && IsFree(heap, addr)
      requires End(heap.chunks, addr) == heap.end && Among(live, heap)
      modifies this
      ensures Rep() && SameFor(live, old(words), words) && heap == Trimmed(old(heap), addr)
    {
      hide SameFor, Listed, ListOk, Tag, BucketOfFreeChunk, Represents, Unlisted, Dropped;
      ghost var h := heap;
      SizeRead(words, freeList, h, addr);
      FreeListed(h, addr);
      TrimmedWhole(h, addr);
      UnlistedOk(h, addr);
      UnlistedChunks(h, addr);
      var chunkSize := SizeOf(words[addr]);
      Unlist(addr, BucketOfFreeChunk(chunkSize), live);
      DroppedRepresents(words, freeList, heap, addr);
      currentHeapSize := currentHeapSize - (chunkSize + 8);
      heap := Dropped(heap, addr).(end := addr);
      EndRepresents(words, freeList, Dropped(Unlisted(h, addr), addr), addr);
    }

    /** The chunk that starts where the free one at `addr` is joined with its left neighbour. */
    method JoinLeftNeighbour(addr: int, ghost live: map<int, int>) returns (left: int)
      requires Rep() && Whole(heap) && IsFree(heap, addr) && Among(live, heap)
      modifies this`words, this`freeList, this`heap
      ensures Rep() && SameFor(live, old(words), words) && Among(live, heap)
      ensures (heap, left) == JoinedLeft(old(heap), addr)
    {
      hide SameFor, Represents, Coalesced, Among, Whole, Ok;
      LiveSame(live, words);
      LeftTag(words, freeList, heap, addr);
      left := addr;
      if addr - 4 >= HEAP_BEGIN && !Occupied(words[addr - 4]) {
        left := addr - 4 - SizeOf(words[addr - 4]) - 4;
        CoalsceTwoChunks(left, addr, live);
      }
    }

    method JoinRightNeighbour(addr: int, ghost live: map<int, int>)
      requires Rep() && Whole(heap) && IsFree(heap, addr) && Among(live, heap)
      modifies this`words, this`freeList, this`heap
      ensures Rep() && SameFor(live, old(words), words) && Among(live, heap)
      ensures heap == JoinedRight(old(heap), addr)
    {
      hide SameFor, Represents, Coalesced, Among, Whole, Ok;
      LiveSame(live, words);
      SizeRead(words, freeList, heap, addr);
      RightTag(words, freeList, heap, addr);
      EndInHeap(heap);
      var right := addr + SizeOf(words[addr]) + 8;
      if right < currentHeapSize && !Occupied(words[right]) {
        CoalsceTwoChunks(addr, right, live);
      }
    }

    method TrimEnd(addr: int, ghost live: map<int, int>)
      requires Rep() && Whole(heap) && QuietBut(heap, addr) && IsFree(heap, addr) && Among(live, heap)
      modifies this
      ensures Rep() && SameFor(live, old(words), words) && heap == Trimmed(old(heap), addr)
    {
      hide SameFor, Represents, Among, Whole, Ok, Unlisted, Dropped, QuietBut;
      LiveSame(live, words);
      SizeRead(words, freeList, heap, addr);
      var mergedChunkSize := SizeOf(words[addr]);
      if addr + mergedChunkSize + 8 == currentHeapSize {
        RemoveFreeChunkFromHeap(addr, live);
      }
    }

    method FreeOccupiedChunk(addr0: int)
      requires Valid() && addr0 in Live(heap)
      modifies this
      ensures Valid() && heap == Freed(old(heap), addr0)
      ensures SameFor(Live(heap), old(words), words)
    {
      hide SameFor, Represents, Among, Ok, Whole, Quiet, QuietBut, JoinedLeft, JoinedRight, Trimmed, MadeFree, Clear;
      hide BucketOfFreeChunk, FreeWritten;
      ghost var h, w, live := heap, words, Live(heap) - {addr0};
      SizeRead(words, freeList, h, addr0);
      ReleasedWhole(h, addr0);
      ReleasedQuiet(h, addr0);
      ReleaseReady(h, addr0);
      var chunkSize := SizeOf(words[addr0]);
      CreateNewFreeChunkAt(addr0, chunkSize, BucketOfFreeChunk(chunkSize), live);
      ghost var h1, w1 := heap, words;
      JoinedLeftQuiet(h1, addr0);
      var addr := JoinLeftNeighbour(addr0, live);
      SameForTwice(live, w, w1, words);
      ghost var h2, w2 := heap, words;
      JoinedRightQuiet(h2, addr);
      JoinRightNeighbour(addr, live);
      SameForTwice(live, w, w2, words);
      ghost var h3, w3 := heap, words;
      TrimmedQuiet(h3, addr);
      TrimEnd(addr, live);
      SameForTwice(live, w, w3, words);
    }

    method Kfree(ptr: int)
      requires Valid() && ptr - 4 in Live(heap)
      modifies this
      ensures Valid() && heap == Freed(old(heap), ptr - 4)
      ensures SameFor(Live(heap), old(words), words)
    {
      FreeOccupiedChunk(ptr - 4);
    }

    /** The client writes a word into memory that it holds. */
    method Store(ptr: int, x: int, v: int)
      requires Valid() && ptr - 4 in Live(heap) && ptr <= x && x + 4 <= ptr + Live(heap)[ptr - 4]
      modifies this`words
      ensures Valid() && words == Write(old(words), x, v)
    {
      hide Write, KernelHeap.Valid, Ok, Represents;
      StoreRepresents(words, freeList, heap, ptr - 4, x, v);
      words := Write(words, x, v);
    }
  }

  /** Every size word fits in 32 bits. */
  lemma TagsFit(h: Heap, limit: int, c: int)
    requires Ok(h) && h.end <= limit <= MAX_HEAP && c in h.chunks
    ensures 0 <= Tag(h.chunks[c].size, h.chunks[c].free) < 0x1_0000_0000
  {
  }

  lemma LiveSame(live: map<int, int>, w: Words)
    ensures SameFor(live, w, w)
  {
  }

  /** The head of a list that is searched, if any, is large enough. */
  lemma HeadOf(w: Words, heads: seq<int>, h: Heap, i: int, bytes: int)
    requires KernelHeap.Valid(h) && Represents(w, heads, h) && 0 <= i < BUCKETS && 8 <= bytes
    requires HeadServes(h, i, bytes)
    ensures |heads| == BUCKETS && (heads[i] == 0 <==> h.lists[i] == [])
    ensures heads[i] != 0 ==> heads[i] == h.lists[i][0] && heads[i] in h.chunks && h.chunks[heads[i]].size >= bytes
  {
    HeadIn(heads, h, i);
    if h.lists[i] != [] { FetchReady(h, i, bytes); NotZero(h, i, 0); }
  }

  lemma GrowReady(h: Heap, size: int, bytes: int)
    requires KernelHeap.Valid(h) && bytes >= 8 && size == Pow2(CeilLog(bytes))
    ensures KernelHeap.Valid(MadeUsed(h, h.end, size))
    ensures h.end >= HEAP_BEGIN && !Listed(h, h.end) && size >= 8 && Clear(h.chunks, h.end, size) && h.end !in Live(h)
  {
    hide BucketOfFreeChunk;
    GrownValid(h, Pow2(CeilLog(bytes)));
    assert h.end in h.chunks ==> End(h.chunks, h.end) <= h.end;
    if Listed(h, h.end) { ListedInBucket(h, h.end); }
  }

  lemma SizeRead(w: Words, heads: seq<int>, h: Heap, c: int)
    requires Represents(w, heads, h) && c in h.chunks
    ensures c in w && SizeOf(w[c]) == h.chunks[c].size
  {
    assert Tagged(w, h.chunks, c);
    TagFields(h.chunks[c].size, h.chunks[c].free);
  }

  lemma EndInHeap(h: Heap)
    requires Whole(h)
    ensures h.end !in h.chunks
  {
  }

  lemma AmongDropped(live: map<int, int>, h: Heap, c: int)
    requires Among(live, h) && (c in h.chunks ==> h.chunks[c].free)
    ensures Among(live, Dropped(h, c))
  {
  }

  lemma FreeNotHeld(live: map<int, int>, h: Heap, c: int)
    requires Among(live, h) && IsFree(h, c)
    ensures c !in live
  {
  }

  lemma EndRepresents(w: Words, heads: seq<int>, h: Heap, end: int)
    requires Represents(w, heads, h)
    ensures Represents(w, heads, h.(end := end))
  {
    var h' := h.(end := end);
    forall d | d in h'.chunks ensures Tagged(w, h'.chunks, d) { assert Tagged(w, h.chunks, d); }
    forall j | 0 <= j < BUCKETS ensures ListLinked(w, h'.lists[j]) { assert ListLinked(w, h.lists[j]); }
  }

  lemma ReleaseReady(h: Heap, c: int)
    requires KernelHeap.Valid(h) && c in Live(h)
    ensures Among(Live(h) - {c}, h) && c in h.chunks && c >= HEAP_BEGIN && h.chunks[c].size >= 8
    ensures Clear(h.chunks, c, h.chunks[c].size) && End(h.chunks, c) <= h.end
  {
  }

  /** The word before a chunk is the second size word of its left neighbour. */
  lemma LeftTag(w: Words, heads: seq<int>, h: Heap, c: int)
    requires Represents(w, heads, h) && Whole(h) && c in h.chunks
    ensures c - 4 >= HEAP_BEGIN <==> c > HEAP_BEGIN
    ensures c > HEAP_BEGIN ==>
              var l := Left(h, c);
              && c - 4 in w && c - 4 - SizeOf(w[c - 4]) - 4 == l && (Occupied(w[c - 4]) <==> !h.chunks[l].free)
  {
    hide Tag, ListsOk;
    if c > HEAP_BEGIN {
      var l := Left(h, c);
      assert Tagged(w, h.chunks, l);
      TagFields(h.chunks[l].size, h.chunks[l].free);
    }
  }

  lemma RightTag(w: Words, heads: seq<int>, h: Heap, a: int)
    requires Represents(w, heads, h) && Whole(h) && a in h.chunks
    ensures var r := End(h.chunks, a);
            && (r < h.end <==> r in h.chunks)
            && (r < h.end ==> r in w && (Occupied(w[r]) <==> !h.chunks[r].free))
  {
    hide Tag, ListsOk;
    assert Followed(h, a);
    var r := End(h.chunks, a);
    if r in h.chunks {
      assert Tagged(w, h.chunks, r);
      TagFields(h.chunks[r].size, h.chunks[r].free);
    }
  }

  lemma ChunkTagged(w: Words, heads: seq<int>, h: Heap, c: int, i: int, bytes: int)
    requires KernelHeap.Valid(h) && Represents(w, heads, h) && 0 <= i < BUCKETS && h.lists[i] != []
    requires c == h.lists[i][0]
    requires 8 <= bytes && HeadServes(h, i, bytes)
    ensures c in h.chunks && c in w && SizeOf(w[c]) == h.chunks[c].size && h.chunks[c].size >= bytes
    ensures h.chunks[c].free && Listed(h, c) && BucketOfFreeChunk(h.chunks[c].size) == i && c >= HEAP_BEGIN
  {
    FetchReady(h, i, bytes);
    assert Tagged(w, h.chunks, c);
    TagFields(h.chunks[c].size, h.chunks[c].free);
  }

  lemma UnlistedTagged(w: Words, heads: seq<int>, h: Heap, c: int)
    requires c in h.chunks && h.chunks[c].free && h.chunks[c].size >= 8 && |h.lists| == BUCKETS
    requires c in h.lists[BucketOfFreeChunk(h.chunks[c].size)] && Represents(w, heads, Unlisted(h, c))
    ensures Holds(w, c, Tag(h.chunks[c].size, true))
  {
    UnlistedChunks(h, c);
    assert Tagged(w, Unlisted(h, c).chunks, c);
  }

  /** A size word before a new free chunk, and in no other chunk, stays. */
  lemma SizeWordKept(w: Words, heads: seq<int>, h: Heap, y: int, v: int, c: int, size: int)
    requires Ok(h) && Represents(w, heads, h) && size >= 8 && y + 4 <= c && Clear(h.chunks, c, size) && !Listed(h, c)
    requires forall d | d in h.chunks :: y + 4 <= d || d + 8 <= y
    requires Holds(w, y, v)
    ensures var i := BucketOfFreeChunk(size); Holds(FreeWritten(w, c, size, heads[i]), y, v)
  {
    hide Write, Tag, BucketOfFreeChunk, ListOk;
    var i := BucketOfFreeChunk(size);
    var next := heads[i];
    HeadIn(heads, h, i);
    FreeKeeps(w, c, size, next, y);
  }

  lemma LiveAmong(h: Heap)
    ensures Among(Live(h), h) && forall c :: c in Live(h) ==> c in h.chunks && !h.chunks[c].free
  {
  }

  /** What the steps of splitting ask for. */
  lemma SplitReady(h: Heap, c: int, taken: int)
    requires KernelHeap.Valid(h) && c in h.chunks && h.chunks[c].free && Listed(h, c)
    requires taken == h.chunks[c].size || 8 <= taken <= h.chunks[c].size - 16
    ensures |h.lists| == BUCKETS && h.chunks[c].size >= 8 && c in h.lists[BucketOfFreeChunk(h.chunks[c].size)]
    ensures var h1 := Unlisted(h, c);
            && c !in Live(h) && c + taken + INFO <= h1.end && !Listed(h1, c) && Clear(h1.chunks, c, taken)
            && var h2 := MadeUsed(h1, c, taken);
            taken < h.chunks[c].size ==>
              var r := c + taken + INFO;
              && r !in Live(h) && !Listed(h2, r) && Clear(h2.chunks, r, h.chunks[c].size - taken - INFO)
              && r + (h.chunks[c].size - taken - INFO) + INFO <= h2.end
  {
    hide BucketOfFreeChunk, Unlisted, ListOk, Listed;
    UnlistedOk(h, c);
    UnlistedChunks(h, c);
    ClearInside(h, c, c, taken);
    MadeUsedOk(Unlisted(h, c), c, taken);
    if taken < h.chunks[c].size {
      NotInside(h, c, c + taken + INFO);
      ClearRest(h, c, taken);
    }
  }

  /** The links of a listed chunk. */
  lemma LinksAt(w: Words, heads: seq<int>, h: Heap, i: int, k: int)
    requires Ok(h) && Represents(w, heads, h) && 0 <= i < BUCKETS && 0 <= k < |h.lists[i]|
    ensures var list := h.lists[i];
            && Holds(w, list[k] + 4, At(list, k - 1)) && Holds(w, list[k] + 8, At(list, k + 1))
            && (At(list, k - 1) == 0 <==> k == 0)
  {
    assert ListLinked(w, h.lists[i]) && Linked(w, h.lists[i], k);
    if k > 0 { NotZero(h, i, k - 1); }
  }

  lemma AmongUnlisted(live: map<int, int>, h: Heap, c: int)
    requires Ok(h) && Listed(h, c) && Among(live, h)
    ensures |h.lists| == BUCKETS && c in h.chunks && h.chunks[c].size >= 8
    ensures c in h.lists[BucketOfFreeChunk(h.chunks[c].size)]
    ensures Among(live, Unlisted(h, c))
  {
    UnlistedOk(h, c);
  }
}
