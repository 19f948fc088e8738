# Verified models of the kernel and its C library

A model in Dafny of the parts of this x86-64 kernel and its small C library whose
correctness rests on an invariant of a whole structure, with proofs that every operation
keeps it. `dafny verify dfyconfig.toml` checks everything.

| part | files |
|---|---|
| User heap: `malloc` and `free` over boundary tags and a free list at the tail of each free block | `HeapLayout` (blocks and runs), `HeapMemory` and `HeapCut` (the words in memory), `UserMalloc` (the code) |
| Physical frames: the buddy allocator over two bit trees and circular free lists | `BuddyTree`, `BuddyArena` (blocks and runs), `BuddyBits`, `BitVector` (the bits), `FrameRing`, `FreeLists` (the lists), `BuddyAllocator` (the code) |
| Kernel heap: `kmalloc` and `kfree` over boundary tags and 16 buckets | `KernelHeap` (chunks and runs), `KernelHeapMemory` (the words), `Kmalloc` (the code) |
| Four-level page tables | `PageTables` (the radix tree and the map it stands for), `PageRuns` (runs), `Paging` (the code) |
| Semaphores and the round-robin scheduler on one core | `Scheduling` (steps and runs), `KernelLists` (the intrusive list), `Semaphores` (the code, over these lists) |
| SHA-1 | `Sha1Spec` (FIPS 180-4), `Sha1Vectors` (its published examples), `Sha1`, `Sha1Context` (the code) |
| Sets: a tombstone hash table and an unbalanced search tree | `HashSets`, `SearchTree`, `BinaryTrees` |
| Integers printed by `printf` and read by `scanf` | `IntegerText` |

`Arithmetic`, `Lists`, `Powers` and `Wrappers` hold what several parts use.

Each part has the same build. A value (a layout, an arena, a heap, a flat map of pages, a
multiset) says what the structure in memory stands for. Lemmas about that value state what
a user of the code relies on, over every run. A class holds the fields of the source, and
its methods, which follow the code branch by branch, are proved to take the value from one
state to the next and to leave alone the memory they do not own. In the heaps memory is a
map from byte offsets to 32-bit words; setting a bit or a size in a tag is a write of its
word.

Where the code does not do what one would expect of it, the model follows the code:

- `printf` with `%d` drops the minus sign when digits and zeros fill its buffer of 32
  characters. `IntegerText.RoundTrip` gives the exact condition, `IntegerText.SignLost` an
  input.
- A search of the hash table for an absent key ends only if some slot was never used.
  `HashSets.StopsIff` gives the exact condition, `HashSets.SearchForever` a run that leads
  to a table where it does not end.
- Releasing a frame counts the trailing zeros of a 64-bit offset in 32 bits. That count is
  defined for every block of an arena of order `n` with frames of `f` bytes if and only if
  `n` and the trailing zeros of `f` come to at most 32 (`BuddyAllocator.CountableIff`), and
  then the order of the block is recovered. In every other arena `BuddyAllocator.OrderLost`
  gives two requests after which it is not.
- `kmalloc` goes on from the suffix of a chunk that is too small, not from its next chunk.
  It comes to that for requests above 2^18 bytes only, and for each of those after some
  run (`KernelHeap.ServedAlways`, `KernelHeap.HeadTooSmall`).
- `kmalloc` also tests the limit of the heap when it uses a free chunk again, for which the
  heap need not grow. Where the test fails the chunk is handed out unmarked and off its
  list (`KernelHeap.OrderKeptIff`, `KernelHeap.GivenRightIff`), and `KernelHeap.LimitFails`
  gives a run that leads there for every limit above 48.
- New page tables are filled with 4, not 0: no entry is present, but each has the user bit.
- The bucket for a request of exactly 8 bytes comes out as the last one, not the first
  (`osdev/kernel/kernel/kmalloc.cc:42`). Requests are still served correctly.
- Inserting a key that a search tree already has cuts off the whole subtree at that key
  (`BinaryTrees.ReplacedEffect`). The set never does that.

## Main results

- User heap: any run of `malloc` and `free` keeps payloads apart, and giving all back gives
  one block (`HeapLayout.HeldPayloadsDisjoint`, `HeapLayout.AllReleased`); the code does it
  on words in memory without touching a word in use (`UserMalloc.UserHeap.Malloc`,
  `UserMalloc.UserHeap.Free`, `HeapCut.CutRepresented`), and hands out again what was freed
  last (`HeapLayout.LastFreedFirst`).
- Frames: a request is granted if and only if there is room (`BuddyArena.GrantedIffRoom`),
  from the first block of the least order that will do (`BuddyArena.GrantsInTurn`),
  outstanding blocks never overlap (`BuddyArena.HeldBlocksApart`), and a release recovers the
  order of its block and merges it all the way (`BuddyAllocator.BuddyBlockAllocator.FreeFrame`,
  `BuddyArena.ReleasedInTurn`), in exactly the arenas that `BuddyAllocator.CountableIff` and
  `BuddyAllocator.OrderLost` give.
- Kernel heap: the same for `kmalloc` and `kfree` (`KernelHeap.RunValid`,
  `KernelHeap.HeldApart`, `KernelHeap.AllFreed`, `Kmalloc.KernelMemoryManager.Kmalloc`), with
  the exact condition under which the heap grows (`KernelHeap.ServedFrom`) and those under
  which it goes wrong (`KernelHeap.ServedAlways`, `KernelHeap.GivenRightIff`,
  `KernelHeap.LimitFails`).
- Page tables: after any run every page of every table is where the last event put it, and
  kernel addresses agree everywhere (`PageRuns.LeafLast`, `PageRuns.RunShared`); who may use
  and write a page, and what each entry above it lets through, is as it was asked for
  (`PageRuns.RunUser`, `PageRuns.RunWritable`, `PageRuns.RunOpen`); the four nested loops do
  that (`Paging.PageTable.SetPML4E`).
- Threads: in every interleaving a semaphore counts right, excludes, loses no wake-up and
  wakes in the order of arrival (`Scheduling.CountConserved`, `Scheduling.MutexExcludes`,
  `Scheduling.NoLostWakeUp`, `Scheduling.WokenInTurn`), and ready threads run in turn
  (`Scheduling.RoundRobin`); the code takes these steps on linked lists, each thread being in
  one at most (`Semaphores.Semaphore.Up`, `Semaphores.Semaphore.TryDown`,
  `Semaphores.KernelThreadScheduler.Tick`, `Semaphores.KernelThreadScheduler.InOneList`).
- SHA-1: the digest of FIPS 180-4 for every message (`Sha1Context.SHA1`, `Sha1.Transform`),
  with the published bytes for two (`Sha1Vectors.AbcDigest`, `Sha1Vectors.LettersDigest`).
- Hash table: the multiset after any run (`HashSets.RunRight`), and when a search ends
  (`HashSets.StopsIff`, `HashSets.SearchForever`).
- Search tree: deletion in place, with the successor searched again
  (`BinaryTrees.BinaryTree.DeleteNode`).
- Integers: the text that is printed, character by character (`IntegerText.PrintedShows`,
  `IntegerText.ShowsOnce`), what is read (`IntegerText.ScannedTaken`), and both together
  (`IntegerText.RoundTrip`).

The rows below give these and the steps that lead to them.

## Model

| member | source | states |
|---|---|---|
| HeapLayout.HeldPayloadsDisjoint | osdev/user/libc/malloc.c:309-392 | After any run of malloc and free from an empty heap, every payload the caller holds is as large as was asked for, lies inside the heap, and is apart from every other |
| HeapLayout.AllReleased | osdev/user/libc/malloc.c:192-219 | When everything is given back, in any order, one free block covers the whole heap |
| HeapLayout.RunSound | osdev/user/libc/malloc.c:309-392 | Every run keeps the heap well formed: blocks tile [0, size), the free list names each free block once and nothing else, no two neighbours are free, and what is in use is what the caller holds |
| HeapLayout.ServeSound | osdev/user/libc/malloc.c:309-392 | One request keeps all of that, and leaves the place and size of every other held block alone |
| HeapLayout.MallocSound | osdev/user/libc/malloc.c:309-356 | An allocation keeps the heap and the caller in step and moves no held block |
| HeapLayout.ReleaseSound | osdev/user/libc/malloc.c:386-392 | A release keeps the heap and the caller in step and moves no other held block |
| HeapLayout.AllocateEffect | osdev/user/libc/malloc.c:309-356 | The new block was not in use, is large enough (also on the path that finds the block start from the last tag after a left merge), and nothing else in use changes |
| HeapLayout.GrowsOnlyWhenFull | osdev/user/libc/malloc.c:320-336 | The heap stays as large as it is if and only if some free block fits; otherwise it grows by the request and its tags, rounded up to 4 KB |
| HeapLayout.AllocateFits | osdev/user/libc/malloc.c:318-332 | The first fit is taken where there is one, and fresh memory otherwise; either way the block given has room for the request |
| HeapLayout.FitsOrGrows | osdev/user/libc/malloc.c:221-234 | There is a first fit if and only if some free block is large enough |
| HeapLayout.FirstFit | osdev/user/libc/malloc.c:221-234 | The first listed block that is large enough, all before it being too small |
| HeapLayout.RoundUpTo8 | osdev/user/libc/malloc.c:55-60 | The least multiple of 8 that is not below the request |
| HeapLayout.RoundUpTo4Kb | osdev/user/libc/malloc.c:48-53 | The least multiple of 4096 that is not below the request |
| HeapLayout.MergeEffect | osdev/user/libc/malloc.c:159-190 | Merging takes exactly the right block off the free list and changes nothing in use |
| HeapLayout.MergedTiled | osdev/user/libc/malloc.c:163-170 | Two adjacent blocks as one still tile the heap |
| HeapLayout.SplitEffect | osdev/user/libc/malloc.c:241-290 | A split frees at most the remainder, changes nothing in use, and leaves the left part with the request and less than the smallest block more |
| HeapLayout.CutTiled | osdev/user/libc/malloc.c:249-271 | The two parts of a cut block still tile the heap |
| HeapLayout.FreeEffect | osdev/user/libc/malloc.c:192-219 | Freeing takes exactly one block out of use and leaves no two free neighbours, by looking at the two neighbours only |
| HeapLayout.GrownEffect | osdev/user/libc/malloc.c:334-345 | Appended memory, merged with a free block on its left, changes nothing in use and leaves no two free neighbours |
| HeapLayout.GrownEnd | osdev/user/libc/malloc.c:347-350 | The last block is free and large enough after growing, whether or not it was merged to the left |
| HeapLayout.StartedEffect | osdev/user/libc/malloc.c:292-307 | The first use of the allocator keeps the heap well formed |
| HeapLayout.FetchEffect | osdev/user/libc/malloc.c:328-355 | A block from fresh memory fits, was not in use, and disturbs nothing in use |
| HeapLayout.OccupiedPlace | osdev/user/libc/malloc.c:241-290 | A block that is cut leaves its remainder in its place in the list, and one that is taken whole leaves no gap |
| HeapLayout.FreedPlace | osdev/user/libc/malloc.c:159-219 | A freed block is first in the list, or has the place of its right neighbour if that is free; a free left neighbour loses its own place, and all others keep theirs |
| HeapLayout.LastFreedFirst | osdev/user/libc/malloc.c:192-234 | A block freed with no free block on its right is the next to be handed out, from the start of its left neighbour if that is free, to any request that fits in it |
| HeapLayout.FetchPlace | osdev/user/libc/malloc.c:328-350 | Fresh memory is used from the start of the last block if that is free, and else from the old end of the heap |
| HeapMemory.TagFields | osdev/user/libc/malloc.c:30-64 | The size and the free bit are read back from the tag they were put in |
| HeapMemory.PushSpells | osdev/user/libc/malloc.c:111-125 | The links in memory spell the list with the block put in front |
| HeapMemory.UnlinkSpells | osdev/user/libc/malloc.c:128-146 | The links spell the list without the block, wherever it was; the head moves if and only if it was first |
| HeapMemory.RenameSpells | osdev/user/libc/malloc.c:172-189 | Redirecting the neighbours of a list node makes the links spell the list with that node renamed in place |
| HeapMemory.MergeRepresented | osdev/user/libc/malloc.c:159-190 | After a merge the untouched links of the right block serve the merged one: memory spells the list with the left deleted and the right renamed to left, and no word in use changed |
| HeapMemory.PushRepresented | osdev/user/libc/malloc.c:192-199 | A block tagged free and put in front is a free block of a well-formed heap |
| HeapMemory.ExtendedPending | osdev/user/libc/malloc.c:328-343 | Fresh memory with two size tags is a last block ready to be freed |
| HeapMemory.LastBlock | osdev/user/libc/malloc.c:347-350 | The last back tag leads to the start of the last block |
| HeapMemory.StoreRepresented | osdev/user/libc/malloc.c:309-356 | A store into a payload in use breaks nothing in the heap and no other payload |
| HeapCut.CutRepresented | osdev/user/libc/malloc.c:241-290 | After a split, memory spells the left part in front of the list and the remainder in the old place of the block; no word in use changed |
| HeapCut.CutCommutes | osdev/user/libc/malloc.c:275-289 | Putting the left part in front before the neighbours are redirected comes to the same as the other order, also where the block was first or next to the first |
| UserMalloc.UserHeap.AddToFreeList | osdev/user/libc/malloc.c:111-125 | In-place push in front of the free list |
| UserMalloc.UserHeap.RemoveFromFreeList | osdev/user/libc/malloc.c:128-146 | The links spell the list without the block; only link words of free blocks change |
| UserMalloc.UserHeap.MarkOccupied | osdev/user/libc/malloc.c:148-157 | The block leaves the free list, both tags say so, nothing in use changes |
| UserMalloc.UserHeap.MergeTwoBlocks | osdev/user/libc/malloc.c:159-190 | The heap in memory is the merged heap, and no word of a payload in use changed |
| UserMalloc.UserHeap.MarkFree | osdev/user/libc/malloc.c:192-219 | The heap in memory is the heap with the block freed and merged on both sides; no word of another payload in use changed |
| UserMalloc.UserHeap.FindFreeBlock | osdev/user/libc/malloc.c:221-234 | The walk along the links finds the first fit, and reports a failure only when there is none |
| UserMalloc.UserHeap.SplitFreeBlock | osdev/user/libc/malloc.c:241-290 | The heap in memory is the split heap, and no word of a payload in use changed |
| UserMalloc.UserHeap.InitMalloc | osdev/user/libc/malloc.c:292-307 | The first block is set up once, in a page whose first word lies before the heap; later calls change nothing |
| UserMalloc.UserHeap.FetchBlock | osdev/user/libc/malloc.c:328-355 | The block is found again from the last tag; no word in use changed |
| UserMalloc.UserHeap.Sbrk | osdev/kernel/kernel/sys/sys_sbrk.h:22-36 | The memory that is mapped grows by whole pages and ends where the program break is, with all words as they were |
| UserMalloc.UserHeap.Malloc | osdev/user/libc/malloc.c:309-356 | Null for zero bytes; otherwise a payload of at least the rounded request that was not in use, with every word of every payload in use unchanged, the heap well formed, and its end at the program break |
| UserMalloc.UserHeap.Free | osdev/user/libc/malloc.c:386-392 | Null does nothing; otherwise exactly that block goes out of use, every word of the others is unchanged, the heap is well formed, and its end is still the program break |
| UserMalloc.UserHeap.Store | osdev/user/libc/malloc.c:309-356 | The caller may write any word of a held payload: the heap stays well formed and other payloads keep their words |
| UserMalloc.UserHeap.SanityCheck | osdev/user/libc/malloc.c:432-451 | The walk over all tags never finds a mismatch |
| BuddyTree.LeavesApart | osdev/kernel/kernel/frame_allocator.cc:92-136 | Blocks that are free or handed out never overlap |
| BuddyTree.FrameCovered | osdev/kernel/kernel/frame_allocator.cc:92-136 | Every frame of the arena lies in a block that is free or handed out |
| BuddyTree.UnallocatedIsFree | osdev/kernel/kernel/frame_allocator.cc:126-135 | A block that overlaps nothing handed out is free as a whole, since two buddies are never both free |
| BuddyTree.FreeIffUnallocated | osdev/kernel/kernel/frame_allocator.cc:55-68 | There is a free block of order k or more if and only if some aligned run of 2^k frames is untouched by every allocation |
| BuddyTree.Enclosing | osdev/kernel/kernel/frame_allocator.cc:156-181 | A region that is no block of its own lies inside a block that is free or handed out |
| BuddyTree.DivideTidy | osdev/kernel/kernel/frame_allocator.cc:92-102 | A split never leaves two free buddies |
| BuddyTree.MarkFreeTidy | osdev/kernel/kernel/frame_allocator.cc:126-135 | A block is put on a free list only when its buddy is not free, so no two free buddies arise |
| BuddyTree.NothingUsed | osdev/kernel/kernel/frame_allocator.cc:355-362 | With nothing handed out, the arena is the one free top block |
| BuddyArena.GrantedIffRoom | osdev/kernel/kernel/frame_allocator.cc:55-68 | A request of order k succeeds if and only if some aligned run of 2^k frames is entirely unallocated |
| BuddyArena.GrantEffect | osdev/kernel/kernel/frame_allocator.cc:70-101 | The granted block has the order asked for, is aligned and in the arena, was not handed out, and is the only one that becomes so |
| BuddyArena.GrantsInTurn | osdev/kernel/kernel/frame_allocator.cc:55-90 | A request takes the first block of the least order that has any, at the address where that starts; of what is cut off one block goes to each list from the order asked for up to below that, and no other list changes |
| BuddyArena.ReleasedEffect | osdev/kernel/kernel/frame_allocator.cc:104-136 | A release takes exactly its own block back |
| BuddyArena.ReleasedInTurn | osdev/kernel/kernel/frame_allocator.cc:104-136 | A released block is joined with its buddies as far up as these are free and no further; each of these leaves its list, the whole goes to the end of the list of its order, and no other list changes |
| BuddyArena.AllocateSound | osdev/kernel/kernel/frame_allocator.cc:55-90 | A grant keeps the tree, the free lists and the caller in step |
| BuddyArena.ReleaseSound | osdev/kernel/kernel/frame_allocator.cc:104-136 | A release keeps the tree, the free lists and the caller in step |
| BuddyArena.RunSound | osdev/kernel/kernel/frame_allocator.cc:55-136 | Every run keeps them in step: free-list blocks and outstanding blocks are the leaves of the tree |
| BuddyArena.HeldBlocksApart | osdev/kernel/kernel/frame_allocator.cc:55-136 | After any run the outstanding blocks lie in the arena and no two overlap |
| BuddyArena.AllReleased | osdev/kernel/kernel/frame_allocator.cc:104-136 | When all are given back, in any order, the arena is the one free top block again |
| BuddyArena.TakeFirstValid | osdev/kernel/kernel/frame_allocator.cc:70-73 | Taking the first of a free list leaves lists and tree in step |
| BuddyArena.DividedValid | osdev/kernel/kernel/frame_allocator.cc:92-102 | One step of a split leaves lists and tree in step, with the left half in hand and the right half on its list |
| BuddyArena.CarvedUsed | osdev/kernel/kernel/frame_allocator.cc:92-102 | A whole split leaves exactly the requested order in hand at the same address |
| BuddyArena.JoinedValid | osdev/kernel/kernel/frame_allocator.cc:156-181 | The buddy that a merge takes is on the list of that order, and the merged block is in hand |
| BuddyArena.ReturnedValid | osdev/kernel/kernel/frame_allocator.cc:134-135 | The block put back makes lists and tree agree |
| BuddyBits.IdInRange | osdev/kernel/kernel/frame_allocator.cc:183-190 | The bit of every block of order 1 or more is inside the vectors |
| BuddyBits.IdUnique | osdev/kernel/kernel/frame_allocator.cc:183-190 | Two blocks share a bit only if they are the same |
| BuddyBits.NeedFlipped | osdev/kernel/kernel/frame_allocator.cc:183-190 | Flipping the bit of the parent keeps "exactly one half is free" right when a block becomes free or stops being so |
| BuddyBits.JoinedHalf | osdev/kernel/kernel/frame_allocator.cc:156-181 | Merging two free halves changes "exactly one half is free" at the parent only |
| BuddyBits.SplitFlipped | osdev/kernel/kernel/frame_allocator.cc:202-222 | Flipping the bit of a block keeps the split bits right when that block is split or merged |
| BuddyBits.LargestOrder | osdev/kernel/kernel/frame_allocator.cc:104-110 | For a block that does not start the arena, the order read off the trailing zeros of its offset is at least its own and below the top |
| BuddyBits.CountedRight | osdev/kernel/kernel/frame_allocator.cc:12-17 | The count that the code makes, of the zeros of the low 32 bits of the lowest set bit, is defined if and only if a number has at most 31 trailing zeros, and is their number then |
| BitVector.FlipGet | osdev/kernel/kernel/frame_allocator.cc:19-34 | A flip changes the bit it names and no other, across the 32-bit words |
| FrameRing.FreeList.Add | osdev/kernel/kernel/frame_allocator.cc:233-247 | The page is put last in the circular list |
| FrameRing.FreeList.RemoveFirst | osdev/kernel/kernel/frame_allocator.cc:250-265 | The first page is taken off, also when it is the only one |
| FrameRing.FreeList.Find | osdev/kernel/kernel/frame_allocator.cc:291-306 | The walk round the ring finds the page if and only if it is in the list |
| FrameRing.FreeList.Remove | osdev/kernel/kernel/frame_allocator.cc:268-288 | Exactly that node leaves the ring, and the head moves if it was first |
| FreeLists.FreeListVector.Add | osdev/kernel/kernel/frame_allocator.cc:233-247 | Only the named list changes |
| FreeLists.FreeListVector.RemoveFirst | osdev/kernel/kernel/frame_allocator.cc:250-265 | Only the named list changes |
| FreeLists.FreeListVector.Remove | osdev/kernel/kernel/frame_allocator.cc:268-288 | Only the named list changes, by that page |
| BuddyAllocator.TakenToggles | osdev/kernel/kernel/frame_allocator.cc:70-87 | Taking a free block changes "exactly one half is free" at its parent only, and no split |
| BuddyAllocator.DividedToggles | osdev/kernel/kernel/frame_allocator.cc:95-98 | A split changes both facts at the split block only |
| BuddyAllocator.FreedToggles | osdev/kernel/kernel/frame_allocator.cc:121-124 | Freeing changes "exactly one half is free" at the parent only, and no split |
| BuddyAllocator.JoinedToggles | osdev/kernel/kernel/frame_allocator.cc:177-180 | A merge changes the split fact at the merged block only, and "exactly one half is free" at its parent only |
| BuddyAllocator.NotSplitBelow | osdev/kernel/kernel/frame_allocator.cc:112-119 | The split bits at and below the order of a block in hand are clear |
| BuddyAllocator.SplitAbove | osdev/kernel/kernel/frame_allocator.cc:112-119 | The split bit just above the order of a block in hand is set |
| BuddyAllocator.OffsetZeros | osdev/kernel/kernel/frame_allocator.cc:107-110 | The largest order the address allows is never below the order of the block, and below the top |
| BuddyAllocator.CountableIff | osdev/kernel/kernel/frame_allocator.cc:107-110 | The order can be read off every address in the arena if and only if the trailing zeros of the frame size and the order of the arena come to at most 32 |
| BuddyAllocator.OrderLost | osdev/kernel/kernel/frame_allocator.cc:107-110 | In every arena where that is not so, the second of two blocks of half its size is granted at an offset whose zeros the count cannot tell |
| BuddyAllocator.SmallFits | osdev/kernel/kernel/frame_allocator.cc:38-53 | Every arena of up to 4 GB is small enough, whatever its order up to 30 and its frame size |
| BuddyAllocator.WhichHalf | osdev/kernel/kernel/frame_allocator.cc:158-175 | The offset comparison tells left half from right half, and gives the buddy its address |
| BuddyAllocator.BuddyFreeIff | osdev/kernel/kernel/frame_allocator.cc:126-132 | The flipped need-merge bit is clear exactly when the buddy is free |
| BuddyAllocator.ChunkStart | osdev/kernel/kernel/frame_allocator.cc:308-313 | The start of the chunk is where the block of that order begins |
| BuddyAllocator.EmptyIffWhole | osdev/kernel/kernel/frame_allocator.cc:355-362 | All lists but the last empty, and the last not, if and only if the arena is one free block |
| BuddyAllocator.AllBitsClear | osdev/kernel/kernel/frame_allocator.cc:43-53 | In an arena that is one free block every need-merge and split bit is clear |
| BuddyAllocator.BuddyBlockAllocator.constructor | osdev/kernel/kernel/frame_allocator.cc:38-53 | A new allocator is one free block of the top order, for every order up to 30 and every frame size with which the trailing zeros of all offsets can be counted and byte counts stay below 2^64 |
| BuddyAllocator.BuddyBlockAllocator.GetFrame | osdev/kernel/kernel/frame_allocator.cc:55-90 | Nothing and no change when no block is large enough; otherwise the granted address, with lists and both bit vectors right for the new arena |
| BuddyAllocator.BuddyBlockAllocator.Split | osdev/kernel/kernel/frame_allocator.cc:92-102 | The loop leaves lists and both bit vectors right for the split arena |
| BuddyAllocator.BuddyBlockAllocator.ActualOrder | osdev/kernel/kernel/frame_allocator.cc:107-119 | The order a block was requested with is recovered from its address, by a count of the low 32 bits, and the split bits |
| BuddyAllocator.BuddyBlockAllocator.FreeFrame | osdev/kernel/kernel/frame_allocator.cc:104-136 | The block is merged upwards as far as its buddies are free, and lists and both bit vectors are right for the new arena |
| BuddyAllocator.BuddyBlockAllocator.MergeChunk | osdev/kernel/kernel/frame_allocator.cc:156-181 | The buddy is always found on its free list and taken off, and the merge is recorded in both bit vectors |
| BuddyAllocator.BuddyBlockAllocator.FlipNeedMerge | osdev/kernel/kernel/frame_allocator.cc:183-190 | Exactly the bit of the block is flipped, and its new value returned |
| BuddyAllocator.BuddyBlockAllocator.IsBothFreeOrOccupied | osdev/kernel/kernel/frame_allocator.cc:192-200 | The answer is the clear need-merge bit of the block |
| BuddyAllocator.BuddyBlockAllocator.SetSplitted | osdev/kernel/kernel/frame_allocator.cc:202-211 | The split bit of the block is set, no other changes |
| BuddyAllocator.BuddyBlockAllocator.SetMerged | osdev/kernel/kernel/frame_allocator.cc:213-222 | The split bit of the block is cleared, no other changes |
| BuddyAllocator.BuddyBlockAllocator.IsSplitted | osdev/kernel/kernel/frame_allocator.cc:224-231 | The answer is the split bit of the block |
| BuddyAllocator.BuddyBlockAllocator.IsEmpty | osdev/kernel/kernel/frame_allocator.cc:355-362 | True if and only if everything has been given back |
| Scheduling.CountConserved | osdev/kernel/kernel/semaphore.cc:7-76 | In every interleaving on one core the count is its first value plus the Ups minus the completed Downs, and it is never negative |
| Scheduling.MutexExcludes | osdev/kernel/kernel/semaphore.cc:40-76 | A semaphore that starts at one has at most one holder |
| Scheduling.NoLostWakeUp | osdev/kernel/kernel/semaphore.cc:15-33 | While a thread waits, the count is at most the number of woken threads that have not retried, and one of those is running or queued if the count is positive |
| Scheduling.OnePlace | osdev/kernel/kernel/scheduler.cc:101-122 | After any run a thread runs, or is queued once, or waits at one semaphore; the in-queue flag holds exactly for queued threads |
| Scheduling.RoundRobin | osdev/kernel/kernel/scheduler.cc:33-64 | The thread at position k of the ready queue runs after exactly k + 1 switches, whatever is enqueued meanwhile |
| Scheduling.MovesUp | osdev/kernel/kernel/scheduler.cc:66-122 | Each switch moves a queued thread up by one, and nothing else moves it |
| Scheduling.StepMoves | osdev/kernel/kernel/scheduler.cc:66-122 | The same for one step of any kind |
| Scheduling.WokenInTurn | osdev/kernel/kernel/semaphore.cc:15-33 | A thread with k others waiting before it at a semaphore sleeps through k Ups on it and is woken by the next one, whoever comes to wait meanwhile; it is then last in the queue and waits nowhere |
| Scheduling.WaitersMoveUp | osdev/kernel/kernel/semaphore.cc:7-70 | Each Up moves a waiting thread up by one, and nothing else moves it |
| Scheduling.StepWaits | osdev/kernel/kernel/semaphore.cc:7-70 | The same for one step of any kind |
| Scheduling.UpWakes | osdev/kernel/kernel/semaphore.cc:17-33 | Up wakes the first waiter: it leaves the waiters and goes to the end of the queue |
| Scheduling.WaitsLast | osdev/kernel/kernel/semaphore.cc:59-67 | A thread that goes to sleep in a Down is last among the waiters |
| Scheduling.StepSound | osdev/kernel/kernel/semaphore.cc:7-76 | Every step of every kind keeps the invariant of the core and all semaphores |
| Scheduling.YieldEffect | osdev/kernel/kernel/scheduler.cc:75-122 | A yield runs the first in the queue and requeues the running thread unless it sleeps |
| Scheduling.EnqueueEffect | osdev/kernel/kernel/scheduler.cc:175-210 | A thread that is nowhere else goes to the end of the queue |
| Scheduling.RaiseSound | osdev/kernel/kernel/semaphore.cc:15-33 | Up keeps the invariant, with and without a waiter |
| Scheduling.LowerTakes | osdev/kernel/kernel/semaphore.cc:49-55 | Taking the semaphore keeps the invariant |
| Scheduling.LowerBlocks | osdev/kernel/kernel/semaphore.cc:59-70 | Going to sleep keeps the invariant |
| Scheduling.LowerSpins | osdev/kernel/kernel/semaphore.cc:57-70 | With nobody to switch to, a failed Down changes neither the queue nor any semaphore |
| Scheduling.BootedSound | osdev/kernel/kernel/scheduler.cc:66-122 | The state at start meets the invariant |
| KernelLists.KernelListElement.Detach | osdev/kernel/kernel/kernel_list.h:22-31 | The neighbours are linked to each other |
| KernelLists.KernelListElement.ChangeList | osdev/kernel/kernel/kernel_list.h:39-45 | The list changes if and only if the element is linked to nothing |
| KernelLists.KernelList.PushFront | osdev/kernel/kernel/kernel_list.h:134-155 | The element is first, the others keep their order and their data |
| KernelLists.KernelList.PushBack | osdev/kernel/kernel/kernel_list.h:157-177 | The element is last, the others keep their order and their data |
| KernelLists.KernelList.PopFront | osdev/kernel/kernel/kernel_list.h:182-206 | The first element comes off detached, or null from an empty list |
| KernelLists.KernelList.PopBack | osdev/kernel/kernel/kernel_list.h:208-232 | The last element comes off detached, or null from an empty list |
| KernelLists.KernelList.RemoveSelf | osdev/kernel/kernel/kernel_list.h:34-37 | Exactly that element leaves the list, wherever it was |
| Semaphores.KernelThread.constructor | osdev/kernel/kernel/kthread.cc:86-121 | A new thread is runnable, in no list, and would be pushed to the scheduling queue |
| Semaphores.KernelThreadScheduler.InOneList | osdev/kernel/kernel/kernel_list.h:15-62 | The element of a thread is linked into one list at most, the queue or the waiters of one semaphore, that the thread is said to be in, and otherwise to nothing |
| Semaphores.KernelThreadScheduler.PopNextThreadToRun | osdev/kernel/kernel/scheduler.cc:33-64 | The element of the first runnable thread comes off the queue, those before it are dropped; links and heads of all lists are right |
| Semaphores.KernelThreadScheduler.Yield | osdev/kernel/kernel/scheduler.cc:75-166 | Flags, counters and links take the step that the invariant is proved about; the running element goes from nowhere to the end of the queue, the next one off it |
| Semaphores.KernelThreadScheduler.EnqueueThread | osdev/kernel/kernel/scheduler.cc:175-210 | The same for an element that comes from another list: it is given the queue as its list, and linked in last |
| Semaphores.KernelThreadScheduler.Tick | osdev/kernel/kernel/scheduler.cc:75-166 | A yield takes the Tick step, and every list stays linked as the state says |
| Semaphores.KernelThreadScheduler.Start | osdev/kernel/kernel/kthread.cc:130-138 | Starting a thread takes the Start step |
| Semaphores.KernelThreadScheduler.NewThread | osdev/kernel/kernel/kthread.cc:86-121 | A new thread changes nothing else |
| Semaphores.KernelThreadScheduler.NewSemaphore | osdev/kernel/kernel/semaphore.h:8-10 | A new semaphore changes nothing else, and the invariant holds with it |
| Semaphores.Semaphore.Up | osdev/kernel/kernel/semaphore.cc:7-38 | Count, flags and links take the Up step: the first waiter goes from the waiters to the end of the queue |
| Semaphores.Semaphore.TryDown | osdev/kernel/kernel/semaphore.cc:49-70 | One pass of the loop takes the Down step, with the running element linked in as the last waiter if there is another thread; it succeeds if and only if the count was positive |
| Semaphores.Elsewhere | osdev/kernel/kernel/kernel_list.h:22-37 | Moving one element leaves every other list, and every other thread, as it was |
| Semaphores.Take | osdev/kernel/kernel/kernel_list.h:182-206 | The first element of a list comes off, linked to nothing, and all lists are right for the new state |
| Semaphores.Put | osdev/kernel/kernel/kernel_list.h:157-177 | An element that was in no list is last in the list it knows, and all lists are right for the new state |
| Semaphores.Rehome | osdev/kernel/kernel/kernel_list.h:39-45 | An element in no list gets another list; no list changes |
| Sha1Context.SHA1 | osdev/user/sha/sha1.c:246-255 | The digest of FIPS 180-4 for every message: padded as in section 5.1.1, folded as in section 6.1.2; Sha1Vectors says what that is for two published messages |
| Sha1Vectors.AbcDigest | osdev/user/sha/sha1.c:163-255 | The twenty bytes published for "abc", a message of one block, step by step from the schedule and the eighty rounds |
| Sha1Vectors.LettersDigest | osdev/user/sha/sha1.c:163-255 | The twenty bytes published for a message of 56 bytes, which takes two blocks |
| Sha1Vectors.PadAt | osdev/user/sha/sha1.c:224-236 | What each byte of a padded message is: the message, 0x80, zeros, and the length |
| Sha1.Transform | osdev/user/sha/sha1.c:49-159 | The 16-word in-place schedule with rotated roles gives what the 80-word schedule and step loop of section 6.1.2 give, for every state and block |
| Sha1.Blk0 | osdev/user/sha/sha1.c:17-19 | The word is the big-endian word of the schedule, and the window moves by one |
| Sha1.Blk | osdev/user/sha/sha1.c:25-28 | The word is the one the recurrence of the schedule gives, from the 16 slots |
| Sha1.Swapped | osdev/user/sha/sha1.c:17-19 | The two masked rotations turn a little-endian word into a big-endian one |
| Sha1.FastChIs | osdev/user/sha/sha1.c:31-36 | The two-operation choice function is the one of section 4.1.1 |
| Sha1.FastMajIs | osdev/user/sha/sha1.c:40-42 | The majority function with a shared term is the one of section 4.1.1 |
| Sha1.WindowMoves | osdev/user/sha/sha1.c:25-28 | Overwriting one slot keeps in the 16 slots the 16 latest words of the schedule |
| Sha1.WindowRecent | osdev/user/sha/sha1.c:25-28 | Each of the 16 latest words is in its slot |
| Sha1.RoundDone | osdev/user/sha/sha1.c:31-45 | A step with renamed variables is a step of the standard with the variables shifted |
| Sha1.R0 | osdev/user/sha/sha1.c:31-33 | The macro does one step of the standard, for the steps 0 to 15 |
| Sha1.R1 | osdev/user/sha/sha1.c:34-36 | The macro does one step of the standard, for the steps 16 to 19 |
| Sha1.R2 | osdev/user/sha/sha1.c:37-39 | The macro does one step of the standard, for the steps 20 to 39 |
| Sha1.R3 | osdev/user/sha/sha1.c:40-42 | The macro does one step of the standard, for the steps 40 to 59 |
| Sha1.R4 | osdev/user/sha/sha1.c:43-45 | The macro does one step of the standard, for the steps 60 to 79 |
| Sha1.Rounds0 | osdev/user/sha/sha1.c:73-92 | Twenty steps in rotated roles are the first twenty of the standard |
| Sha1.Rounds20 | osdev/user/sha/sha1.c:93-112 | Likewise steps 20 to 39 |
| Sha1.Rounds40 | osdev/user/sha/sha1.c:113-132 | Likewise steps 40 to 59 |
| Sha1.Rounds60 | osdev/user/sha/sha1.c:133-152 | Likewise steps 60 to 79 |
| Sha1Spec.SumOrder | osdev/user/sha/sha1.c:31-45 | The sum of a step, in the order of the code, is the sum in the order of section 6.1.2 |
| Sha1Spec.PadWhole | osdev/user/sha/sha1.c:230-236 | A padded message is a whole number of blocks |
| Sha1Spec.LengthRead | osdev/user/sha/sha1.c:224-228 | The eight bytes put behind the zeros stand for the length in bits modulo 2^64, most significant first |
| Sha1Spec.HashAppend | osdev/user/sha/sha1.c:180-198 | Hashing in two parts, with what is left of a block carried over, is hashing the whole |
| Sha1Spec.HashBlock | osdev/user/sha/sha1.c:188-190 | A filled block is one more step of the fold |
| Sha1Spec.HashPart | osdev/user/sha/sha1.c:195-197 | Less than a block changes only what is left over |
| Sha1Context.CountAdds | osdev/user/sha/sha1.c:184-186 | The two 32-bit counters with their carry hold the length in bits modulo 2^64 after any update |
| Sha1Context.Filled | osdev/user/sha/sha1.c:187 | The low counter gives the number of buffered bytes |
| Sha1Context.CountByte | osdev/user/sha/sha1.c:224-228 | Each byte written is that byte of the 64-bit length |
| Sha1Context.PaddingEnds | osdev/user/sha/sha1.c:232 | The padding loop stops after exactly the zeros the standard asks for, not before |
| Sha1Context.Context.constructor | osdev/user/sha/sha1.c:168-176 | A new context stands for the empty message |
| Sha1Context.Context.AddCount | osdev/user/sha/sha1.c:184-186 | The counters hold the length of the longer message |
| Sha1Context.Context.Absorb | osdev/user/sha/sha1.c:188-197 | State and buffer are those of the buffered bytes and the data, whatever their lengths |
| Sha1Context.Context.Update | osdev/user/sha/sha1.c:180-198 | The context stands for the message with the data appended, so how a message is cut into calls does not matter |
| Sha1Context.Context.FinalCount | osdev/user/sha/sha1.c:224-228 | The eight bytes are the length in bits, most significant first |
| Sha1Context.Context.Padding | osdev/user/sha/sha1.c:224-236 | The context stands for the padded message, and the loop ends |
| Sha1Context.Context.Final | osdev/user/sha/sha1.c:202-240 | The digest of everything that was put in |
| Paging.RangeTranslated | osdev/kernel/kernel/paging.cc:191-335 | After mapping [va, va + n) to pa every address of the range translates to pa plus its offset, and every other address, in every table and in both halves of the address space, translates as before |
| Paging.KernelShared | osdev/kernel/kernel/paging.cc:155-168 | Kernel addresses translate alike in every top-level table, at all times |
| Paging.PageTable.CreateEmptyPageTable | osdev/kernel/kernel/paging.cc:155-168 | A new table maps nothing but what the kernel shares, and changes no other table; this is the Create step of a run |
| Paging.PageTable.AllocateTable | osdev/kernel/kernel/paging.cc:170-181 | The range is mapped as asked, writable, for the user with every entry on the walk open to the user and nothing opened beyond that; every other page of every table keeps its lowest entry as far as it is present, and stays open to the user if it was; every present entry of every table is writable; this is the MapPages step of a run |
| Paging.PageTable.CreateIdentityForKernel | osdev/kernel/kernel/paging.cc:183-189 | The low range is mapped to itself and not recorded as shared; this too is a MapPages step of a run |
| Paging.PageTable.SetPML4E | osdev/kernel/kernel/paging.cc:191-246 | The whole range is mapped across top-level entries, whichever tables existed, and for the user opened at every level; pages outside keep what they were mapped to; the kernel entry is recorded once |
| Paging.PageTable.SetPDPT | osdev/kernel/kernel/paging.cc:248-283 | The part of the range under one top-level entry is mapped, and opened at the two levels below it; pages outside keep what they were mapped to |
| Paging.PageTable.SetPDT | osdev/kernel/kernel/paging.cc:285-319 | The part under one third-level entry is mapped, and opened at the level below it; pages outside keep what they were mapped to |
| Paging.PageTable.SetPT | osdev/kernel/kernel/paging.cc:321-335 | The part under one second-level entry is mapped page by page, each entry present, writable and open to the user as asked; pages outside keep what they were mapped to |
| Paging.PageTable.CreateNewTable | osdev/kernel/kernel/paging.cc:125-137 | A fresh, aligned table of 512 entries that are all 4: none present and each with the user bit, as the code fills it |
| Paging.PageTable.Descend | osdev/kernel/kernel/paging.cc:258-270 | A missing table is added, and opened for users if the mapping is for one and else not, without changing what any page is mapped to, and the walk goes on into it |
| Paging.PageTable.DescendTop | osdev/kernel/kernel/paging.cc:201-228 | The same at the top, where the entry for the kernel is also recorded to be shared |
| Paging.PageTableManager.constructor | osdev/kernel/kernel/paging.h:153-161 | The kernel table translates every kernel address to that address less the kernel offset |
| Paging.PageIndex | osdev/kernel/kernel/paging.cc:71-95 | The four indices of an address are those of its page in a radix tree of 512-way tables |
| Paging.Piece | osdev/kernel/kernel/paging.cc:231-240 | The part of the range each turn of a loop handles is nonempty, aligned, within one table, and starts where the last ended |
| Paging.NoWrap | osdev/kernel/kernel/paging.cc:235-240 | The test for wrap-around of the end of the last entry picks the true end |
| PageTables.EntryFields | osdev/kernel/kernel/paging.cc:99-122 | Presence, the base address in bits 51 to 12, the writable bit and user access are read back from the entry, and no other bit is set |
| PageTables.WithUserFields | osdev/kernel/kernel/paging.cc:48 | Opening an entry for users leaves presence, the writable bit and base address alone |
| PageTables.UniquePath | osdev/kernel/kernel/paging.cc:191-335 | A table is reached by one path only, apart from the sharing of kernel tables |
| PageTables.SameBlock | osdev/kernel/kernel/paging.cc:191-335 | Pages in one block are translated through the same table |
| PageTables.SharedNode | osdev/kernel/kernel/paging.cc:162-165 | Below the kernel entry all top-level tables reach the same tables |
| PageTables.GrownLeaf | osdev/kernel/kernel/paging.cc:295-299 | Adding an empty table maps no page and unmaps none, although its entries are not zero |
| PageTables.GrownKeeps | osdev/kernel/kernel/paging.cc:295-299 | Adding an empty table takes no page away from the table it was reached by |
| PageTables.OpenedKeeps | osdev/kernel/kernel/paging.cc:301-304 | Opening an entry for users changes no translation |
| PageTables.WithLeafEffect | osdev/kernel/kernel/paging.cc:329-334 | Writing one page entry changes that page alone, in that table or, for a kernel page, in all |
| PageTables.RootedLeaf | osdev/kernel/kernel/paging.cc:155-168 | A new top-level table changes no other, and shows the kernel as the others do |
| PageTables.MappedMore | osdev/kernel/kernel/paging.cc:276-282 | Two adjoining mapped ranges are one mapped range |
| PageTables.MappedTranslates | osdev/kernel/kernel/paging.cc:191-335 | A mapped range translates as asked, in the format of the AMD64 Architecture Programmer's Manual, volume 2, section 5.3 |
| PageTables.MappedReaches | osdev/kernel/kernel/paging.cc:301-304 | A page of a mapped range is open to the user, at every level of the walk, if and only if it was mapped for the user |
| PageTables.PresentWritable | osdev/kernel/kernel/paging.cc:99-122 | Bit 1 is set in the entries of all four levels on the walk for a page if and only if the page is present |
| PageTables.GrownOpens | osdev/kernel/kernel/paging.cc:258-270 | Adding a table opens at most the entry it is put at, and nothing for the kernel |
| PageTables.OpenedOpens | osdev/kernel/kernel/paging.cc:301-304 | Opening an entry opens the walks through that entry and no others |
| PageTables.RootedOpens | osdev/kernel/kernel/paging.cc:155-168 | From a new top-level table the user gets no further than from those there are |
| PageTables.SameEntry | osdev/kernel/kernel/paging.cc:191-335 | Pages in one block of a level are reached through the same entry of that level |
| PageRuns.LeafLast | osdev/kernel/kernel/paging.cc:155-189 | After any run the lowest entry for each page of each table is the word that the last event that bears on it says, the frame with 3 for the kernel and with 7 for the user, and 0 if there is none |
| PageRuns.RunTranslates | osdev/kernel/kernel/paging.cc:155-189 | After any run every address of every table translates to the frame that this event gave its page, plus the offset, or not at all |
| PageRuns.RunShared | osdev/kernel/kernel/paging.cc:162-165 | After any run kernel addresses translate alike in all tables, whichever table they were mapped through and whenever the tables were made |
| PageRuns.RunUser | osdev/kernel/kernel/paging.cc:220-223 | After any run the user gets through all four levels to a page if and only if it was last mapped for the user |
| PageRuns.RunWritable | osdev/kernel/kernel/paging.cc:99-122 | After any run bit 1 is set in all four entries on the walk for a page if and only if the page is mapped |
| PageRuns.RunOpen | osdev/kernel/kernel/paging.cc:220-223 | After any run an entry above the lowest level lets the user through if and only if a page under it was mapped for the user since its top-level table was made; mappings for the kernel open nothing |
| HashSets.RunRight | osdev/kernel/std/hash_set.h:28-121 | After any run of inserts and removes the table holds exactly the multiset they leave, each key reachable from its home slot without crossing a never-used slot, and the counter is not below the number of keys |
| HashSets.StopsIff | osdev/kernel/std/hash_set.h:34-54 | A search ends if and only if the key is there or some slot was never used |
| HashSets.SearchForever | osdev/kernel/std/hash_set.h:34-82 | For every size there is a run, with never more than one key in the table, after which the search for any key goes on forever |
| HashSets.SearchRight | osdev/kernel/std/hash_set.h:34-54 | A search that ends is right about the live keys |
| HashSets.InsertEffect | osdev/kernel/std/hash_set.h:101-121 | An insert adds exactly its key and keeps every key reachable |
| HashSets.RemoveEffect | osdev/kernel/std/hash_set.h:57-82 | A remove takes away one copy of its key, or nothing if it is not there, and keeps every key reachable |
| HashSets.MovedEffect | osdev/kernel/std/hash_set.h:89-95 | Moving the keys one by one gives a table with the same multiset |
| HashSets.RehashedEffect | osdev/kernel/std/hash_set.h:84-98 | A rehash keeps the multiset, and there is room for one more key afterwards |
| HashSets.DoublesIff | osdev/kernel/std/hash_set.h:84-98 | An insert doubles the table if and only if three times the counter is at least its size, and the counter then counts every key once more |
| HashSets.SizeDoubles | osdev/kernel/std/hash_set.h:84-98 | Over any run the number of slots is doubled by each such insert, and by nothing else |
| HashSets.InsertRight | osdev/kernel/std/hash_set.h:28-31 | Room is made before every insert, so it ends |
| HashSets.RemoveRight | osdev/kernel/std/hash_set.h:57-82 | A remove that ends keeps the table sound |
| HashSets.HashSetInternal.constructor | osdev/kernel/std/hash_set.h:26 | A table of 1024 slots, none used |
| HashSets.HashSetInternal.InsertKeyInternal | osdev/kernel/std/hash_set.h:101-121 | The key lands in the first slot without a key, going round from its home slot |
| HashSets.HashSetInternal.InsertKey | osdev/kernel/std/hash_set.h:28-31 | Exactly one copy of the key is added |
| HashSets.HashSetInternal.SearchKey | osdev/kernel/std/hash_set.h:34-54 | Found if and only if it is among the live keys |
| HashSets.HashSetInternal.RemoveKey | osdev/kernel/std/hash_set.h:57-82 | One copy of the key is taken away if there is one, and returned |
| HashSets.HashSetInternal.RehashIfLoaded | osdev/kernel/std/hash_set.h:84-98 | The table is doubled once it is a third full, by the counter |
| IntegerText.RoundTrip | osdev/user/libc/scanf.c:32-57 | What %d prints under any flags, width and precision is read back, without overflow, as the same int, if and only if it is not a negative number whose digits and zeros fill the 32-character buffer |
| IntegerText.SignLost | osdev/user/libc/printf.c:263-271 | A concrete format under which the minus sign is lost |
| IntegerText.PlacesFit | osdev/user/libc/printf.c:226-238 | The exact condition, as a bound on digits, precision and zero-padded width |
| IntegerText.ReadsNumber | osdev/user/libc/scanf.c:47-53 | Reading the digits of a number gives the number |
| IntegerText.ReadsZeros | osdev/user/libc/scanf.c:47-53 | Leading zeros do not change what is read |
| IntegerText.ReadsBody | osdev/user/libc/scanf.c:47-53 | Zeros and digits up to a non-digit give the number, and the position after them |
| IntegerText.OutRev | osdev/user/libc/printf.c:193-218 | The buffer comes out reversed, with spaces up to the width on the side the flags say |
| IntegerText.PutDigits | osdev/user/libc/printf.c:291-297 | The digits, least significant first |
| IntegerText.PadZeros | osdev/user/libc/printf.c:231-237 | Zeros up to the limit, as far as the buffer goes |
| IntegerText.PutSign | osdev/user/libc/printf.c:263-271 | At most one sign, and none when the buffer is full |
| IntegerText.PadPlaces | osdev/user/libc/printf.c:225-238 | Digits and zeros fill the number of places that flags, width and precision ask for |
| IntegerText.NtoaFormat | osdev/user/libc/printf.c:221-274 | The text that flags, width and precision ask for |
| IntegerText.PrintInt | osdev/user/libc/printf.c:752-777 | The text of the %d conversion, for every int above the least: character by character what flags, width and precision ask for, behind what was there |
| IntegerText.PrintedShows | osdev/user/libc/printf.c:193-274 | The text is spaces, the sign, zeros, the decimal digits and spaces: which sign, how many of each, on which side, and how long the whole is, for all flags, widths and precisions, also where the buffer is full |
| IntegerText.ShowsOnce | osdev/user/libc/printf.c:193-274 | That fixes the text: no two differ and show the same |
| IntegerText.SignSeen | osdev/user/libc/printf.c:263-271 | The first character that is no space is a minus for a negative number, a plus for any other if and only if that flag is set, and else a digit, with a space before it if the space flag is set |
| IntegerText.DecimalIs | osdev/user/libc/printf.c:291-297 | A number has one decimal form without leading zeros |
| IntegerText.MatchDecimal | osdev/user/libc/scanf.c:32-57 | Reading ends at the first character that is no digit, after white space and at most one sign, with the number that the digits stand for |
| IntegerText.ScannedTaken | osdev/user/libc/scanf.c:32-57 | The same for the grammar of spaces, sign and digits; white space is any of six characters |
| IntegerText.TakenOnce | osdev/user/libc/scanf.c:32-57 | No other end and number fit that |
| IntegerText.ScanStaysIntIff | osdev/user/libc/scanf.c:37-54 | No intermediate number overflows an int if and only if the number read is an int other than the least |
| KernelHeap.RunSound | osdev/kernel/kernel/kmalloc.cc:499-533 | Every run of kmalloc and kfree keeps the heap well formed and the chunks in use exactly those the caller holds, each at least as large as asked for |
| KernelHeap.RunValid | osdev/kernel/kernel/kmalloc.cc:26-36 | After any run a chunk is in bucket i if and only if it is free and i is the bucket of its size; the chunk after a free one exists and is in use, so no neighbours are both free and the last chunk is in use |
| KernelHeap.HeldApart | osdev/kernel/kernel/kmalloc.cc:499-533 | After any run held payloads lie in [8, heap size) and are apart, with their tags between them |
| KernelHeap.AllFreed | osdev/kernel/kernel/kmalloc.cc:262-300 | When everything is given back the heap is as it was at first: size 8, all buckets empty |
| KernelHeap.ServeSound | osdev/kernel/kernel/kmalloc.cc:499-533 | One request keeps all of that |
| KernelHeap.BucketBounds | osdev/kernel/kernel/kmalloc.cc:26-36 | Bucket i holds sizes from 2^(i+3) up to 2^(i+4), the last without upper bound |
| KernelHeap.HeadFits | osdev/kernel/kernel/kmalloc.cc:38-46 | For requests up to 2^18 bytes every chunk in a searched bucket is large enough, although requests of 8 bytes search the last bucket only |
| KernelHeap.ServedFrom | osdev/kernel/kernel/kmalloc.cc:126-141 | A request of more than 8 and up to 2^18 bytes is served from a free chunk if and only if one has at least 2^ceil(log2 bytes) bytes, and the one taken is less than twice as large as any such, unless they have 2^18 bytes; a request of 8 bytes if and only if one has 2^18; otherwise the heap grows by the least such power of two and the tags, or the answer is null at the limit |
| KernelHeap.TakenOf | osdev/kernel/kernel/kmalloc.cc:164-195 | The chunk taken was free, and is cut to exactly the request or, if less than 16 bytes would be left, given whole; what is left is one free chunk behind it, and no other chunk changes |
| KernelHeap.LastFreedFirst | osdev/kernel/kernel/kmalloc.cc:197-219 | A chunk freed with no free neighbour is the next to be handed out to a request of its bucket |
| KernelHeap.SearchFinds | osdev/kernel/kernel/kmalloc.cc:126-135 | The search goes through all buckets from its first up, and finds a chunk if and only if one is large enough to be searched |
| KernelHeap.SuitsIffSearched | osdev/kernel/kernel/kmalloc.cc:38-46 | The buckets that are searched are those of the free chunks of that size |
| KernelHeap.ServedAlways | osdev/kernel/kernel/kmalloc.cc:126-162 | For a size the first chunk that a search comes to is large enough after every run, if and only if the size is at most 2^18 |
| KernelHeap.HeadTooSmall | osdev/kernel/kernel/kmalloc.cc:143-162 | For every larger size, a run of three requests after which that chunk is too small, so that the walk goes on from its suffix |
| KernelHeap.UnlistedOk | osdev/kernel/kernel/kmalloc.cc:316-330 | Taking a chunk off its list keeps the other buckets |
| KernelHeap.MadeUsedOk | osdev/kernel/kernel/kmalloc.cc:221-244 | A chunk put in an empty place, or at the end, keeps the chunks apart and the buckets right |
| KernelHeap.MadeFreeOk | osdev/kernel/kernel/kmalloc.cc:197-219 | A free chunk goes in front of the bucket of its size and nowhere else |
| KernelHeap.CoalescedWhole | osdev/kernel/kernel/kmalloc.cc:247-260 | Two adjacent free chunks become one of both sizes and a pair of tags, in the bucket of its new size |
| KernelHeap.ReleasedQuiet | osdev/kernel/kernel/kmalloc.cc:263-265 | After a chunk is marked free, free neighbours can only be beside it |
| KernelHeap.JoinedLeftQuiet | osdev/kernel/kernel/kmalloc.cc:267-274 | After the left neighbour is joined, free neighbours can only be on the right |
| KernelHeap.JoinedRightQuiet | osdev/kernel/kernel/kmalloc.cc:276-282 | After the right neighbour is joined there are none |
| KernelHeap.TrimmedQuiet | osdev/kernel/kernel/kmalloc.cc:284-289 | A free chunk at the end is given up, and then the last chunk is in use |
| KernelHeap.FetchedValid | osdev/kernel/kernel/kmalloc.cc:164-195 | A chunk from a bucket is cut to size or taken whole; it was not in use, and nothing in use changes |
| KernelHeap.GrownValid | osdev/kernel/kernel/kmalloc.cc:137-140 | A chunk appended at the end keeps the heap well formed |
| KernelHeap.Allocated | osdev/kernel/kernel/kmalloc.cc:126-141 | The chunk is new to what is in use, large enough, and all else in use stays |
| KernelHeap.Freed | osdev/kernel/kernel/kmalloc.cc:262-289 | Exactly that chunk goes out of use and the heap stays well formed |
| KernelHeapMemory.TagFields | osdev/kernel/kernel/kmalloc.cc:57-77 | Size and occupied bit are read back from the tag |
| KernelHeapMemory.WovenRepresents | osdev/kernel/kernel/kmalloc.cc:316-330 | Linking the two neighbours makes the words spell the list without the chunk |
| KernelHeapMemory.UsedRepresents | osdev/kernel/kernel/kmalloc.cc:233-241 | Two tags written around a place make it a chunk in use |
| KernelHeapMemory.FreeRepresents | osdev/kernel/kernel/kmalloc.cc:200-218 | Tags and links written make the words spell the list with the chunk in front |
| KernelHeapMemory.WovenSame | osdev/kernel/kernel/kmalloc.cc:316-330 | No word of a payload in use changes with the links |
| KernelHeapMemory.TagsSame | osdev/kernel/kernel/kmalloc.cc:233-241 | No word of another payload changes with the tags |
| KernelHeapMemory.FreeSame | osdev/kernel/kernel/kmalloc.cc:200-218 | No word of another payload changes with tags and links |
| KernelHeapMemory.StoreRepresents | osdev/kernel/kernel/kmalloc.cc:499-515 | A store into a payload in use breaks nothing in the heap |
| KernelHeap.OrderKeptIff | osdev/kernel/kernel/kmalloc.cc:164-195 | When a free chunk is cut for a request, the heap stays in order and the chunk comes to be in use if and only if the limit test passes, which the code makes although the heap does not grow then |
| KernelHeap.GivenRightIff | osdev/kernel/kernel/kmalloc.cc:126-195 | A request is answered right, by null without any change or by memory of its own, if and only if the limit test passes for the chunk that serves it, if there is one |
| KernelHeap.LimitFails | osdev/kernel/kernel/kmalloc.cc:221-229 | For every limit above 48, a run that never meets it, after which the test fails for the one free chunk, which is as large as the request |
| Kmalloc.KernelMemoryManager.WeaveTwoChunksTogether | osdev/kernel/kernel/kmalloc.cc:316-330 | The neighbours are linked, or the bucket starts with the next one |
| Kmalloc.KernelMemoryManager.CreateNewUsedChunkAt | osdev/kernel/kernel/kmalloc.cc:221-244 | Null and no change near the limit; otherwise the chunk is in use at that place, the heap grows if that was its end, no word of another payload changes |
| Kmalloc.KernelMemoryManager.CreateNewFreeChunkAt | osdev/kernel/kernel/kmalloc.cc:197-219 | The chunk is free and first in its bucket; no word of a payload in use changes |
| Kmalloc.KernelMemoryManager.IterateFreeList | osdev/kernel/kernel/kmalloc.cc:143-162 | The head of a list is taken if it fits |
| Kmalloc.KernelMemoryManager.SplitMemory | osdev/kernel/kernel/kmalloc.cc:164-195 | The first chunk of a bucket is cut to size, the remainder put in its own bucket, and no word of a payload in use changes; where the limit test fails the chunk is handed out off its list, with its size word still saying that it is free |
| Kmalloc.KernelMemoryManager.GetMemoryFromBucket | osdev/kernel/kernel/kmalloc.cc:126-141 | The first bucket with a chunk serves the request, all later ones being searched, or the heap grows by a power of two, or there is no room and the answer is null; by ServedFrom the heap grows only if no free chunk is large enough; what comes of a failing limit test is stated too |
| Kmalloc.KernelMemoryManager.Kmalloc | osdev/kernel/kernel/kmalloc.cc:499-515 | Null for zero bytes and, with the heap unchanged, if there is neither a chunk nor room to grow; otherwise a payload that was not in use, taken from a free chunk if and only if one has the size that is searched for, with every word of every payload in use unchanged, and the heap well formed if and only if the limit test passes for the chunk used; for every size whose search is served by the first chunk it comes to |
| Kmalloc.TagsFit | osdev/kernel/kernel/kmalloc.cc:61-77 | Every size word fits in 32 bits |
| Kmalloc.KernelMemoryManager.CoalsceTwoChunks | osdev/kernel/kernel/kmalloc.cc:247-260 | Both leave their lists and one chunk takes their place; no word of a payload in use changes |
| Kmalloc.KernelMemoryManager.RemoveFreeChunkFromHeap | osdev/kernel/kernel/kmalloc.cc:291-300 | The chunk leaves its list and the heap ends where it began |
| Kmalloc.KernelMemoryManager.FreeOccupiedChunk | osdev/kernel/kernel/kmalloc.cc:262-289 | The chunk is joined with free neighbours and trimmed off at the end; no word of another payload changes |
| Kmalloc.KernelMemoryManager.Kfree | osdev/kernel/kernel/kmalloc.cc:525-533 | Exactly that payload goes out of use; every word of the others is unchanged |
| Kmalloc.KernelMemoryManager.Store | osdev/kernel/kernel/kmalloc.cc:499-515 | The caller may write any word of a held payload and the heap stays well formed |
| Powers.FloorLog | osdev/kernel/kernel/kmalloc.cc:13-18 | The exponent of the greatest power of two that is not above the number |
| Powers.CeilLog | osdev/kernel/kernel/kernel_math.cc:5-25 | The exponent of the least power of two that is not below the number |
| SearchTree.InsertedEffect | osdev/kernel/std/tree.h:114-130 | Adding an absent key keeps the search order, with no node twice, and adds exactly that key and node |
| SearchTree.DeletedEffect | osdev/kernel/std/tree.h:132-181 | A delete, with no, one or two children, keeps the search order and takes away exactly that key and node |
| SearchTree.WithoutTopEffect | osdev/kernel/std/tree.h:140-169 | The same for the three ways to do without the top of a subtree |
| SearchTree.SuccessorRises | osdev/kernel/std/tree.h:157-169 | The place of a node with two children goes to the node with the least of the greater keys, and what is on the left stays there |
| SearchTree.LeftmostEffect | osdev/kernel/std/tree.h:228-237 | The leftmost node has the least key, and the tree without it keeps its order |
| SearchTree.NestedDelete | osdev/kernel/std/tree.h:157-169 | The search for the key of the successor from the root finds the successor, and deleting it leaves the place of the deleted node where it was |
| SearchTree.LeftmostDeleted | osdev/kernel/std/tree.h:157-162 | Deleting the least key takes the leftmost node off |
| SearchTree.ReplacedTwice | osdev/kernel/std/tree.h:157-168 | Replacing a subtree with the same key at its top twice is replacing it once |
| SearchTree.CountKeys | osdev/kernel/std/set.h:135-147 | There are as many keys as nodes |
| SearchTree.FindThere | osdev/kernel/std/tree.h:186-206 | A search for a key that is there ends at its node |
| SearchTree.FindMissing | osdev/kernel/std/tree.h:186-206 | A search for a key that is not there ends at null, under a node of the tree |
| SearchTree.SubFound | osdev/kernel/std/tree.h:186-206 | A key is in the tree if and only if the search path leads to a subtree with it at the top |
| SearchTree.InsertedShape | osdev/kernel/std/tree.h:120-124 | Setting one child pointer makes the pointers spell the tree with the node added |
| SearchTree.ReplacedShape | osdev/kernel/std/tree.h:151-168 | Setting one child pointer of the parent makes the pointers spell the tree with the subtree replaced |
| SearchTree.ParentLinks | osdev/kernel/std/tree.h:151-165 | The parent that the search finds is the parent, on the side where the key belongs |
| SearchTree.BinaryTreeNode.AddChild | osdev/kernel/std/tree.h:58-68 | The node goes to the side of its key and what was there comes back |
| SearchTree.BinaryTreeNode.RemoveChild | osdev/kernel/std/tree.h:70-76 | The link to that child, on whichever side, is cleared |
| SearchTree.BinaryTreeNode.SetChild | osdev/kernel/std/tree.h:78-84 | The node goes to the side of its key |
| SearchTree.BinaryTreeNode.SwitchChild | osdev/kernel/std/tree.h:86-92 | The link to one child, on whichever side, leads to the other |
| BinaryTrees.BinaryTree.SearchNode | osdev/kernel/std/tree.h:186-206 | The node with the key and its parent; with no such node, the parent it would have |
| BinaryTrees.BinaryTree.FindPath | osdev/kernel/std/tree.h:208-226 | A chain of children from the root to the node with the key, ending with that node under its parent; nothing if the key is not there |
| BinaryTrees.BinaryTree.FindLeftMostNodeFrom | osdev/kernel/std/tree.h:228-237 | The leftmost node below |
| BinaryTrees.BinaryTree.InsertNode | osdev/kernel/std/tree.h:114-130 | An absent key is added under the parent that the search gives; the subtree at a key that is there is cut off and returned |
| BinaryTrees.ReplacedEffect | osdev/kernel/std/tree.h:120-128 | Inserting a key that is there keeps the order, but loses every key of the subtree at that key |
| BinaryTrees.BinaryTree.DeleteNode | osdev/kernel/std/tree.h:132-172 | The pointers spell the tree without that key, in all three cases |
| BinaryTrees.BinaryTree.DeleteOuter | osdev/kernel/std/tree.h:140-156 | The same with at most one child; the node comes out unlinked |
| BinaryTrees.BinaryTree.DeleteInner | osdev/kernel/std/tree.h:157-169 | The same with two children, the successor being deleted by a search of its own and put in place |
| BinaryTrees.BinaryTree.PutInPlace | osdev/kernel/std/tree.h:161-168 | The successor takes over both children and the link from the parent |
| BinaryTrees.Set.Count | osdev/kernel/std/set.h:130-133 | 1 if and only if the key is an element |
| BinaryTrees.Set.Insert | osdev/kernel/std/set.h:135-147 | The elements and that key; the counter is the number of elements |
| BinaryTrees.Set.Erase | osdev/kernel/std/set.h:150-163 | The elements without that key; 1 if and only if it was there |
| BinaryTrees.Set.EraseAt | osdev/kernel/std/set.h:165-177 | The elements without the one the iterator stands at |
| BinaryTrees.Set.FindElement | osdev/kernel/std/set.h:181-182 | An iterator at the element, with its true parent below it; the end if and only if it is not there |
| BinaryTrees.Set.Begin | osdev/kernel/std/set.h:116-126 | An iterator at the least element, with its true parent below it; the end if and only if there is none |
| BinaryTrees.Set.Clear | osdev/kernel/std/set.h:186-191 | The destructor loop ends, with no element left |

## Left out

- UserMalloc.UserHeap.Malloc: a request that no free block can serve must leave the heap, once grown for it, below 2^31 bytes, because the code narrows the found offset to `int` (osdev/user/libc/malloc.c:321). Failure of `sbrk`, which the code does not test for, is not modelled either.
- UserMalloc.UserHeap.FetchBlock: the heap stays below 2^31 bytes, as for Malloc.
- UserMalloc.UserHeap.Sbrk: negative amounts, on which the kernel leaves the heap as it is (osdev/kernel/kernel/sys/sys_sbrk.h:28-31).
- UserMalloc.UserHeap.Free: the pointer must be null or a payload in use, as the code trusts its caller.
- Alignment of payloads to 8 bytes is not claimed: the first block has 4084 bytes (osdev/user/libc/malloc.c:298-301).
- `realloc`, which does not copy (osdev/user/libc/malloc.c:369-370), and `calloc`.
- BuddyAllocator.BuddyBlockAllocator.GetFrame: a failure is `None`; that a null result may also be address 0 of an arena that starts there is not modelled.
- BuddyAllocator.BuddyBlockAllocator.constructor: order at most 30, since `1 << x` shifts an `int`, byte counts below 2^64, and trailing zeros of the frame size and order that come to at most 32; beyond that the order of a block is lost (`BuddyAllocator.CountableIff`), and what a release then does is not modelled.
- BuddyAllocator.BuddyBlockAllocator.FreeFrame: the address must be that of an outstanding block, as the code trusts its caller.
- `UserFrameAllocator`, and the printing of bits and lists.
- Kmalloc.KernelMemoryManager.Kmalloc: requests up to 2^30 bytes for which the first chunk the search comes to, if any, is large enough; beyond that the walk goes on by what the chunk after it holds (osdev/kernel/kernel/kmalloc.cc:155-158), which is not modelled. What later calls do to a heap that a failing limit test has left out of order is not modelled either.
- Kmalloc.KernelMemoryManager.GetMemoryFromBucket: the same requests as for Kmalloc.
- Kmalloc.KernelMemoryManager.IterateFreeList: what it does after a head that is too small is not modelled, as above.
- Kmalloc.KernelMemoryManager.SplitMemory: the chunk is the head of its bucket, as in its one call.
- Kmalloc.KernelMemoryManager.CreateNewUsedChunkAt: the place must be free for the chunk, as the code trusts its callers.
- `AlignedAlloc`, which grows a free left neighbour without moving it to its new bucket (osdev/kernel/kernel/kmalloc.cc:437-452), `kcalloc`, the heap lock and the debug output.
- Paging.PageTable.SetPML4E: ranges of whole pages that stay within one 2^48-byte region and below the last gigabyte of the address space, mapped to physical addresses below 2^52, which is as far as an entry goes; a range in the top slot belongs to the kernel, and the first such range is mapped while there is one top-level table, as the constructor does. There must be memory below 2^52 for up to three new tables a page.
- Paging.PageTable.AllocateTable: the same ranges as for SetPML4E.
- Paging.PageTable.CreateNewTable: stands for `kaligned_alloc` by handing out fresh 4 KB-aligned tables; table addresses are physical throughout, the fixed offset between physical and kernel addresses being left out.
- `Free*` of page tables, copying of page tables, the page-fault handler and user page allocation.
- Semaphores.Semaphore.TryDown: one pass of the retry loop in `Down`; the passes of all threads interleave as steps of `Scheduling`, and that a waiting thread gets its turn in the end is not claimed.
- Scheduling.StepSound: a thread is started once, and a woken thread goes on with the `Down` it was in.
- Semaphores.KernelThreadScheduler.Yield: saving and restoring registers, address spaces and segments is left out.
- KernelLists.KernelList.PushBack: an element that is in the list already is excluded, where the code stops the machine if it is first or last; no thread comes to that.
- Several cores, spin locks, termination states, first-time placement of threads on cores.
- Sha1Context.Context.Update: data of at most 2^32 - 64 bytes in one call, since above that the 32-bit index of the code wraps around.
- Sha1Context.SHA1: the length is that of the sequence, and messages of 2^61 bytes or more count their bits modulo 2^64 as the counters do. Wiping of buffers and the terminating zero after the digest are left out.
- HashSets.HashSetInternal.SearchKey: requires that the key is there or a slot was never used, which is exactly when the loop of the code ends.
- HashSets.HashSetInternal.RemoveKey: requires that the key is there or a slot was never used, as for SearchKey.
- HashSets: keys are integers under an arbitrary hash function; ownership and deletion of keys, and the map and set on top of the table, are left out.
- IntegerText.PrintInt: every int but the least, whose negation overflows. The other conversions, `#`, `long` types, the cut at the length of the output buffer, and the parsing of the format string are left out.
- IntegerText.MatchDecimal: what overflow does to the number is not modelled, only when there is any (`IntegerText.ScanStaysIntIff`). `MatchHex`, `MatchOct` and the driver of `sscanf` are left out.
- BinaryTrees.BinaryTree.DeleteNode: keys are integers. Freeing of deleted nodes, `PrintTree`, copying of sets, `map`, and `++` on iterators, which climbs without moving its own node (osdev/kernel/std/set.h:33-44), are left out.
