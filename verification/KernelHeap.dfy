/** The layout of the kernel heap, without its memory: chunks of memory and sixteen lists of
    free chunks, by size. */
module KernelHeap {
  import opened Lists
  import opened Powers

  const BUCKETS := 16
  const HEAP_BEGIN := 8
  // Bytes of the two size words around the memory of a chunk.
  const INFO := 8

  datatype Chunk = Chunk(size: int, free: bool)

  /** Chunks by start; `lists[i]` holds the starts of the free chunks of bucket `i`. */
  datatype Heap = Heap(chunks: map<int, Chunk>, lists: seq<seq<int>>, end: int)

  function End(chunks: map<int, Chunk>, c: int): int
    requires c in chunks
  {
    c + chunks[c].size + INFO
  }

  // ----- Buckets ----------------------------------------------------------------------

  /** The bucket of a free chunk with `bytes` of memory; -1 if that is too little. */
  function BucketOfFreeChunk(bytes: int): (i: int)
    requires bytes >= 1
    ensures i < BUCKETS && (bytes >= 8 ==> 0 <= i)
  {
    var power := FloorLog(bytes);
    LogAtLeast(bytes, power, 3);
    if power <= 2 then -1 else if power < 3 + BUCKETS then power - 3 else BUCKETS - 1
  }

  lemma LogAtLeast(x: int, k: nat, j: nat)
    requires x >= 1 && x < Pow2(k + 1)
    ensures x >= Pow2(j) ==> k >= j
    ensures Pow2(3) == 8
  {
    if k < j { PowMonotone(k + 1, j); }
  }

  /** The first bucket that is searched for `bytes` of memory. */
  function BucketIndex(bytes: int): (i: int)
    requires bytes >= 1
    ensures 0 <= i < BUCKETS
  {
    var power := CeilLog(bytes);
    if power < 3 then 0 else if 3 < power < 3 + BUCKETS then power - 3 else BUCKETS - 1
  }

  /** Bucket `i` holds chunks of 2^(i+3) bytes up to, but not including, 2^(i+4); the last
      one has no upper bound. */
  lemma BucketBounds(size: int)
    requires size >= 8
    ensures var i := BucketOfFreeChunk(size);
            Pow2(i + 3) <= size && (i < BUCKETS - 1 ==> size < Pow2(i + 4))
  {
    var power := FloorLog(size);
    LogAtLeast(size, power, 3);
    if power >= 3 + BUCKETS { PowMonotone(BUCKETS + 2, power); }
  }

  /** Every chunk in a bucket that is searched is large enough. */
  lemma HeadFits(bytes: int, size: int)
    requires 8 <= bytes <= Pow2(18) && size >= 8 && BucketOfFreeChunk(size) >= BucketIndex(bytes)
    ensures size >= bytes
  {
    hide FloorLog, Pow2;
    BucketBounds(size);
    var power, i := CeilLog(bytes), BucketOfFreeChunk(size);
    Three();
    if power > 18 { PowMonotone(18, power - 1); }
    if power < 3 { PowMonotone(power, 3); }
    if power > 3 { PowMonotone(power, i + 3); }
  }

  lemma Three()
    ensures Pow2(3) == 8 && Pow2(4) == 16
  {
  }

  // ----- Chunks and lists -------------------------------------------------------------

  /** Chunks lie inside the heap, apart, and have room for two links. */
  ghost predicate Placed(chunks: map<int, Chunk>, end: int) {
    && end >= HEAP_BEGIN
    && (forall c | c in chunks :: HEAP_BEGIN <= c && chunks[c].size >= 8 && End(chunks, c) <= end)
    && (forall c, d | c in chunks && d in chunks && c < d :: End(chunks, c) <= d)
  }

  /** A listed chunk is free and in the list of its bucket. */
  ghost predicate ListOk(chunks: map<int, Chunk>, list: seq<int>, i: int) {
    && Distinct(list)
    && forall c | c in list ::
         c in chunks && chunks[c].free && chunks[c].size >= 8 && BucketOfFreeChunk(chunks[c].size) == i
  }

  ghost predicate ListsOk(chunks: map<int, Chunk>, lists: seq<seq<int>>) {
    && |lists| == BUCKETS
    && forall i {:trigger ListOk(chunks, lists[i], i)} | 0 <= i < BUCKETS :: ListOk(chunks, lists[i], i)
  }

  /** What every single step keeps. */
  ghost predicate Ok(h: Heap) { Placed(h.chunks, h.end) && ListsOk(h.chunks, h.lists) }

  ghost predicate Listed(h: Heap, c: int) {
    exists i | 0 <= i < |h.lists| :: c in h.lists[i]
  }

  lemma ListedInBucket(h: Heap, c: int)
    requires Ok(h) && Listed(h, c)
    ensures c in h.chunks && h.chunks[c].free && h.chunks[c].size >= 8
    ensures var i := BucketOfFreeChunk(h.chunks[c].size); 0 <= i < |h.lists| && c in h.lists[i]
  {
    var i :| 0 <= i < |h.lists| && c in h.lists[i];
    assert ListOk(h.chunks, h.lists[i], i);
  }

  // ----- Steps ------------------------------------------------------------------------

  /** A chunk leaves its list. */
  function Unlisted(h: Heap, c: int): Heap
    requires |h.lists| == BUCKETS && c in h.chunks && h.chunks[c].size >= 8
    requires c in h.lists[BucketOfFreeChunk(h.chunks[c].size)]
  {
    var i := BucketOfFreeChunk(h.chunks[c].size);
    h.(lists := h.lists[i := Without(h.lists[i], c)])
  }

  lemma UnlistedOk(h: Heap, c: int)
    requires Ok(h) && Listed(h, c)
    ensures c in h.chunks && h.chunks[c].size >= 8 && c in h.lists[BucketOfFreeChunk(h.chunks[c].size)]
    ensures Ok(Unlisted(h, c)) && forall d :: Listed(Unlisted(h, c), d) <==> Listed(h, d) && d != c
  {
    hide BucketOfFreeChunk, Without, Distinct;
    ListedInBucket(h, c);
    var i, h' := BucketOfFreeChunk(h.chunks[c].size), Unlisted(h, c);
    assert ListOk(h.chunks, h.lists[i], i);
    WithoutElements(h.lists[i], c);
    forall j | 0 <= j < BUCKETS ensures ListOk(h'.chunks, h'.lists[j], j) {
      assert ListOk(h.chunks, h.lists[j], j);
    }
    forall d ensures Listed(h', d) <==> Listed(h, d) && d != c {
      if Listed(h, d) && d != c {
        ListedInBucket(h, d);
        var j := BucketOfFreeChunk(h.chunks[d].size);
        assert d in h'.lists[j];
      }
      if Listed(h', d) {
        var j :| 0 <= j < |h'.lists| && d in h'.lists[j];
        assert d in h.lists[j];
        assert ListOk(h.chunks, h.lists[j], j);
      }
    }
  }

  /** No other chunk lies in the place of a chunk of `size` bytes at `c`. */
  ghost predicate Clear(chunks: map<int, Chunk>, c: int, size: int) {
    forall d | d in chunks && d != c :: End(chunks, d) <= c || c + size + INFO <= d
  }

  /** A chunk is made, or made anew, and is in use; at the end of the heap the heap grows. */
  function MadeUsed(h: Heap, c: int, size: int): Heap {
    h.(chunks := h.chunks[c := Chunk(size, false)], end := if c == h.end then c + size + INFO else h.end)
  }

  lemma MadeUsedOk(h: Heap, c: int, size: int)
    requires Ok(h) && !Listed(h, c) && c >= HEAP_BEGIN && size >= 8 && Clear(h.chunks, c, size)
    requires c == h.end || c + size + INFO <= h.end
    ensures Ok(MadeUsed(h, c, size)) && forall d :: Listed(MadeUsed(h, c, size), d) <==> Listed(h, d)
  {
    hide BucketOfFreeChunk, Distinct;
    var h' := MadeUsed(h, c, size);
    assert h'.lists == h.lists;
    forall j | 0 <= j < BUCKETS ensures ListOk(h'.chunks, h'.lists[j], j) {
      assert ListOk(h.chunks, h.lists[j], j);
    }
  }

  /** A chunk is made, or made anew, and is free, first in the list of its bucket. */
  function MadeFree(h: Heap, c: int, size: int): Heap
    requires |h.lists| == BUCKETS && size >= 8
  {
    var i := BucketOfFreeChunk(size);
    h.(chunks := h.chunks[c := Chunk(size, true)], lists := h.lists[i := [c] + h.lists[i]])
  }

  lemma NotListed(h: Heap, c: int, i: int)
    requires !Listed(h, c) && 0 <= i < |h.lists|
    ensures c !in h.lists[i]
  {
  }

  lemma MadeFreeOk(h: Heap, c: int, size: int)
    requires Ok(h) && !Listed(h, c) && c >= HEAP_BEGIN && size >= 8 && Clear(h.chunks, c, size)
    requires c + size + INFO <= h.end
    ensures Ok(MadeFree(h, c, size)) && forall d :: Listed(MadeFree(h, c, size), d) <==> Listed(h, d) || d == c
  {
    hide BucketOfFreeChunk, Distinct;
    var i, h' := BucketOfFreeChunk(size), MadeFree(h, c, size);
    assert ListOk(h.chunks, h.lists[i], i);
    NotListed(h, c, i);
    AddedElements(h.lists[i], c);
    forall j | 0 <= j < BUCKETS ensures ListOk(h'.chunks, h'.lists[j], j) {
      assert ListOk(h.chunks, h.lists[j], j);
    }
    forall d ensures Listed(h', d) <==> Listed(h, d) || d == c {
      if Listed(h, d) {
        var j :| 0 <= j < |h.lists| && d in h.lists[j];
        assert d in h'.lists[j];
      }
      if d == c { assert d in h'.lists[i]; }
      if Listed(h', d) && d != c {
        var j :| 0 <= j < |h'.lists| && d in h'.lists[j];
        assert d in h.lists[j];
      }
    }
  }

  /** A chunk that is in no list is forgotten. */
  function Dropped(h: Heap, c: int): Heap { h.(chunks := h.chunks - {c}) }

  lemma DroppedOk(h: Heap, c: int)
    requires Ok(h) && !Listed(h, c)
    ensures Ok(Dropped(h, c)) && forall d :: Listed(Dropped(h, c), d) <==> Listed(h, d)
  {
    hide BucketOfFreeChunk, Distinct;
    var h' := Dropped(h, c);
    assert h'.lists == h.lists;
    forall j | 0 <= j < BUCKETS ensures ListOk(h'.chunks, h'.lists[j], j) {
      assert ListOk(h.chunks, h.lists[j], j);
    }
  }

  // ----- Whole heaps ------------------------------------------------------------------

  ghost predicate Followed(h: Heap, c: int)
    requires c in h.chunks
  {
    End(h.chunks, c) == h.end || End(h.chunks, c) in h.chunks
  }

  /** Chunks cover the heap from its beginning to its end, and every free one is listed. */
  ghost predicate Whole(h: Heap) {
    && Ok(h)
    && (h.end > HEAP_BEGIN ==> HEAP_BEGIN in h.chunks)
    && (forall c {:trigger Followed(h, c)} | c in h.chunks :: Followed(h, c))
    && (forall c {:trigger Listed(h, c)} | c in h.chunks && h.chunks[c].free :: Listed(h, c))
  }

  ghost predicate Loud(h: Heap, c: int) {
    c in h.chunks && h.chunks[c].free ==>
      End(h.chunks, c) in h.chunks && !h.chunks[End(h.chunks, c)].free
  }

  /** No two neighbours are both free, and the last chunk is in use. */
  ghost predicate Quiet(h: Heap) { forall c {:trigger Loud(h, c)} :: Loud(h, c) }

  ghost predicate Valid(h: Heap) { Whole(h) && Quiet(h) }

  /** The chunk that ends at `p`, found from the beginning of the heap. */
  function LeftFrom(h: Heap, from: int, p: int): (c: int)
    requires Whole(h) && from in h.chunks && from < p && (p in h.chunks || p == h.end)
    ensures c in h.chunks && End(h.chunks, c) == p && c < p
    decreases p - from
  {
    assert Followed(h, from);
    if End(h.chunks, from) == p then from else LeftFrom(h, End(h.chunks, from), p)
  }

  function Left(h: Heap, p: int): (c: int)
    requires Whole(h) && HEAP_BEGIN < p && (p in h.chunks || p == h.end)
    ensures c in h.chunks && End(h.chunks, c) == p && c < p
  {
    LeftFrom(h, HEAP_BEGIN, p)
  }

  /** A chunk in use becomes free. */
  lemma ReleasedWhole(h: Heap, c: int)
    requires Whole(h) && c in h.chunks && !h.chunks[c].free
    ensures h.chunks[c].size >= 8 && |h.lists| == BUCKETS && Whole(MadeFree(h, c, h.chunks[c].size)) && !Listed(h, c)
  {
    hide BucketOfFreeChunk;
    if Listed(h, c) { ListedInBucket(h, c); assert false; }
    MadeFreeOk(h, c, h.chunks[c].size);
    var h' := MadeFree(h, c, h.chunks[c].size);
    forall d | d in h'.chunks ensures Followed(h', d) { assert Followed(h, d); }
  }

  // ----- Coalescing -------------------------------------------------------------------

  predicate IsFree(h: Heap, c: int) { c in h.chunks && h.chunks[c].free }

  lemma FreeListed(h: Heap, c: int)
    requires Whole(h) && IsFree(h, c)
    ensures Listed(h, c) && |h.lists| == BUCKETS && h.chunks[c].size >= 8
    ensures c in h.lists[BucketOfFreeChunk(h.chunks[c].size)]
  {
    hide BucketOfFreeChunk;
    assert Listed(h, c);
    ListedInBucket(h, c);
  }

  /** Both of two adjacent free chunks leave their lists, and one takes the place of both. */
  ghost function Coalesced(h: Heap, left: int): (h': Heap)
    requires Whole(h) && IsFree(h, left) && IsFree(h, End(h.chunks, left))
  {
    var right := End(h.chunks, left);
    FreeListed(h, left);
    FreeListed(h, right);
    UnlistedOk(h, left);
    var h1 := Unlisted(h, left);
    UnlistedOk(h1, right);
    var h2 := Dropped(Unlisted(h1, right), right);
    MadeFree(h2, left, h.chunks[left].size + h.chunks[right].size + INFO)
  }

  /** What the steps of coalescing ask for. */
  lemma CoalesceReady(h: Heap, left: int)
    requires Whole(h) && IsFree(h, left) && IsFree(h, End(h.chunks, left))
    ensures var right := End(h.chunks, left);
            && |h.lists| == BUCKETS && left >= HEAP_BEGIN && h.chunks[left].size >= 8 && h.chunks[right].size >= 8
            && Listed(h, left) && left in h.lists[BucketOfFreeChunk(h.chunks[left].size)]
    ensures var right, h1 := End(h.chunks, left), Unlisted(h, left);
            && |h1.lists| == BUCKETS && h1.chunks == h.chunks && h1.end == h.end
            && Listed(h1, right) && right in h1.lists[BucketOfFreeChunk(h.chunks[right].size)]
            && var h2 := Unlisted(h1, right);
            && h2.chunks == h.chunks && h2.end == h.end && Ok(h2) && !Listed(h2, right) && !Listed(h2, left)
            && Clear(h.chunks - {right}, left, h.chunks[left].size + h.chunks[right].size + INFO)
            && left + (h.chunks[left].size + h.chunks[right].size + INFO) + INFO <= h.end
  {
    hide BucketOfFreeChunk, Unlisted, ListOk, Listed, Clear;
    var right := End(h.chunks, left);
    FreeListed(h, left);
    FreeListed(h, right);
    UnlistedOk(h, left);
    UnlistedChunks(h, left);
    var h1 := Unlisted(h, left);
    UnlistedOk(h1, right);
    UnlistedChunks(h1, right);
    ClearOfBoth(h, left);
  }

  lemma MadeFreeChunks(h: Heap, c: int, size: int)
    requires |h.lists| == BUCKETS && size >= 8
    ensures MadeFree(h, c, size).chunks == h.chunks[c := Chunk(size, true)] && MadeFree(h, c, size).end == h.end
  {
  }

  lemma CoalescedOk(h: Heap, left: int)
    requires Whole(h) && IsFree(h, left) && IsFree(h, End(h.chunks, left))
    ensures var h', right := Coalesced(h, left), End(h.chunks, left);
            && Ok(h') && h'.end == h.end
            && h'.chunks == (h.chunks - {right})[left := Chunk(h.chunks[left].size + h.chunks[right].size + INFO, true)]
            && forall d :: Listed(h', d) <==> Listed(h, d) && d != right
  {
    hide BucketOfFreeChunk, Unlisted, Dropped, MadeFree, Listed, Clear, Placed, ListsOk;
    var right := End(h.chunks, left);
    var size := h.chunks[left].size + h.chunks[right].size + INFO;
    CoalesceReady(h, left);
    UnlistedOk(h, left);
    var h1 := Unlisted(h, left);
    UnlistedOk(h1, right);
    var h2 := Unlisted(h1, right);
    DroppedOk(h2, right);
    DroppedChunks(h2, right);
    var h3 := Dropped(h2, right);
    assert !Listed(h3, left);
    assert |h3.lists| == BUCKETS by { OkCount(h3); }
    MadeFreeOk(h3, left, size);
    MadeFreeChunks(h3, left, size);
  }

  lemma OkCount(h: Heap)
    requires Ok(h)
    ensures |h.lists| == BUCKETS
  {
  }

  lemma CoalescedFollowed(h: Heap, h': Heap, left: int, d: int)
    requires Whole(h) && left in h.chunks && End(h.chunks, left) in h.chunks && h'.end == h.end && d in h'.chunks
    requires var right := End(h.chunks, left);
             h'.chunks == (h.chunks - {right})[left := Chunk(h.chunks[left].size + h.chunks[right].size + INFO, true)]
    ensures Followed(h', d)
  {
    hide ListsOk, Listed;
    assert Followed(h, if d == left then End(h.chunks, left) else d);
  }

  lemma CoalescedWhole(h: Heap, left: int)
    requires Whole(h) && IsFree(h, left) && IsFree(h, End(h.chunks, left))
    ensures var h', right := Coalesced(h, left), End(h.chunks, left);
            && Whole(h') && h'.end == h.end
            && h'.chunks == (h.chunks - {right})[left := Chunk(h.chunks[left].size + h.chunks[right].size + INFO, true)]
  {
    hide Coalesced, Followed, Listed, ListsOk;
    var h', right := Coalesced(h, left), End(h.chunks, left);
    CoalescedOk(h, left);
    forall d | d in h'.chunks ensures Followed(h', d) { CoalescedFollowed(h, h', left, d); }
    forall d | d in h'.chunks && h'.chunks[d].free ensures Listed(h', d) { assert d != right; }
  }

  lemma UnlistedChunks(h: Heap, c: int)
    requires |h.lists| == BUCKETS && c in h.chunks && h.chunks[c].size >= 8
    requires c in h.lists[BucketOfFreeChunk(h.chunks[c].size)]
    ensures Unlisted(h, c).chunks == h.chunks && Unlisted(h, c).end == h.end
  {
  }

  lemma DroppedChunks(h: Heap, c: int)
    ensures Dropped(h, c).chunks == h.chunks - {c} && Dropped(h, c).end == h.end && Dropped(h, c).lists == h.lists
  {
  }

  lemma ClearOfBoth(h: Heap, left: int)
    requires Placed(h.chunks, h.end) && left in h.chunks && End(h.chunks, left) in h.chunks
    ensures var right := End(h.chunks, left);
            Clear(h.chunks - {right}, left, h.chunks[left].size + h.chunks[right].size + INFO)
  {
  }

  /** Chunks other than `a` are quiet. */
  ghost predicate QuietBut(h: Heap, a: int) { forall c {:trigger Loud(h, c)} | c != a :: Loud(h, c) }

  /** A freed chunk is joined with a free left neighbour. */
  ghost function JoinedLeft(h: Heap, c: int): (Heap, int)
    requires Whole(h) && IsFree(h, c)
  {
    if c > HEAP_BEGIN && IsFree(h, Left(h, c)) then (Coalesced(h, Left(h, c)), Left(h, c)) else (h, c)
  }

  ghost function JoinedRight(h: Heap, a: int): Heap
    requires Whole(h) && IsFree(h, a)
  {
    if IsFree(h, End(h.chunks, a)) then Coalesced(h, a) else h
  }

  /** A free chunk at the end of the heap is given up. */
  ghost function Trimmed(h: Heap, a: int): Heap
    requires Whole(h) && IsFree(h, a)
  {
    FreeListed(h, a);
    if End(h.chunks, a) == h.end then Dropped(Unlisted(h, a), a).(end := a) else h
  }

  /** The chunks in use, with their sizes. */
  ghost function Live(h: Heap): map<int, int> {
    map c | c in h.chunks && !h.chunks[c].free :: h.chunks[c].size
  }

  lemma ReleasedQuiet(h: Heap, c: int)
    requires Valid(h) && c in h.chunks && !h.chunks[c].free && h.chunks[c].size >= 8 && |h.lists| == BUCKETS
    ensures var h' := MadeFree(h, c, h.chunks[c].size);
            && IsFree(h', c) && Live(h') == Live(h) - {c}
            && (forall d {:trigger IsFree(h', d)} | d != c && IsFree(h', d) ::
                  End(h'.chunks, d) in h'.chunks && (End(h'.chunks, d) == c || !IsFree(h', End(h'.chunks, d))))
  {
    hide BucketOfFreeChunk, Whole;
    var h' := MadeFree(h, c, h.chunks[c].size);
    assert Live(h').Keys == Live(h).Keys - {c};
    forall d | d != c && IsFree(h', d)
      ensures End(h'.chunks, d) in h'.chunks && (End(h'.chunks, d) == c || !IsFree(h', End(h'.chunks, d)))
    {
      assert Loud(h, d);
    }
  }

  lemma JoinedLeftQuiet(h: Heap, c: int)
    requires Whole(h) && IsFree(h, c)
    requires forall d {:trigger IsFree(h, d)} | d != c && IsFree(h, d) ::
               End(h.chunks, d) in h.chunks && (End(h.chunks, d) == c || !IsFree(h, End(h.chunks, d)))
    ensures var (h', a) := JoinedLeft(h, c);
            Whole(h') && IsFree(h', a) && QuietBut(h', a) && Live(h') == Live(h)
  {
    hide BucketOfFreeChunk, Coalesced;
    var (h', a) := JoinedLeft(h, c);
    if a != c {
      CoalescedWhole(h, a);
      assert Live(h').Keys == Live(h).Keys;
    } else if c > HEAP_BEGIN {
      forall d | d != c && IsFree(h, d) ensures End(h.chunks, d) != c {
        SameEnd(h, d, Left(h, c));
      }
    }
    forall d | d != a ensures Loud(h', d) {
      if IsFree(h', d) { assert IsFree(h, d); }
    }
  }

  lemma SameEnd(h: Heap, c: int, d: int)
    requires Ok(h) && c in h.chunks && d in h.chunks && c != d
    ensures End(h.chunks, c) != End(h.chunks, d)
  {
  }

  lemma JoinedRightQuiet(h: Heap, a: int)
    requires Whole(h) && IsFree(h, a) && QuietBut(h, a)
    ensures var h' := JoinedRight(h, a);
            && Whole(h') && IsFree(h', a) && QuietBut(h', a) && Live(h') == Live(h)
            && !IsFree(h', End(h'.chunks, a))
  {
    hide BucketOfFreeChunk, Coalesced;
    var h', r := JoinedRight(h, a), End(h.chunks, a);
    if IsFree(h, r) {
      CoalescedWhole(h, a);
      assert Live(h').Keys == Live(h).Keys;
      assert Loud(h, r);
      forall d | d != a ensures Loud(h', d) { assert Loud(h, d); }
    }
  }

  lemma TrimmedQuiet(h: Heap, a: int)
    requires Whole(h) && IsFree(h, a) && QuietBut(h, a) && !IsFree(h, End(h.chunks, a))
    ensures Valid(Trimmed(h, a)) && Live(Trimmed(h, a)) == Live(h)
  {
    hide BucketOfFreeChunk, Unlisted, Dropped;
    FreeListed(h, a);
    assert Followed(h, a);
    var h' := Trimmed(h, a);
    if End(h.chunks, a) == h.end {
      TrimmedWhole(h, a);
      assert Live(h').Keys == Live(h).Keys;
    }
    forall d ensures Loud(h', d) {
      if d != a { assert Loud(h, d); }
    }
  }

  lemma TrimmedWhole(h: Heap, a: int)
    requires Whole(h) && IsFree(h, a) && QuietBut(h, a) && End(h.chunks, a) == h.end
    ensures Whole(Trimmed(h, a)) && Trimmed(h, a).chunks == h.chunks - {a} && Trimmed(h, a).end == a
  {
    hide BucketOfFreeChunk, Unlisted, Dropped;
    FreeListed(h, a);
    UnlistedOk(h, a);
    UnlistedChunks(h, a);
    var h1 := Unlisted(h, a);
    DroppedOk(h1, a);
    DroppedChunks(h1, a);
    var h2 := Dropped(h1, a);
    var h' := h2.(end := a);
    assert Placed(h'.chunks, h'.end);
    forall d ensures Listed(h', d) <==> Listed(h2, d) {}
    forall d | d in h'.chunks ensures Followed(h', d) { assert Followed(h, d) && Loud(h, d); }
  }

  // ----- Requests ---------------------------------------------------------------------

  /** Freeing a chunk: it is joined with its free neighbours, and given up if it is then the
      last one. */
  ghost function Freed(h: Heap, c: int): (h': Heap)
    requires Valid(h) && c in h.chunks && !h.chunks[c].free
    ensures Valid(h') && Live(h') == Live(h) - {c}
  {
    ReleasedWhole(h, c);
    ReleasedQuiet(h, c);
    var h1 := MadeFree(h, c, h.chunks[c].size);
    JoinedLeftQuiet(h1, c);
    var (h2, a) := JoinedLeft(h1, c);
    JoinedRightQuiet(h2, a);
    TrimmedQuiet(JoinedRight(h2, a), a);
    Trimmed(JoinedRight(h2, a), a)
  }

  /** The first bucket from `i` on with a chunk; `BUCKETS` if there is none. */
  function FirstBucket(h: Heap, i: nat): (r: nat)
    requires |h.lists| == BUCKETS && i <= BUCKETS
    ensures i <= r <= BUCKETS && (r < BUCKETS ==> h.lists[r] != [])
    decreases BUCKETS - i
  {
    if i == BUCKETS || h.lists[i] != [] then i else FirstBucket(h, i + 1)
  }

  /** The first chunk of bucket `i`, if there is one, is large enough. */
  ghost predicate HeadServes(h: Heap, i: nat, bytes: int) {
    && i < |h.lists|
    && (h.lists[i] != [] ==> h.lists[i][0] in h.chunks && h.chunks[h.lists[i][0]].size >= bytes)
  }

  /** The first chunk that the search for `bytes` comes to, if any, is large enough. */
  ghost predicate Serves(h: Heap, bytes: int)
    requires |h.lists| == BUCKETS && bytes >= 1
  {
    var i := FirstBucket(h, BucketIndex(bytes));
    i < BUCKETS ==> HeadServes(h, i, bytes)
  }

  lemma SmallServed(h: Heap, bytes: int)
    requires Valid(h) && 8 <= bytes <= Pow2(18)
    ensures Serves(h, bytes)
  {
    hide BucketOfFreeChunk, BucketIndex, Pow2;
    var i := FirstBucket(h, BucketIndex(bytes));
    if i < BUCKETS {
      var c := h.lists[i][0];
      assert ListOk(h.chunks, h.lists[i], i) && c in h.lists[i];
      HeadFits(bytes, h.chunks[c].size);
    }
  }

  /** What a request takes of a chunk: a remainder too small for a chunk is taken too. */
  function Taken(size: int, bytes: int): int { if size - bytes < 16 then size else bytes }

  /** The first chunk of bucket `i` is cut to size and used; the remainder is free. */
  function Fetched(h: Heap, i: nat, bytes: int): Heap
    requires Ok(h) && i < BUCKETS && h.lists[i] != [] && bytes >= 8
    requires h.lists[i][0] in h.chunks && h.chunks[h.lists[i][0]].size >= bytes
    requires h.lists[i][0] in h.lists[BucketOfFreeChunk(h.chunks[h.lists[i][0]].size)]
  {
    var c := h.lists[i][0];
    var size := h.chunks[c].size;
    var taken := Taken(size, bytes);
    var h' := MadeUsed(Unlisted(h, c), c, taken);
    if taken == size then h' else MadeFree(h', c + taken + INFO, size - taken - INFO)
  }

  lemma FetchReady(h: Heap, i: nat, bytes: int)
    requires Valid(h) && i < BUCKETS && h.lists[i] != [] && 8 <= bytes && HeadServes(h, i, bytes)
    ensures var c := h.lists[i][0];
            && IsFree(h, c) && h.chunks[c].size >= bytes && BucketOfFreeChunk(h.chunks[c].size) == i
            && c in h.lists[i] && Listed(h, c)
  {
    hide BucketOfFreeChunk;
    var c := h.lists[i][0];
    assert ListOk(h.chunks, h.lists[i], i) && c in h.lists[i];
  }

  lemma FetchedValid(h: Heap, i: nat, bytes: int)
    requires Valid(h) && i < BUCKETS && h.lists[i] != [] && 8 <= bytes && HeadServes(h, i, bytes)
    ensures var c := h.lists[i][0];
            && c in h.chunks && h.chunks[c].size >= bytes && c in h.lists[BucketOfFreeChunk(h.chunks[c].size)]
            && var h' := Fetched(h, i, bytes);
            && Valid(h') && c !in Live(h) && Live(h') == Live(h)[c := Taken(h.chunks[c].size, bytes)]
  {
    hide BucketOfFreeChunk, Unlisted, Distinct, Fetched, Quiet, ListOk, Placed;
    FetchReady(h, i, bytes);
    var c := h.lists[i][0];
    var taken := Taken(h.chunks[c].size, bytes);
    WholeOk(h);
    FetchedOk(h, i, bytes);
    FetchedWhole(h, Fetched(h, i, bytes), c, taken);
    FetchedQuiet(h, Fetched(h, i, bytes), c, taken);
  }

  lemma WholeOk(h: Heap)
    requires Whole(h)
    ensures Ok(h)
  {
  }

  lemma FetchedOk(h: Heap, i: nat, bytes: int)
    requires Ok(h) && i < BUCKETS && h.lists[i] != [] && bytes >= 8
    requires var c := h.lists[i][0];
             && c in h.chunks && h.chunks[c].size >= bytes && Listed(h, c)
             && c in h.lists[BucketOfFreeChunk(h.chunks[c].size)]
    ensures var c, h' := h.lists[i][0], Fetched(h, i, bytes);
            var taken := Taken(h.chunks[c].size, bytes);
            && Ok(h') && Cut(h, h', c, taken)
            && forall d :: Listed(h', d)
                 <==> (Listed(h, d) && d != c) || (taken < h.chunks[c].size && d == c + taken + INFO)
  {
    hide BucketOfFreeChunk, Unlisted, Distinct, Listed, ListOk;
    var c := h.lists[i][0];
    var size := h.chunks[c].size;
    var taken := Taken(size, bytes);
    UnlistedOk(h, c);
    UnlistedChunks(h, c);
    var h1 := Unlisted(h, c);
    ClearInside(h, c, c, taken);
    MadeUsedOk(h1, c, taken);
    if taken < size {
      var r := c + taken + INFO;
      NotInside(h, c, r);
      ClearRest(h, c, taken);
      MadeFreeOk(MadeUsed(h1, c, taken), r, size - taken - INFO);
    }
  }

  // A smaller chunk in the place of a chunk.
  lemma ClearInside(h: Heap, c: int, d: int, size: int)
    requires Ok(h) && c in h.chunks && d == c && size <= h.chunks[c].size
    ensures Clear(h.chunks, d, size)
  {
  }

  lemma NotInside(h: Heap, c: int, r: int)
    requires Ok(h) && c in h.chunks && c < r < End(h.chunks, c)
    ensures r !in h.chunks && !Listed(h, r)
  {
    if Listed(h, r) { ListedInBucket(h, r); }
  }

  lemma ClearRest(h: Heap, c: int, taken: int)
    requires Ok(h) && c in h.chunks && 8 <= taken <= h.chunks[c].size - 16
    ensures Clear(h.chunks[c := Chunk(taken, false)], c + taken + INFO, h.chunks[c].size - taken - INFO)
  {
  }

  /** The chunk at `c` is in use with `taken` bytes, and the rest of it, if any, is free. */
  ghost predicate Cut(h: Heap, h': Heap, c: int, taken: int)
    requires c in h.chunks
  {
    var size := h.chunks[c].size;
    && h'.end == h.end
    && h'.chunks
       == if taken < size
          then h.chunks[c := Chunk(taken, false)][c + taken + INFO := Chunk(size - taken - INFO, true)]
          else h.chunks[c := Chunk(taken, false)]
  }

  lemma FetchedWhole(h: Heap, h': Heap, c: int, taken: int)
    requires Whole(h) && IsFree(h, c) && (taken == h.chunks[c].size || 8 <= taken <= h.chunks[c].size - 16)
    requires Cut(h, h', c, taken) && Ok(h')
    requires forall d :: Listed(h', d)
               <==> (Listed(h, d) && d != c) || (taken < h.chunks[c].size && d == c + taken + INFO)
    ensures Whole(h')
  {
    hide BucketOfFreeChunk, Ok;
    forall d | d in h'.chunks ensures Followed(h', d) {
      assert Followed(h, c);
      if d in h.chunks { assert Followed(h, d); }
    }
  }

  lemma FetchedQuiet(h: Heap, h': Heap, c: int, taken: int)
    requires Valid(h) && IsFree(h, c) && (taken == h.chunks[c].size || 8 <= taken <= h.chunks[c].size - 16)
    requires Cut(h, h', c, taken)
    ensures Quiet(h') && c !in Live(h) && Live(h') == Live(h)[c := taken]
  {
    hide BucketOfFreeChunk, Whole;
    assert Loud(h, c);
    if taken < h.chunks[c].size { OutsideRest(h, c, taken); }
    forall d ensures Loud(h', d) { assert Loud(h, d); }
    assert Live(h').Keys == Live(h)[c := taken].Keys;
  }

  lemma OutsideRest(h: Heap, c: int, taken: int)
    requires Valid(h) && c in h.chunks && 8 <= taken <= h.chunks[c].size - 16
    ensures c + taken + INFO !in h.chunks
    ensures forall d | d in h.chunks :: End(h.chunks, d) != c + taken + INFO
  {
  }

  /** The heap grows by a chunk in use. */
  lemma GrownValid(h: Heap, size: int)
    requires Valid(h) && size >= 8
    ensures Valid(MadeUsed(h, h.end, size)) && h.end !in Live(h)
    ensures Live(MadeUsed(h, h.end, size)) == Live(h)[h.end := size]
  {
    hide BucketOfFreeChunk;
    var c, h' := h.end, MadeUsed(h, h.end, size);
    if Listed(h, c) { ListedInBucket(h, c); }
    assert c !in h.chunks;
    MadeUsedOk(h, c, size);
    forall d | d in h'.chunks ensures Followed(h', d) {
      if d != c { assert Followed(h, d); }
    }
    forall d ensures Loud(h', d) { assert Loud(h, d); }
    assert Live(h').Keys == Live(h)[c := size].Keys;
  }

  // ----- Runs -------------------------------------------------------------------------

  /** A request for `bytes` bytes: the new heap, and the start of the chunk. */
  ghost function Allocated(h: Heap, bytes: int): (r: (Heap, int))
    requires Valid(h) && 8 <= bytes && Serves(h, bytes)
    ensures Valid(r.0) && r.1 !in Live(h) && r.1 in Live(r.0) && Live(r.0)[r.1] >= bytes
    ensures Live(r.0) - {r.1} == Live(h)
  {
    hide BucketIndex, Fetched, FirstBucket;
    var i := FirstBucket(h, BucketIndex(bytes));
    if i < BUCKETS then
      FetchedValid(h, i, bytes);
      (Fetched(h, i, bytes), h.lists[i][0])
    else
      PowerAtLeast(bytes);
      GrownValid(h, Pow2(CeilLog(bytes)));
      (MadeUsed(h, h.end, Pow2(CeilLog(bytes))), h.end)
  }

  lemma PowerAtLeast(bytes: int)
    requires bytes >= 8
    ensures Pow2(CeilLog(bytes)) >= bytes
  {
  }

  datatype Request = Kmalloc(bytes: int) | Kfree(payload: int)

  /** The heap with what the client holds: payloads, each with the bytes asked for. */
  datatype Session = Session(heap: Heap, held: map<int, int>)

  ghost predicate HeldOk(s: Session, p: int)
    requires p in s.held
  {
    p - 4 in Live(s.heap) && s.held[p] <= Live(s.heap)[p - 4]
  }

  /** The client holds exactly the chunks in use. */
  ghost predicate Sound(s: Session) {
    && Valid(s.heap)
    && (forall p {:trigger HeldOk(s, p)} | p in s.held :: HeldOk(s, p))
    && (forall c | c in Live(s.heap) :: c + 4 in s.held)
  }

  /** A request of zero bytes is answered with null; the search for more goes no further than
      the first chunk it comes to. */
  ghost predicate Legal(s: Session, r: Request) {
    match r
    case Kmalloc(bytes) => 0 <= bytes && |s.heap.lists| == BUCKETS && Serves(s.heap, AtLeast8(bytes))
    case Kfree(payload) => payload in s.held
  }

  function AtLeast8(bytes: int): int { if bytes < 8 then 8 else bytes }

  ghost function Serve(s: Session, r: Request): Session
    requires Sound(s) && Legal(s, r)
  {
    match r
    case Kmalloc(bytes) =>
      if bytes == 0 then s
      else
        var (h, c) := Allocated(s.heap, AtLeast8(bytes));
        Session(h, s.held[c + 4 := bytes])
    case Kfree(payload) =>
      assert HeldOk(s, payload);
      Session(Freed(s.heap, payload - 4), s.held - {payload})
  }

  lemma Eighteen()
    ensures Pow2(18) == 0x4_0000
  {
    assert Pow2(9) == 512;
  }

  lemma ServeSound(s: Session, r: Request)
    requires Sound(s) && Legal(s, r)
    ensures Sound(Serve(s, r))
  {
    hide Allocated, Freed, Valid, Serves;
    var s' := Serve(s, r);
    match r
    case Kmalloc(bytes) =>
      if bytes > 0 {
        var (h, c) := Allocated(s.heap, AtLeast8(bytes));
        forall p | p in s'.held ensures HeldOk(s', p) {
          if p != c + 4 { assert HeldOk(s, p); }
        }
        forall d | d in Live(h) ensures d + 4 in s'.held {
          if d != c { assert d in Live(h) - {c}; }
        }
      }
    case Kfree(payload) =>
      assert HeldOk(s, payload);
      forall p | p in s'.held ensures HeldOk(s', p) { assert HeldOk(s, p); }
  }

  ghost predicate Run(s: Session, rs: seq<Request>, t: Session)
    decreases |rs|
  {
    if rs == [] then s == t
    else Sound(s) && Legal(s, rs[0]) && Run(Serve(s, rs[0]), rs[1..], t)
  }

  lemma {:induction false} RunSound(s: Session, rs: seq<Request>, t: Session)
    requires Sound(s) && Run(s, rs, t)
    ensures Sound(t)
    decreases |rs|
  {
    hide Sound, Serve, Legal;
    if rs != [] {
      ServeSound(s, rs[0]);
      RunSound(Serve(s, rs[0]), rs[1..], t);
    }
  }

  /** The heap before anything is allocated. */
  function Fresh(): Heap { Heap(map[], seq(BUCKETS, i => []), HEAP_BEGIN) }

  lemma FreshValid()
    ensures Valid(Fresh()) && Live(Fresh()) == map[]
  {
    var h := Fresh();
    forall i | 0 <= i < BUCKETS ensures ListOk(h.chunks, h.lists[i], i) {}
  }

  /** After any run the memory the client holds is inside the heap, as large as was asked
      for, and no two pieces of it overlap. */
  lemma HeldApart(rs: seq<Request>, t: Session)
    requires Run(Session(Fresh(), map[]), rs, t)
    ensures forall p | p in t.held :: HEAP_BEGIN + 4 <= p && p + t.held[p] + 4 <= t.heap.end
    ensures forall p, q | p in t.held && q in t.held && p < q :: p + t.held[p] + INFO <= q
  {
    FreshValid();
    RunSound(Session(Fresh(), map[]), rs, t);
    forall p | p in t.held ensures HEAP_BEGIN + 4 <= p && p + t.held[p] + 4 <= t.heap.end {
      assert HeldOk(t, p);
    }
    forall p, q | p in t.held && q in t.held && p < q ensures p + t.held[p] + INFO <= q {
      assert HeldOk(t, p) && HeldOk(t, q);
    }
  }

  /** After any run the heap is in order: chunks cover it, bucket i holds exactly the free
      chunks of its sizes, no two neighbours are free, and the last chunk is in use. */
  lemma RunValid(rs: seq<Request>, t: Session, c: int)
    requires Run(Session(Fresh(), map[]), rs, t) && c in t.heap.chunks
    ensures t.heap.chunks[c].size >= 8 && |t.heap.lists| == BUCKETS
    ensures forall i | 0 <= i < BUCKETS ::
              c in t.heap.lists[i] <==> t.heap.chunks[c].free && i == BucketOfFreeChunk(t.heap.chunks[c].size)
    ensures End(t.heap.chunks, c) == t.heap.end || End(t.heap.chunks, c) in t.heap.chunks
    ensures t.heap.chunks[c].free ==> IsUsed(t.heap, End(t.heap.chunks, c))
  {
    hide BucketOfFreeChunk;
    FreshValid();
    RunSound(Session(Fresh(), map[]), rs, t);
    var h := t.heap;
    assert Followed(h, c) && Loud(h, c);
    if h.chunks[c].free { FreeListed(h, c); }
    forall i | 0 <= i < BUCKETS
      ensures c in h.lists[i] <==> h.chunks[c].free && i == BucketOfFreeChunk(h.chunks[c].size)
    {
      assert ListOk(h.chunks, h.lists[i], i);
    }
  }

  predicate IsUsed(h: Heap, c: int) { c in h.chunks && !h.chunks[c].free }

  /** A client that has given everything back leaves the heap as it was at first. */
  lemma AllFreed(rs: seq<Request>, t: Session)
    requires Run(Session(Fresh(), map[]), rs, t) && t.held == map[]
    ensures t.heap == Fresh()
  {
    hide BucketOfFreeChunk;
    FreshValid();
    RunSound(Session(Fresh(), map[]), rs, t);
    var h := t.heap;
    assert Live(h) == map[] by { assert forall c :: c !in Live(h); }
    forall c | c in h.chunks ensures false { AllFreeEnds(h, c); }
    assert h.chunks == map[];
    assert h.end == HEAP_BEGIN;
    EmptyLists(h.lists);
  }

  lemma EmptyLists(lists: seq<seq<int>>)
    requires ListsOk(map[], lists)
    ensures lists == Fresh().lists
  {
    hide BucketOfFreeChunk;
    forall i | 0 <= i < BUCKETS ensures lists[i] == [] {
      assert ListOk(map[], lists[i], i);
      NoElements(lists[i]);
    }
  }

  lemma NoElements(s: seq<int>)
    ensures s != [] ==> s[0] in s
  {
  }

  lemma AllFreeEnds(h: Heap, c: int)
    requires Valid(h) && c in h.chunks
    ensures Live(h) != map[]
  {
    assert Loud(h, c);
    var u := if h.chunks[c].free then End(h.chunks, c) else c;
    assert u in Live(h);
  }

  // ----- Near the limit of the heap ---------------------------------------------------

  /** What becomes of the heap when the first chunk of bucket `i` is cut: where the test of the
      limit fails, the chunk has left its list and is not marked, so that it is no chunk of the
      heap any more, and the remainder is made all the same. */
  function FetchedWithin(h: Heap, i: nat, bytes: int, limit: int): Heap
    requires Ok(h) && i < BUCKETS && h.lists[i] != [] && bytes >= 8
    requires h.lists[i][0] in h.chunks && h.chunks[h.lists[i][0]].size >= bytes
    requires h.lists[i][0] in h.lists[BucketOfFreeChunk(h.chunks[h.lists[i][0]].size)]
  {
    var c := h.lists[i][0];
    var size := h.chunks[c].size;
    var taken := Taken(size, bytes);
    if h.end + taken + INFO < limit then Fetched(h, i, bytes) else Spoiled(h, c, taken)
  }

  function Spoiled(h: Heap, c: int, taken: int): Heap
    requires |h.lists| == BUCKETS && c in h.chunks && h.chunks[c].size >= 8
    requires c in h.lists[BucketOfFreeChunk(h.chunks[c].size)]
    requires taken == h.chunks[c].size || taken <= h.chunks[c].size - 16
  {
    var size, h' := h.chunks[c].size, Dropped(Unlisted(h, c), c);
    if taken == size then h' else MadeFree(h', c + taken + INFO, size - taken - INFO)
  }

  /** What the steps ask for, and what they leave. */
  lemma SpoilReady(h: Heap, c: int, taken: int)
    requires Ok(h) && Listed(h, c) && c in h.chunks && h.chunks[c].size >= 8
    requires taken == h.chunks[c].size || 8 <= taken <= h.chunks[c].size - 16
    ensures |h.lists| == BUCKETS && c in h.lists[BucketOfFreeChunk(h.chunks[c].size)]
    ensures var h1 := Dropped(Unlisted(h, c), c);
            && Ok(h1) && h1.chunks == h.chunks - {c} && h1.end == h.end
            && (taken < h.chunks[c].size ==>
                  var r, size := c + taken + INFO, h.chunks[c].size - taken - INFO;
                  !Listed(h1, r) && r !in h1.chunks && Clear(h1.chunks, r, size) && r + size + INFO <= h1.end)
  {
    hide BucketOfFreeChunk, Unlisted, ListOk, Listed;
    UnlistedOk(h, c);
    UnlistedChunks(h, c);
    DroppedOk(Unlisted(h, c), c);
    DroppedChunks(Unlisted(h, c), c);
    if taken < h.chunks[c].size { NotInside(h, c, c + taken + INFO); }
  }

  /** No chunk starts where the lost one does, and the heap is out of order. */
  lemma SpoiledBroken(h: Heap, c: int, taken: int)
    requires Valid(h) && Listed(h, c) && c in h.chunks && h.chunks[c].size >= 8
    requires taken == h.chunks[c].size || 8 <= taken <= h.chunks[c].size - 16
    ensures |h.lists| == BUCKETS && c in h.lists[BucketOfFreeChunk(h.chunks[c].size)]
    ensures !Valid(Spoiled(h, c, taken)) && c !in Spoiled(h, c, taken).chunks
  {
    hide BucketOfFreeChunk, Unlisted, Dropped, Ok, Quiet, Left;
    assert c >= HEAP_BEGIN && End(h.chunks, c) <= h.end by { WholePlaced(h); }
    SpoilReady(h, c, taken);
    var h' := Spoiled(h, c, taken);
    if c > HEAP_BEGIN {
      var l := Left(h, c);
      assert l in h'.chunks && !Followed(h', l);
    }
  }

  lemma WholePlaced(h: Heap)
    requires Whole(h)
    ensures Placed(h.chunks, h.end)
  {
  }

  /** The heap stays in order, and the chunk comes to be in use, if and only if the test of the
      limit passes. */
  lemma OrderKeptIff(h: Heap, i: nat, bytes: int, limit: int)
    requires Valid(h) && i < BUCKETS && h.lists[i] != [] && 8 <= bytes && HeadServes(h, i, bytes)
    ensures var c := h.lists[i][0];
            && c in h.lists[BucketOfFreeChunk(h.chunks[c].size)]
            && var h' := FetchedWithin(h, i, bytes, limit);
            && (Valid(h') <==> h.end + Taken(h.chunks[c].size, bytes) + INFO < limit)
            && (c in Live(h') <==> h.end + Taken(h.chunks[c].size, bytes) + INFO < limit)
  {
    hide BucketOfFreeChunk, Spoiled, Fetched, ListOk, Valid;
    FetchReady(h, i, bytes);
    FetchedValid(h, i, bytes);
    var c := h.lists[i][0];
    SpoiledBroken(h, c, Taken(h.chunks[c].size, bytes));
  }

  /** A request in a heap that may grow up to `limit`: the new heap, and the start of the chunk
      handed out; -4 stands for null, which is where the chunk of a null payload would be. */
  ghost function Given(h: Heap, bytes: int, limit: int): (Heap, int)
    requires Valid(h) && 8 <= bytes && Serves(h, bytes)
  {
    hide BucketIndex;
    var i := FirstBucket(h, BucketIndex(bytes));
    var size := Pow2(CeilLog(bytes));
    if i < BUCKETS then
      FetchReady(h, i, bytes);
      (FetchedWithin(h, i, bytes, limit), h.lists[i][0])
    else if h.end + size + INFO >= limit then (h, -4)
    else (MadeUsed(h, h.end, size), h.end)
  }

  /** The limit test passes for the chunk that serves the request, if there is one. */
  ghost predicate Room(h: Heap, bytes: int, limit: int)
    requires |h.lists| == BUCKETS && bytes >= 1
  {
    var i := FirstBucket(h, BucketIndex(bytes));
    i < BUCKETS ==>
      var c := h.lists[i][0];
      c in h.chunks && h.end + Taken(h.chunks[c].size, bytes) + INFO < limit
  }

  /** Neither a chunk nor room to grow. */
  ghost predicate Full(h: Heap, bytes: int, limit: int)
    requires |h.lists| == BUCKETS && bytes >= 1
  {
    FirstBucket(h, BucketIndex(bytes)) == BUCKETS && h.end + Pow2(CeilLog(bytes)) + INFO >= limit
  }

  /** A request is answered right, by null or by memory of its own, if and only if the limit
      test passes for the chunk that serves it. */
  lemma GivenRightIff(h: Heap, bytes: int, limit: int)
    requires Valid(h) && 8 <= bytes && Serves(h, bytes)
    ensures var (h', c) := Given(h, bytes, limit);
            && (Room(h, bytes, limit) <==> Valid(h'))
            && (Room(h, bytes, limit) ==>
                  (h', c) == if Full(h, bytes, limit) then (h, -4) else Allocated(h, bytes))
            && (!Room(h, bytes, limit) ==> c != -4 && c !in Live(h'))
  {
    hide Fetched, FetchedWithin, CeilLog, Pow2, ListOk, BucketIndex, FirstBucket;
    var i := FirstBucket(h, BucketIndex(bytes));
    if i < BUCKETS {
      FetchReady(h, i, bytes);
      OrderKeptIff(h, i, bytes, limit);
      assert h.lists[i][0] >= HEAP_BEGIN;
      WithinIsFetched(h, i, bytes, limit);
    } else {
      PowerAtLeast(bytes);
      GrownValid(h, Pow2(CeilLog(bytes)));
    }
  }

  lemma WithinIsFetched(h: Heap, i: nat, bytes: int, limit: int)
    requires Valid(h) && i < BUCKETS && h.lists[i] != [] && 8 <= bytes && HeadServes(h, i, bytes)
    ensures h.lists[i][0] in h.lists[BucketOfFreeChunk(h.chunks[h.lists[i][0]].size)]
    ensures h.end + Taken(h.chunks[h.lists[i][0]].size, bytes) + INFO < limit ==>
              FetchedWithin(h, i, bytes, limit) == Fetched(h, i, bytes)
  {
    hide BucketOfFreeChunk, Fetched, Spoiled;
    FetchReady(h, i, bytes);
  }

  // ----- Which chunk serves a request -------------------------------------------------

  /** The least size that the search for `bytes` accepts: the least power of two that is not
      below, but for exactly 8 bytes, and above 2^18, it is 2^18. */
  function Sought(bytes: int): (n: int)
    requires bytes >= 8
    ensures 8 < bytes <= 0x4_0000 ==> bytes <= n < 2 * bytes && exists k: nat :: n == Pow2(k)
    ensures bytes == 8 || 0x4_0000 < bytes ==> n == 0x4_0000
  {
    if 8 < bytes <= 0x4_0000 then PowerBounds(bytes); Pow2(CeilLog(bytes)) else 0x4_0000
  }

  lemma PowerBounds(bytes: int)
    requires bytes >= 1
    ensures bytes <= Pow2(CeilLog(bytes)) < 2 * bytes
  {
    hide CeilLog;
    if CeilLog(bytes) > 0 { assert Pow2(CeilLog(bytes)) == 2 * Pow2(CeilLog(bytes) - 1); }
  }

  predicate Suits(h: Heap, c: int, bytes: int)
    requires bytes >= 8
  {
    IsFree(h, c) && h.chunks[c].size >= Sought(bytes)
  }

  /** The buckets that are searched are those of the sizes that suit. */
  lemma SuitsIffSearched(bytes: int, size: int)
    requires bytes >= 8 && size >= 8
    ensures BucketOfFreeChunk(size) >= BucketIndex(bytes) <==> size >= Sought(bytes)
  {
    hide FloorLog, Pow2, CeilLog;
    Eighteen();
    Three();
    BucketBounds(size);
    var k, i := CeilLog(bytes), BucketOfFreeChunk(size);
    if 8 < bytes <= 0x4_0000 {
      if k <= 3 { PowMonotone(k, 3); }
      if k > 18 { PowMonotone(18, k - 1); }
      if i + 3 >= k { PowMonotone(k, i + 3); } else { PowMonotone(i + 4, k); }
    } else {
      if bytes == 8 { EightIsThird(); } else if k <= 18 { PowMonotone(k, 18); }
      if i < BUCKETS - 1 { PowMonotone(i + 4, 18); }
    }
  }

  lemma EightIsThird()
    ensures CeilLog(8) == 3
  {
    LogOfPower(3);
    Three();
  }

  lemma {:induction false} NoneBefore(h: Heap, i: nat, j: nat)
    requires |h.lists| == BUCKETS && i <= BUCKETS && i <= j < FirstBucket(h, i)
    ensures h.lists[j] == []
    decreases j - i
  {
    if i < j { NoneBefore(h, i + 1, j); }
  }

  /** There is a chunk to search for if and only if one suits, and the one found is in the
      least bucket of those. */
  lemma SearchFinds(h: Heap, bytes: int)
    requires Valid(h) && bytes >= 8
    ensures |h.lists| == BUCKETS
    ensures var i := FirstBucket(h, BucketIndex(bytes));
            && (i < BUCKETS <==> exists c :: Suits(h, c, bytes))
            && (i < BUCKETS ==>
                  Suits(h, h.lists[i][0], bytes)
                  && forall d | Suits(h, d, bytes) ::
                       h.chunks[d].size >= 8 && BucketOfFreeChunk(h.chunks[d].size) >= i
                       && i == BucketOfFreeChunk(h.chunks[h.lists[i][0]].size))
  {
    hide BucketOfFreeChunk, BucketIndex, Sought, Quiet, FirstBucket;
    var i := FirstBucket(h, BucketIndex(bytes));
    forall d | Suits(h, d, bytes)
      ensures i < BUCKETS && h.chunks[d].size >= 8 && BucketOfFreeChunk(h.chunks[d].size) >= i
    {
      FreeListed(h, d);
      var j := BucketOfFreeChunk(h.chunks[d].size);
      SuitsIffSearched(bytes, h.chunks[d].size);
      if j < i { NoneBefore(h, BucketIndex(bytes), j); }
    }
    if i < BUCKETS {
      var c := h.lists[i][0];
      assert ListOk(h.chunks, h.lists[i], i) && c in h.lists[i];
      SuitsIffSearched(bytes, h.chunks[c].size);
      assert Suits(h, c, bytes);
    }
  }

  /** Of the chunks that suit none is half as large as the one taken, or smaller; from 2^18
      bytes on sizes make no difference. */
  lemma SameBucketSizes(size: int, other: int)
    requires size >= 8 && other >= 8 && BucketOfFreeChunk(other) >= BucketOfFreeChunk(size)
    ensures size < 2 * other || other >= 0x4_0000
  {
    hide FloorLog, Pow2;
    Eighteen();
    BucketBounds(size);
    BucketBounds(other);
    var i, j := BucketOfFreeChunk(size), BucketOfFreeChunk(other);
    if i < BUCKETS - 1 {
      PowMonotone(i + 3, j + 3);
      Twice(i + 3);
    }
  }

  lemma Twice(k: nat)
    ensures Pow2(k + 1) == 2 * Pow2(k)
  {
  }

  /** A request is served from a free chunk if and only if one suits, and then from one that is
      less than twice as large as any other that does.  Otherwise the heap grows by the least
      power of two that is not below the request, with its size words, unless it comes to the
      limit. */
  lemma ServedFrom(h: Heap, bytes: int, limit: int)
    requires Valid(h) && 8 <= bytes && Serves(h, bytes)
    ensures var (h', c) := Given(h, bytes, limit);
            && (Suits(h, c, bytes) <==> exists d :: Suits(h, d, bytes))
            && (Suits(h, c, bytes) ==>
                  && h'.end == h.end
                  && forall d | Suits(h, d, bytes) ::
                       h.chunks[c].size < 2 * h.chunks[d].size || h.chunks[d].size >= 0x4_0000)
            && (!Suits(h, c, bytes) ==>
                  exists k: nat :: bytes <= Pow2(k) < 2 * bytes &&
                    if h.end + Pow2(k) + INFO >= limit then c == -4 && h' == h
                    else c == h.end && h'.end == h.end + Pow2(k) + INFO)
  {
    hide BucketOfFreeChunk, BucketIndex, Sought, FirstBucket, CeilLog, Pow2, FetchedWithin, Valid;
    SearchFinds(h, bytes);
    PowerBounds(bytes);
    var i := FirstBucket(h, BucketIndex(bytes));
    var (h', c) := Given(h, bytes, limit);
    if i < BUCKETS {
      forall d | Suits(h, d, bytes)
        ensures h.chunks[c].size < 2 * h.chunks[d].size || h.chunks[d].size >= 0x4_0000
      {
        SameBucketSizes(h.chunks[c].size, h.chunks[d].size);
      }
      WithinEnd(h, i, bytes, limit);
    } else {
      assert !Suits(h, c, bytes);
      var k := CeilLog(bytes);
      assert bytes <= Pow2(k) < 2 * bytes;
    }
  }

  lemma WithinEnd(h: Heap, i: nat, bytes: int, limit: int)
    requires Valid(h) && i < BUCKETS && h.lists[i] != [] && 8 <= bytes && HeadServes(h, i, bytes)
    ensures h.lists[i][0] in h.lists[BucketOfFreeChunk(h.chunks[h.lists[i][0]].size)]
    ensures FetchedWithin(h, i, bytes, limit).end == h.end
  {
    hide BucketOfFreeChunk, ListOk;
    FetchReady(h, i, bytes);
    assert h.lists[i][0] < h.end by { assert End(h.chunks, h.lists[i][0]) <= h.end; }
  }

  /** Of a free chunk a request takes just what it asks for, or all of it where less than 16
      bytes would be left; the rest becomes a free chunk. */
  lemma TakenOf(h: Heap, bytes: int)
    requires Valid(h) && 8 <= bytes && Serves(h, bytes) && exists d :: Suits(h, d, bytes)
    ensures var (h', c) := Allocated(h, bytes);
            && Suits(h, c, bytes) && c in Live(h') && h'.end == h.end
            && var size, taken := h.chunks[c].size, Live(h')[c];
               && (taken == bytes || taken == size < bytes + 16)
               && h'.chunks == if taken == size then h.chunks[c := Chunk(size, false)]
                  else h.chunks[c := Chunk(taken, false)][c + taken + INFO := Chunk(size - taken - INFO, true)]
  {
    hide BucketOfFreeChunk, BucketIndex, Sought, FirstBucket, Fetched, Valid;
    SearchFinds(h, bytes);
    var i := FirstBucket(h, BucketIndex(bytes));
    FetchReady(h, i, bytes);
    FetchedValid(h, i, bytes);
    assert Ok(h) by { ValidOk(h); }
    FetchedOk(h, i, bytes);
  }

  lemma ValidOk(h: Heap)
    requires Valid(h)
    ensures Ok(h)
  {
  }

  /** A chunk that is freed and not joined is the first to be used again for a request of its
      bucket. */
  lemma LastFreedFirst(h: Heap, c: int, bytes: int)
    requires Valid(h) && IsUsed(h, c) && IsUsed(h, End(h.chunks, c))
    requires forall d | IsFree(h, d) :: End(h.chunks, d) != c
    requires bytes >= 8 && h.chunks[c].size >= bytes
    requires Sought(bytes) <= h.chunks[c].size && (h.chunks[c].size < 2 * Sought(bytes) || Sought(bytes) >= 0x4_0000)
    ensures Serves(Freed(h, c), bytes) && Allocated(Freed(h, c), bytes).1 == c
  {
    hide BucketOfFreeChunk, BucketIndex, Sought, Fetched, Whole, Quiet;
    FreedAlone(h, c);
    ReleasedWhole(h, c);
    var h', size := Freed(h, c), h.chunks[c].size;
    var i := BucketOfFreeChunk(size);
    OwnBucket(bytes, size);
    assert h'.lists[i][0] == c && h'.chunks[c].size == size;
    assert FirstBucket(h', i) == i;
  }

  lemma OwnBucket(bytes: int, size: int)
    requires bytes >= 8 && size >= 8 && Sought(bytes) <= size && (size < 2 * Sought(bytes) || Sought(bytes) >= 0x4_0000)
    ensures BucketIndex(bytes) == BucketOfFreeChunk(size)
  {
    hide FloorLog, Pow2, CeilLog;
    Eighteen();
    Three();
    BucketBounds(size);
    SuitsIffSearched(bytes, size);
    var k, i := CeilLog(bytes), BucketOfFreeChunk(size);
    if 8 < bytes <= 0x4_0000 {
      if k <= 3 { PowMonotone(k, 3); }
      if k > 18 { PowMonotone(18, k - 1); }
      Twice(k);
      if k + 1 <= i + 3 { PowMonotone(k + 1, i + 3); }
      if i < BUCKETS - 1 { PowMonotone(i + 4, 18); }
    } else if bytes == 8 { EightIsThird(); } else if k <= 18 { PowMonotone(k, 18); }
  }

  // ----- Which requests are served ----------------------------------------------------

  predicate NoneFree(h: Heap) { |h.lists| == BUCKETS && forall i | 0 <= i < BUCKETS :: h.lists[i] == [] }

  lemma {:induction false} NoBucket(h: Heap, i: nat)
    requires NoneFree(h) && i <= BUCKETS
    ensures FirstBucket(h, i) == BUCKETS
    decreases BUCKETS - i
  {
    if i < BUCKETS { NoBucket(h, i + 1); }
  }

  // With nothing free the heap grows by a power of two.
  lemma Grows(s: Session, k: nat)
    requires Sound(s) && NoneFree(s.heap) && k >= 3
    ensures var n, e := Pow2(k), s.heap.end;
            && n >= 8 && Legal(s, Kmalloc(n))
            && Serve(s, Kmalloc(n)) == Session(MadeUsed(s.heap, e, n), s.held[e + 4 := n])
  {
    hide Pow2, Allocated, Valid, MadeUsed, Serves;
    var n := Pow2(k);
    Three();
    PowMonotone(3, k);
    AtEnd(s.heap, k);
  }

  lemma AtEnd(h: Heap, k: nat)
    requires Valid(h) && NoneFree(h) && Pow2(k) >= 8
    ensures Serves(h, Pow2(k)) && Allocated(h, Pow2(k)) == (MadeUsed(h, h.end, Pow2(k)), h.end)
  {
    hide Pow2, Valid, MadeUsed, BucketIndex, FirstBucket, HeadServes, CeilLog;
    LogOfPower(k);
    NoBucket(h, BucketIndex(Pow2(k)));
  }

  lemma {:induction false} LogOfPower(k: nat)
    ensures CeilLog(Pow2(k)) == k
  {
    hide CeilLog;
    var c := CeilLog(Pow2(k));
    if c > k { PowMonotone(k, c - 1); }
    if c < k { PowMonotone(c + 1, k); }
  }

  // A chunk is freed that has no free neighbour and is not the last.
  lemma FreedAlone(h: Heap, c: int)
    requires Valid(h) && IsUsed(h, c) && IsUsed(h, End(h.chunks, c))
    requires forall d | IsFree(h, d) :: End(h.chunks, d) != c
    ensures Freed(h, c) == MadeFree(h, c, h.chunks[c].size)
  {
    hide BucketOfFreeChunk, Coalesced, Left;
    ReleasedWhole(h, c);
    var h1 := MadeFree(h, c, h.chunks[c].size);
    if c > HEAP_BEGIN { assert End(h1.chunks, Left(h1, c)) == c; }
    assert End(h.chunks, c) in h.chunks ==> End(h.chunks, c) != h.end by { EndOutside(h); }
  }

  lemma NothingBefore(h: Heap)
    requires Valid(h)
    ensures forall d | IsFree(h, d) :: End(h.chunks, d) != HEAP_BEGIN
  {
  }

  lemma EndOutside(h: Heap)
    requires Whole(h)
    ensures h.end !in h.chunks
  {
  }

  /** For every size above 2^18 there is a run after which the first chunk that the search
      comes to is too small. */
  lemma HeadTooSmall(bytes: int) returns (t: Session)
    requires bytes > Pow2(18)
    ensures Run(Session(Fresh(), map[]), [Kmalloc(Pow2(18)), Kmalloc(8), Kfree(12)], t)
    ensures |t.heap.lists| == BUCKETS && !Serves(t.heap, bytes)
  {
    hide Sound, Serves, Serve, Pow2;
    var s0 := Session(Fresh(), map[]);
    FreshSound();
    Grows(s0, 18);
    ServeSound(s0, Kmalloc(Pow2(18)));
    var s1 := Serve(s0, Kmalloc(Pow2(18)));
    Three();
    Grows(s1, 3);
    ServeSound(s1, Kmalloc(8));
    var s2 := Serve(s1, Kmalloc(8));
    t := Serve(s2, Kfree(12));
    LastTooSmall(s2, t, bytes);
  }

  lemma FreshSound()
    ensures Sound(Session(Fresh(), map[])) && NoneFree(Fresh())
  {
    FreshValid();
  }

  lemma LastTooSmall(s: Session, t: Session, bytes: int)
    requires Sound(s) && NoneFree(s.heap) && 12 in s.held && t == Serve(s, Kfree(12)) && bytes > Pow2(18)
    requires IsUsed(s.heap, HEAP_BEGIN) && s.heap.chunks[HEAP_BEGIN].size == Pow2(18)
    requires IsUsed(s.heap, End(s.heap.chunks, HEAP_BEGIN)) && End(s.heap.chunks, HEAP_BEGIN) != s.heap.end
    ensures |t.heap.lists| == BUCKETS && !Serves(t.heap, bytes)
  {
    hide Valid, Pow2, CeilLog, FloorLog;
    Eighteen();
    NothingBefore(s.heap);
    FreedAlone(s.heap, HEAP_BEGIN);
    BucketBounds(Pow2(18));
    var i, power := BucketOfFreeChunk(Pow2(18)), CeilLog(bytes);
    if i < BUCKETS - 1 { PowMonotone(i + 4, 18); }
    if power <= 18 { PowMonotone(power, 18); }
    assert BucketIndex(bytes) == BUCKETS - 1 && t.heap.lists[BUCKETS - 1] == [HEAP_BEGIN];
    assert FirstBucket(t.heap, BUCKETS - 1) == BUCKETS - 1;
  }

  /** The request is served as it would be without a limit. */
  ghost predicate Passes(s: Session, r: Request, limit: int) {
    && Sound(s) && Legal(s, r)
    && (r.Kmalloc? && r.bytes > 0 ==>
          var bytes := AtLeast8(r.bytes); Given(s.heap, bytes, limit) == Allocated(s.heap, bytes))
  }

  /** No request of the run meets the limit. */
  ghost predicate WithinLimit(s: Session, rs: seq<Request>, limit: int)
    decreases |rs|
  {
    rs == [] || (Passes(s, rs[0], limit) && WithinLimit(Serve(s, rs[0]), rs[1..], limit))
  }

  lemma GrowsWithin(s: Session, k: nat, limit: int)
    requires Sound(s) && NoneFree(s.heap) && k >= 3 && s.heap.end + Pow2(k) + INFO < limit
    ensures Pow2(k) >= 8 && Valid(s.heap) && Serves(s.heap, Pow2(k))
    ensures Given(s.heap, Pow2(k), limit) == Allocated(s.heap, Pow2(k))
  {
    hide Pow2, Valid, BucketIndex, Given, Allocated, FirstBucket;
    Three();
    PowMonotone(3, k);
    AtEnd(s.heap, k);
    GivenRightIff(s.heap, Pow2(k), limit);
    NoBucket(s.heap, BucketIndex(Pow2(k)));
    LogOfPower(k);
  }

  /** For every limit above 48 there is a run that never meets it, after which a request is for
      as much as the one free chunk has, and the limit test fails for that chunk. */
  lemma LimitFails(limit: int) returns (k: nat, t: Session)
    requires limit > 48
    ensures var s, rs := Session(Fresh(), map[]), [Kmalloc(Pow2(k)), Kmalloc(8), Kfree(12)];
            Run(s, rs, t) && WithinLimit(s, rs, limit)
    ensures Valid(t.heap) && Pow2(k) >= 8 && Serves(t.heap, Pow2(k)) && !Room(t.heap, Pow2(k), limit)
  {
    hide Sound, Serves, Serve, Pow2, Given, Allocated, Room;
    k := FloorLog(limit - 33);
    var n, s0 := Pow2(k), Session(Fresh(), map[]);
    LogAtLeast(limit - 33, k, 4);
    Three();
    FreshSound();
    Grows(s0, k);
    GrowsWithin(s0, k, limit);
    ServeSound(s0, Kmalloc(n));
    var s1 := Serve(s0, Kmalloc(n));
    Grows(s1, 3);
    GrowsWithin(s1, 3, limit);
    ServeSound(s1, Kmalloc(8));
    var s2 := Serve(s1, Kmalloc(8));
    ServeSound(s2, Kfree(12));
    t := Serve(s2, Kfree(12));
    OnlyFree(s2, t, k, limit);
    Unhindered(s0, Kmalloc(n), Kmalloc(8), Kfree(12), limit);
  }

  lemma Unhindered(s: Session, a: Request, b: Request, c: Request, limit: int)
    requires Passes(s, a, limit) && Passes(Serve(s, a), b, limit) && Passes(Serve(Serve(s, a), b), c, limit)
    ensures Run(s, [a, b, c], Serve(Serve(Serve(s, a), b), c)) && WithinLimit(s, [a, b, c], limit)
  {
    hide Passes, Serve;
    PassesLegal(s, a, limit);
    PassesLegal(Serve(s, a), b, limit);
    PassesLegal(Serve(Serve(s, a), b), c, limit);
    var s3 := Serve(Serve(Serve(s, a), b), c);
    assert [a, b, c][1..] == [b, c] && [b, c][1..] == [c] && [c][1..] == [];
    assert Run(s3, [], s3) && WithinLimit(s3, [], limit);
    assert Run(Serve(Serve(s, a), b), [c], s3) && WithinLimit(Serve(Serve(s, a), b), [c], limit);
    assert Run(Serve(s, a), [b, c], s3) && WithinLimit(Serve(s, a), [b, c], limit);
  }

  lemma PassesLegal(s: Session, r: Request, limit: int)
    requires Passes(s, r, limit)
    ensures Sound(s) && Legal(s, r)
  {
  }

  lemma OnlyFree(s: Session, t: Session, k: nat, limit: int)
    requires Sound(s) && NoneFree(s.heap) && 12 in s.held && t == Serve(s, Kfree(12)) && k >= 4
    requires IsUsed(s.heap, HEAP_BEGIN) && s.heap.chunks[HEAP_BEGIN].size == Pow2(k)
    requires IsUsed(s.heap, End(s.heap.chunks, HEAP_BEGIN)) && End(s.heap.chunks, HEAP_BEGIN) != s.heap.end
    requires s.heap.end + Pow2(k) + INFO >= limit
    ensures Valid(t.heap) && Pow2(k) >= 8 && Serves(t.heap, Pow2(k)) && !Room(t.heap, Pow2(k), limit)
  {
    hide Valid, Pow2, CeilLog, FloorLog;
    Three();
    PowMonotone(3, k);
    NothingBefore(s.heap);
    FreedAlone(s.heap, HEAP_BEGIN);
    SameBucket(k);
    var i := BucketIndex(Pow2(k));
    assert t.heap.lists[i] == [HEAP_BEGIN];
    assert FirstBucket(t.heap, i) == i;
  }

  lemma SameBucket(k: nat)
    requires k >= 4
    ensures BucketIndex(Pow2(k)) == BucketOfFreeChunk(Pow2(k))
  {
    hide CeilLog, FloorLog;
    LogOfPower(k);
    var f := FloorLog(Pow2(k));
    if f < k { PowMonotone(f + 1, k); }
    if f > k { PowMonotone(k + 1, f); }
  }

  /** Requests of up to 2^18 bytes, and only those, can be made in every heap there can be. */
  lemma ServedAlways(bytes: int)
    requires bytes >= 8
    ensures bytes <= Pow2(18) <==>
            forall rs, t {:trigger Run(Session(Fresh(), map[]), rs, t)} ::
              Run(Session(Fresh(), map[]), rs, t) ==> |t.heap.lists| == BUCKETS && Serves(t.heap, bytes)
  {
    hide Run, Serves, Sound, Pow2;
    var s := Session(Fresh(), map[]);
    forall rs, t | Run(s, rs, t) && bytes <= Pow2(18)
      ensures |t.heap.lists| == BUCKETS && Serves(t.heap, bytes)
    {
      FreshSound();
      RunSound(s, rs, t);
      assert Valid(t.heap) by { SoundValid(t); }
      SmallServed(t.heap, bytes);
    }
    if bytes > Pow2(18) { var t := HeadTooSmall(bytes); }
  }

  lemma SoundValid(t: Session)
    requires Sound(t)
    ensures Valid(t.heap) && |t.heap.lists| == BUCKETS
  {
  }
}
