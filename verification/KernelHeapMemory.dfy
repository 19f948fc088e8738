/** The words of the kernel heap: a size word before and after the memory of every chunk,
    and two links in the memory of a free one.  Chunks may have any size, so words may start
    at any byte. */
module KernelHeapMemory {
  import opened KernelHeap
  import opened Lists

  /** The words that can be read, by the offset of their first byte. */
  type Words = map<int, int>

  /** Writing a word spoils every word that shares a byte with it. */
  function Write(w: Words, x: int, v: int): Words {
    (w - {x - 3, x - 2, x - 1, x + 1, x + 2, x + 3})[x := v]
  }

  lemma WriteKeeps(w: Words, x: int, v: int, y: int)
    ensures x in Write(w, x, v) && Write(w, x, v)[x] == v
    ensures y in w && (y + 4 <= x || x + 4 <= y) ==> y in Write(w, x, v) && Write(w, x, v)[y] == w[y]
  {
  }

  /** The words from `lo` up to `hi` are the same. */
  ghost predicate SameWords(w: Words, w': Words, lo: int, hi: int) {
    forall y | lo <= y && y + 4 <= hi && y in w :: y in w' && w'[y] == w[y]
  }

  function Tag(size: int, free: bool): int { 2 * size + if free then 0 else 1 }

  function SizeOf(tag: int): int { tag / 2 }

  predicate Occupied(tag: int) { tag % 2 == 1 }

  lemma TagFields(size: int, free: bool)
    ensures SizeOf(Tag(size, free)) == size && (Occupied(Tag(size, free)) <==> !free)
  {
  }

  predicate Holds(w: Words, x: int, v: int) { x in w && w[x] == v }

  /** Both size words of a chunk say its size, and whether it is free. */
  ghost predicate Tagged(w: Words, chunks: map<int, Chunk>, c: int)
    requires c in chunks
  {
    var tag := Tag(chunks[c].size, chunks[c].free);
    Holds(w, c, tag) && Holds(w, c + 4 + chunks[c].size, tag)
  }

  function At(list: seq<int>, k: int): int { if 0 <= k < |list| then list[k] else 0 }

  /** The links of the `k`th chunk of a list. */
  ghost predicate Linked(w: Words, list: seq<int>, k: int)
    requires 0 <= k < |list|
  {
    Holds(w, list[k] + 4, At(list, k - 1)) && Holds(w, list[k] + 8, At(list, k + 1))
  }

  ghost predicate ListLinked(w: Words, list: seq<int>) {
    forall k {:trigger Linked(w, list, k)} | 0 <= k < |list| :: Linked(w, list, k)
  }

  /** The words and the heads of the lists are those of the heap. */
  ghost predicate Represents(w: Words, heads: seq<int>, h: Heap) {
    && |heads| == |h.lists| == BUCKETS
    && (forall c {:trigger Tagged(w, h.chunks, c)} | c in h.chunks :: Tagged(w, h.chunks, c))
    && (forall i {:trigger ListLinked(w, h.lists[i])} | 0 <= i < BUCKETS :: ListLinked(w, h.lists[i]))
    && (forall i | 0 <= i < BUCKETS :: heads[i] == At(h.lists[i], 0))
  }

  // ----- Frames -----------------------------------------------------------------------

  lemma WriteOutside(w: Words, x: int, v: int, lo: int, hi: int)
    requires x + 4 <= lo || hi <= x
    ensures SameWords(w, Write(w, x, v), lo, hi)
  {
  }

  lemma SameTwice(w: Words, w': Words, w'': Words, lo: int, hi: int)
    requires SameWords(w, w', lo, hi) && SameWords(w', w'', lo, hi)
    ensures SameWords(w, w'', lo, hi)
  {
  }

  /** Every word of the chunk is as it was. */
  ghost predicate Untouched(w: Words, w': Words, chunks: map<int, Chunk>, d: int)
    requires d in chunks
  {
    SameWords(w, w', d, End(chunks, d))
  }

  lemma UntouchedTagged(w: Words, w': Words, chunks: map<int, Chunk>, d: int)
    requires d in chunks && chunks[d].size >= 8 && Untouched(w, w', chunks, d) && Tagged(w, chunks, d)
    ensures Tagged(w', chunks, d)
  {
    hide Tag;
  }

  lemma UntouchedLinked(w: Words, w': Words, chunks: map<int, Chunk>, list: seq<int>, k: int)
    requires 0 <= k < |list| && list[k] in chunks && chunks[list[k]].size >= 8
    requires Untouched(w, w', chunks, list[k]) && Linked(w, list, k)
    ensures Linked(w', list, k)
  {
  }

  /** What the client holds, with the bytes of each piece, is in use. */
  ghost predicate Among(live: map<int, int>, h: Heap) {
    forall c | c in live :: c in h.chunks && h.chunks[c] == Chunk(live[c], false)
  }

  /** No word that the client holds has changed. */
  ghost predicate SameFor(live: map<int, int>, w: Words, w': Words) {
    forall c | c in live :: SameWords(w, w', c + 4, c + 4 + live[c])
  }

  lemma SameForTwice(live: map<int, int>, w: Words, w': Words, w'': Words)
    requires SameFor(live, w, w') && SameFor(live, w', w'')
    ensures SameFor(live, w, w'')
  {
    forall c | c in live ensures SameWords(w, w'', c + 4, c + 4 + live[c]) {
      SameTwice(w, w', w'', c + 4, c + 4 + live[c]);
    }
  }

  lemma NotZero(h: Heap, i: int, k: int)
    requires Ok(h) && 0 <= i < BUCKETS && 0 <= k < |h.lists[i]|
    ensures h.lists[i][k] >= HEAP_BEGIN && h.lists[i][k] in h.chunks && h.lists[i][k] in h.lists[i]
    ensures h.chunks[h.lists[i][k]].free && h.chunks[h.lists[i][k]].size >= 8 && Listed(h, h.lists[i][k])
  {
    assert ListOk(h.chunks, h.lists[i], i) && h.lists[i][k] in h.lists[i];
  }

  /** A chunk of another list, or elsewhere in this one, is another chunk. */
  lemma DifferentPlaces(h: Heap, i: int, k: int, j: int, m: int)
    requires Ok(h) && 0 <= i < BUCKETS && 0 <= j < BUCKETS && 0 <= k < |h.lists[i]| && 0 <= m < |h.lists[j]|
    ensures i != j || k != m ==> h.lists[i][k] != h.lists[j][m]
  {
    hide BucketOfFreeChunk;
    assert ListOk(h.chunks, h.lists[i], i) && ListOk(h.chunks, h.lists[j], j);
    NotZero(h, i, k);
    NotZero(h, j, m);
  }

  // ----- Taking a chunk out of its list ------------------------------------------------

  /** The next link of the chunk before, if any, and the previous link of the chunk after,
      if any, are made to skip the `k`th chunk. */
  function Woven(w: Words, list: seq<int>, k: int): Words
    requires 0 <= k < |list|
  {
    var p, n := At(list, k - 1), At(list, k + 1);
    var w1 := if p == 0 then w else Write(w, p + 8, n);
    if n == 0 then w1 else Write(w1, n + 4, p)
  }

  /** Removing touches no chunk but the two neighbours in the list. */
  lemma WovenUntouched(w: Words, h: Heap, i: int, k: int, d: int)
    requires Ok(h) && 0 <= i < BUCKETS && 0 <= k < |h.lists[i]| && d in h.chunks
    requires (k > 0 ==> d != h.lists[i][k - 1]) && (k + 1 < |h.lists[i]| ==> d != h.lists[i][k + 1])
    ensures Untouched(w, Woven(w, h.lists[i], k), h.chunks, d)
  {
    hide Write, ListOk, SameWords;
    var list := h.lists[i];
    var p, n := At(list, k - 1), At(list, k + 1);
    var w1 := if p == 0 then w else Write(w, p + 8, n);
    SameSelf(w, d, End(h.chunks, d));
    if k > 0 { NotZero(h, i, k - 1); WriteOutside(w, p + 8, n, d, End(h.chunks, d)); }
    if k + 1 < |list| {
      NotZero(h, i, k + 1);
      WriteOutside(w1, n + 4, p, d, End(h.chunks, d));
      SameTwice(w, w1, Write(w1, n + 4, p), d, End(h.chunks, d));
    }
  }

  lemma SameSelf(w: Words, lo: int, hi: int)
    ensures SameWords(w, w, lo, hi)
  {
  }

  /** The links and size words of the two neighbours in the list. */
  lemma WovenNeighbours(w: Words, h: Heap, i: int, k: int)
    requires Ok(h) && 0 <= i < BUCKETS && 0 <= k < |h.lists[i]|
    requires ListLinked(w, h.lists[i]) && forall c | c in h.chunks :: Tagged(w, h.chunks, c)
    ensures var list := h.lists[i];
            var w' := Woven(w, list, k);
            && (k > 0 ==>
                  && list[k - 1] in h.chunks && Tagged(w', h.chunks, list[k - 1])
                  && Holds(w', list[k - 1] + 4, At(list, k - 2)) && Holds(w', list[k - 1] + 8, At(list, k + 1)))
            && (k + 1 < |list| ==>
                  && list[k + 1] in h.chunks && Tagged(w', h.chunks, list[k + 1])
                  && Holds(w', list[k + 1] + 4, At(list, k - 1)) && Holds(w', list[k + 1] + 8, At(list, k + 2)))
  {
    hide Write, ListOk, SameWords, Tag;
    var list := h.lists[i];
    var p, n := At(list, k - 1), At(list, k + 1);
    if k > 0 { NotZero(h, i, k - 1); assert Linked(w, list, k - 1); }
    if k + 1 < |list| { NotZero(h, i, k + 1); assert Linked(w, list, k + 1); }
    if k > 0 && k + 1 < |list| { DifferentPlaces(h, i, k - 1, i, k + 1); }
    if k > 0 {
      var s := h.chunks[p].size;
      WovenKeeps(w, list, k, p);
      WovenKeeps(w, list, k, p + 4 + s);
      WovenKeeps(w, list, k, p + 4);
      WovenNext(w, list, k);
    }
    if k + 1 < |list| {
      var s := h.chunks[n].size;
      WovenKeeps(w, list, k, n);
      WovenKeeps(w, list, k, n + 4 + s);
      WovenKeeps(w, list, k, n + 8);
      WovenPrev(w, list, k);
    }
  }

  lemma WovenNext(w: Words, list: seq<int>, k: int)
    requires 0 < k < |list| && list[k - 1] > 0
    requires k + 1 < |list| ==> list[k - 1] + 12 <= list[k + 1] + 4 || list[k + 1] + 8 <= list[k - 1] + 8
    ensures Holds(Woven(w, list, k), list[k - 1] + 8, At(list, k + 1))
  {
    hide Write;
    var p, n := At(list, k - 1), At(list, k + 1);
    WriteKeeps(w, p + 8, n, p + 8);
    WriteKeeps(Write(w, p + 8, n), n + 4, p, p + 8);
  }

  lemma WovenPrev(w: Words, list: seq<int>, k: int)
    requires 0 <= k && k + 1 < |list| && list[k + 1] > 0
    ensures Holds(Woven(w, list, k), list[k + 1] + 4, At(list, k - 1))
  {
    hide Write;
    var p, n := At(list, k - 1), At(list, k + 1);
    WriteKeeps(if p == 0 then w else Write(w, p + 8, n), n + 4, p, n + 4);
  }

  /** A word that is not one of the two links written is as it was. */
  lemma WovenKeeps(w: Words, list: seq<int>, k: int, y: int)
    requires 0 <= k < |list| && y in w
    requires k > 0 ==> y + 4 <= list[k - 1] + 8 || list[k - 1] + 12 <= y
    requires k + 1 < |list| ==> y + 4 <= list[k + 1] + 4 || list[k + 1] + 8 <= y
    ensures Holds(Woven(w, list, k), y, w[y])
  {
    hide Write;
    var p, n := At(list, k - 1), At(list, k + 1);
    WriteKeeps(w, p + 8, n, y);
    WriteKeeps(if p == 0 then w else Write(w, p + 8, n), n + 4, p, y);
  }

  ghost function HeadsWithout(heads: seq<int>, list: seq<int>, i: int, k: int): seq<int>
    requires 0 <= i < |heads| && 0 <= k < |list|
  {
    if k == 0 then heads[i := At(list, 1)] else heads
  }

  /** The memory is then that of the heap with the chunk out of its list. */
  lemma WovenRepresents(w: Words, heads: seq<int>, h: Heap, i: int, k: int)
    requires Ok(h) && Represents(w, heads, h) && 0 <= i < BUCKETS && 0 <= k < |h.lists[i]|
    ensures var list := h.lists[i];
            Represents(Woven(w, list, k), HeadsWithout(heads, list, i, k), h.(lists := h.lists[i := RemoveAt(list, k)]))
  {
    hide Woven, ListsOk, Tagged, ListLinked, Placed;
    var list := h.lists[i];
    var w', h' := Woven(w, list, k), h.(lists := h.lists[i := RemoveAt(list, k)]);
    forall c | c in h'.chunks ensures Tagged(w', h'.chunks, c) { WovenTagged(w, heads, h, i, k, c); }
    forall j | 0 <= j < BUCKETS ensures ListLinked(w', h'.lists[j]) {
      if j == i { WovenList(w, heads, h, i, k); } else { WovenOther(w, heads, h, i, k, j); }
    }
  }

  lemma WovenTagged(w: Words, heads: seq<int>, h: Heap, i: int, k: int, c: int)
    requires Ok(h) && Represents(w, heads, h) && 0 <= i < BUCKETS && 0 <= k < |h.lists[i]| && c in h.chunks
    ensures Tagged(Woven(w, h.lists[i], k), h.chunks, c)
  {
    hide Woven, ListsOk, Tagged, Untouched;
    var list := h.lists[i];
    assert Tagged(w, h.chunks, c);
    if (k > 0 && c == list[k - 1]) || (k + 1 < |list| && c == list[k + 1]) {
      WovenNeighbours(w, h, i, k);
    } else {
      WovenUntouched(w, h, i, k, c);
      UntouchedTagged(w, Woven(w, list, k), h.chunks, c);
    }
  }

  lemma WovenOther(w: Words, heads: seq<int>, h: Heap, i: int, k: int, j: int)
    requires Ok(h) && Represents(w, heads, h) && 0 <= i < BUCKETS && 0 <= k < |h.lists[i]| && 0 <= j < BUCKETS && j != i
    ensures ListLinked(Woven(w, h.lists[i], k), h.lists[j])
  {
    hide Woven, ListsOk, Linked, Untouched, Placed, Tagged;
    var w', list := Woven(w, h.lists[i], k), h.lists[i];
    assert ListLinked(w, h.lists[j]);
    forall m | 0 <= m < |h.lists[j]| ensures Linked(w', h.lists[j], m) {
      assert Linked(w, h.lists[j], m);
      NotZero(h, j, m);
      if k > 0 { DifferentPlaces(h, i, k - 1, j, m); }
      if k + 1 < |list| { DifferentPlaces(h, i, k + 1, j, m); }
      WovenUntouched(w, h, i, k, h.lists[j][m]);
      UntouchedLinked(w, w', h.chunks, h.lists[j], m);
    }
  }

  lemma WovenList(w: Words, heads: seq<int>, h: Heap, i: int, k: int)
    requires Ok(h) && Represents(w, heads, h) && 0 <= i < BUCKETS && 0 <= k < |h.lists[i]|
    ensures ListLinked(Woven(w, h.lists[i], k), RemoveAt(h.lists[i], k))
  {
    hide Woven, ListsOk, Untouched, Placed, Tagged, RemoveAt;
    var list := h.lists[i];
    var w', r := Woven(w, list, k), RemoveAt(list, k);
    assert ListLinked(w, list);
    WovenNeighbours(w, h, i, k);
    forall m | 0 <= m < |r| ensures Linked(w', r, m) {
      var mm := if m < k then m else m + 1;
      assert Linked(w, list, mm);
      if mm != k - 1 && mm != k + 1 {
        NotZero(h, i, mm);
        if k > 0 { DifferentPlaces(h, i, k - 1, i, mm); }
        if k + 1 < |list| { DifferentPlaces(h, i, k + 1, i, mm); }
        WovenUntouched(w, h, i, k, list[mm]);
        UntouchedLinked(w, w', h.chunks, list, mm);
      }
    }
  }

  lemma WovenSame(w: Words, heads: seq<int>, h: Heap, i: int, k: int, live: map<int, int>)
    requires Ok(h) && 0 <= i < BUCKETS && 0 <= k < |h.lists[i]| && Among(live, h)
    ensures SameFor(live, w, Woven(w, h.lists[i], k))
  {
    hide Woven, ListOk, SameWords;
    var w', list := Woven(w, h.lists[i], k), h.lists[i];
    forall c | c in live ensures SameWords(w, w', c + 4, c + 4 + live[c]) {
      if k > 0 { NotZero(h, i, k - 1); }
      if k + 1 < |list| { NotZero(h, i, k + 1); }
      WovenUntouched(w, h, i, k, c);
      InnerWords(w, w', c, live[c]);
    }
  }

  lemma InnerWords(w: Words, w': Words, c: int, size: int)
    requires SameWords(w, w', c, c + size + INFO)
    ensures SameWords(w, w', c + 4, c + 4 + size)
  {
  }

  // ----- Making chunks ----------------------------------------------------------------

  /** The two size words of a chunk are written. */
  function TagsWritten(w: Words, c: int, size: int, free: bool): Words {
    Write(Write(w, c, Tag(size, free)), c + 4 + size, Tag(size, free))
  }

  lemma TagsUntouched(w: Words, h: Heap, c: int, size: int, free: bool, d: int)
    requires d in h.chunks && d != c && size >= 8 && Clear(h.chunks, c, size)
    ensures Untouched(w, TagsWritten(w, c, size, free), h.chunks, d)
  {
    hide Write, Tag, SameWords;
    var t := Tag(size, free);
    var lo, hi := d, End(h.chunks, d);
    WriteOutside(w, c, t, lo, hi);
    WriteOutside(Write(w, c, t), c + 4 + size, t, lo, hi);
    SameTwice(w, Write(w, c, t), TagsWritten(w, c, size, free), lo, hi);
  }

  lemma TagsHold(w: Words, c: int, size: int, free: bool)
    requires size >= 8
    ensures var w' := TagsWritten(w, c, size, free);
            Holds(w', c, Tag(size, free)) && Holds(w', c + 4 + size, Tag(size, free))
  {
    hide Write, Tag;
    var t := Tag(size, free);
    WriteKeeps(w, c, t, c);
    WriteKeeps(Write(w, c, t), c + 4 + size, t, c);
  }

  /** A chunk in use is made. */
  lemma UsedRepresents(w: Words, heads: seq<int>, h: Heap, c: int, size: int)
    requires Ok(h) && Represents(w, heads, h) && !Listed(h, c) && size >= 8 && Clear(h.chunks, c, size)
    ensures Represents(TagsWritten(w, c, size, false), heads, MadeUsed(h, c, size))
  {
    hide TagsWritten, ListsOk, Linked, Untouched, Tag, Clear;
    var w', h' := TagsWritten(w, c, size, false), MadeUsed(h, c, size);
    TagsHold(w, c, size, false);
    forall d | d in h'.chunks ensures Tagged(w', h'.chunks, d) {
      if d != c {
        assert Tagged(w, h.chunks, d);
        TagsUntouched(w, h, c, size, false, d);
        UntouchedTagged(w, w', h.chunks, d);
        assert Tagged(w', h.chunks, d);
      }
    }
    forall j | 0 <= j < BUCKETS ensures ListLinked(w', h'.lists[j]) {
      assert ListLinked(w, h.lists[j]);
      forall m | 0 <= m < |h.lists[j]| ensures Linked(w', h.lists[j], m) {
        assert Linked(w, h.lists[j], m);
        NotZero(h, j, m);
        TagsUntouched(w, h, c, size, false, h.lists[j][m]);
        UntouchedLinked(w, w', h.chunks, h.lists[j], m);
      }
    }
  }

  lemma TagsSame(w: Words, h: Heap, c: int, size: int, free: bool, live: map<int, int>)
    requires Among(live, h) && size >= 8 && Clear(h.chunks, c, size) && c !in live
    ensures SameFor(live, w, TagsWritten(w, c, size, free))
  {
    hide TagsWritten, SameWords, Clear;
    var w' := TagsWritten(w, c, size, free);
    forall d | d in live ensures SameWords(w, w', d + 4, d + 4 + live[d]) {
      TagsUntouched(w, h, c, size, free, d);
      InnerWords(w, w', d, live[d]);
    }
  }

  /** The words of a new free chunk, and the previous link of the chunk `next` behind it in
      its list, if any, are written. */
  function FreeWritten(w: Words, c: int, size: int, next: int): Words {
    var w1 := Write(w, c, Tag(size, true));
    var w2 := if next != 0 then Write(w1, next + 4, c) else w1;
    var w3 := Write(Write(w2, c + 4, 0), c + 8, next);
    Write(w3, c + 4 + size, Tag(size, true))
  }

  lemma FreeUntouched(w: Words, h: Heap, c: int, size: int, next: int, d: int)
    requires Placed(h.chunks, h.end) && d in h.chunks && d != c && d != next && size >= 8 && Clear(h.chunks, c, size)
    requires next != 0 ==> next in h.chunks
    ensures Untouched(w, FreeWritten(w, c, size, next), h.chunks, d)
  {
    hide Write, Tag, SameWords;
    var lo, hi := d, End(h.chunks, d);
    var w1 := Write(w, c, Tag(size, true));
    var w2 := if next != 0 then Write(w1, next + 4, c) else w1;
    var w3 := Write(w2, c + 4, 0);
    var w4 := Write(w3, c + 8, next);
    WriteOutside(w, c, Tag(size, true), lo, hi);
    SameSelf(w1, lo, hi);
    WriteOutside(w1, next + 4, c, lo, hi);
    SameTwice(w, w1, w2, lo, hi);
    WriteOutside(w2, c + 4, 0, lo, hi);
    SameTwice(w, w2, w3, lo, hi);
    WriteOutside(w3, c + 8, next, lo, hi);
    SameTwice(w, w3, w4, lo, hi);
    WriteOutside(w4, c + 4 + size, Tag(size, true), lo, hi);
    SameTwice(w, w4, FreeWritten(w, c, size, next), lo, hi);
  }

  /** The words of the new chunk. */
  lemma FreeHolds(w: Words, c: int, size: int, next: int)
    requires size >= 8 && (next != 0 ==> next + 8 <= c || c + size + INFO <= next)
    ensures var w' := FreeWritten(w, c, size, next);
            && Holds(w', c, Tag(size, true)) && Holds(w', c + 4 + size, Tag(size, true))
            && Holds(w', c + 4, 0) && Holds(w', c + 8, next)
  {
    hide Write, Tag;
    var t := Tag(size, true);
    var w1 := Write(w, c, t);
    var w2 := if next != 0 then Write(w1, next + 4, c) else w1;
    var w3 := Write(w2, c + 4, 0);
    var w4 := Write(w3, c + 8, next);
    WriteKeeps(w, c, t, c);
    WriteKeeps(w1, next + 4, c, c);
    WriteKeeps(w2, c + 4, 0, c);
    WriteKeeps(w3, c + 8, next, c);
    WriteKeeps(w3, c + 8, next, c + 4);
    WriteKeeps(w4, c + 4 + size, t, c);
    WriteKeeps(w4, c + 4 + size, t, c + 4);
    WriteKeeps(w4, c + 4 + size, t, c + 8);
  }

  lemma FreeKeeps(w: Words, c: int, size: int, next: int, y: int)
    requires size >= 8 && y + 4 <= c && (next != 0 ==> y + 4 <= next + 4 || next + 8 <= y) && y in w
    ensures Holds(FreeWritten(w, c, size, next), y, w[y])
  {
    hide Write, Tag;
    var t := Tag(size, true);
    var w1 := Write(w, c, t);
    var w2 := if next != 0 then Write(w1, next + 4, c) else w1;
    var w3 := Write(w2, c + 4, 0);
    var w4 := Write(w3, c + 8, next);
    WriteKeeps(w, c, t, y);
    WriteKeeps(w1, next + 4, c, y);
    WriteKeeps(w2, c + 4, 0, y);
    WriteKeeps(w3, c + 8, next, y);
    WriteKeeps(w4, c + 4 + size, t, y);
  }

  /** The chunk behind it in its list now has it as the previous one. */
  lemma FreeNext(w: Words, c: int, size: int, next: int, y: int)
    requires size >= 8 && next != 0 && (next + 8 <= c || c + size + INFO <= next)
    requires y + 4 <= c || c + size + INFO <= y
    ensures Holds(FreeWritten(w, c, size, next), next + 4, c)
    ensures y in w && (y + 4 <= next + 4 || next + 8 <= y) ==> Holds(FreeWritten(w, c, size, next), y, w[y])
  {
    hide Write, Tag;
    var t := Tag(size, true);
    var w1 := Write(w, c, t);
    var w2 := Write(w1, next + 4, c);
    var w3 := Write(w2, c + 4, 0);
    var w4 := Write(w3, c + 8, next);
    WriteKeeps(w, c, t, y);
    WriteKeeps(w1, next + 4, c, y);
    WriteKeeps(w2, c + 4, 0, y);
    WriteKeeps(w3, c + 8, next, y);
    WriteKeeps(w4, c + 4 + size, t, y);
    WriteKeeps(w2, c + 4, 0, next + 4);
    WriteKeeps(w3, c + 8, next, next + 4);
    WriteKeeps(w4, c + 4 + size, t, next + 4);
  }

  /** A free chunk is made, at the head of the list of its bucket. */
  lemma FreeRepresents(w: Words, heads: seq<int>, h: Heap, c: int, size: int)
    requires Ok(h) && Represents(w, heads, h) && !Listed(h, c) && c >= HEAP_BEGIN && size >= 8
    requires Clear(h.chunks, c, size)
    ensures var i := BucketOfFreeChunk(size);
            Represents(FreeWritten(w, c, size, heads[i]), heads[i := c], MadeFree(h, c, size))
  {
    hide FreeWritten, ListOk, Tagged, Linked, Placed, Clear, BucketOfFreeChunk;
    var i := BucketOfFreeChunk(size);
    var w', h' := FreeWritten(w, c, size, heads[i]), MadeFree(h, c, size);
    forall d | d in h'.chunks ensures Tagged(w', h'.chunks, d) { FreeTagged(w, heads, h, c, size, d); }
    forall j | 0 <= j < BUCKETS ensures ListLinked(w', h'.lists[j]) {
      if j == i { FreeList(w, heads, h, c, size); } else { FreeOther(w, heads, h, c, size, j); }
    }
  }

  lemma HeadIn(heads: seq<int>, h: Heap, i: int)
    requires Ok(h) && 0 <= i < BUCKETS && |heads| == BUCKETS && heads[i] == At(h.lists[i], 0)
    ensures heads[i] != 0 ==>
              h.lists[i] != [] && heads[i] == h.lists[i][0] && heads[i] in h.chunks && Listed(h, heads[i])
    ensures heads[i] == 0 ==> h.lists[i] == []
  {
    if h.lists[i] != [] { NotZero(h, i, 0); }
  }

  lemma FreeTagged(w: Words, heads: seq<int>, h: Heap, c: int, size: int, d: int)
    requires Ok(h) && Represents(w, heads, h) && !Listed(h, c) && c >= HEAP_BEGIN && size >= 8
    requires Clear(h.chunks, c, size)
    requires d in h.chunks || d == c
    ensures var i := BucketOfFreeChunk(size);
            Tagged(FreeWritten(w, c, size, heads[i]), h.chunks[c := Chunk(size, true)], d)
  {
    hide FreeWritten, ListOk, Untouched, BucketOfFreeChunk, Tag;
    var i := BucketOfFreeChunk(size);
    var next := heads[i];
    HeadIn(heads, h, i);
    if d == c {
      FreeHolds(w, c, size, next);
    } else {
      assert Tagged(w, h.chunks, d);
      if d == next {
        FreeNext(w, c, size, next, d);
        FreeNext(w, c, size, next, d + 4 + h.chunks[d].size);
      } else {
        FreeUntouched(w, h, c, size, next, d);
        UntouchedTagged(w, FreeWritten(w, c, size, next), h.chunks, d);
      }
    }
  }

  lemma FreeOther(w: Words, heads: seq<int>, h: Heap, c: int, size: int, j: int)
    requires Ok(h) && Represents(w, heads, h) && !Listed(h, c) && c >= HEAP_BEGIN && size >= 8
    requires Clear(h.chunks, c, size)
    requires 0 <= j < BUCKETS && j != BucketOfFreeChunk(size)
    ensures ListLinked(FreeWritten(w, c, size, heads[BucketOfFreeChunk(size)]), h.lists[j])
  {
    hide FreeWritten, ListOk, Untouched, BucketOfFreeChunk, Tagged, Linked, Placed, Clear;
    var i := BucketOfFreeChunk(size);
    var w' := FreeWritten(w, c, size, heads[i]);
    HeadIn(heads, h, i);
    assert ListLinked(w, h.lists[j]);
    forall m | 0 <= m < |h.lists[j]| ensures Linked(w', h.lists[j], m) {
      assert Linked(w, h.lists[j], m);
      NotZero(h, j, m);
      if h.lists[i] != [] { DifferentPlaces(h, i, 0, j, m); }
      FreeUntouched(w, h, c, size, heads[i], h.lists[j][m]);
      UntouchedLinked(w, w', h.chunks, h.lists[j], m);
    }
  }

  lemma FreeList(w: Words, heads: seq<int>, h: Heap, c: int, size: int)
    requires Ok(h) && Represents(w, heads, h) && !Listed(h, c) && c >= HEAP_BEGIN && size >= 8
    requires Clear(h.chunks, c, size)
    ensures var i := BucketOfFreeChunk(size);
            ListLinked(FreeWritten(w, c, size, heads[i]), [c] + h.lists[i])
  {
    hide FreeWritten, ListOk, Untouched, BucketOfFreeChunk, Tagged;
    var i := BucketOfFreeChunk(size);
    var next, w', list := heads[i], FreeWritten(w, c, size, heads[i]), [c] + h.lists[i];
    HeadIn(heads, h, i);
    assert ListLinked(w, h.lists[i]);
    FreeHolds(w, c, size, next);
    forall m | 0 <= m < |list| ensures Linked(w', list, m) {
      if m > 0 {
        assert Linked(w, h.lists[i], m - 1);
        NotZero(h, i, m - 1);
        if m == 1 {
          FreeNext(w, c, size, next, next + 8);
        } else {
          DifferentPlaces(h, i, 0, i, m - 1);
          FreeUntouched(w, h, c, size, next, list[m]);
          UntouchedLinked(w, w', h.chunks, h.lists[i], m - 1);
        }
      }
    }
  }

  lemma FreeSame(w: Words, heads: seq<int>, h: Heap, c: int, size: int, live: map<int, int>)
    requires Ok(h) && Represents(w, heads, h) && !Listed(h, c) && size >= 8 && Clear(h.chunks, c, size)
    requires Among(live, h) && c !in live
    ensures SameFor(live, w, FreeWritten(w, c, size, heads[BucketOfFreeChunk(size)]))
  {
    hide FreeWritten, ListOk, SameWords, BucketOfFreeChunk, Clear;
    var i := BucketOfFreeChunk(size);
    var w' := FreeWritten(w, c, size, heads[i]);
    HeadIn(heads, h, i);
    forall d | d in live ensures SameWords(w, w', d + 4, d + 4 + live[d]) {
      if h.lists[i] != [] { NotZero(h, i, 0); }
      FreeUntouched(w, h, c, size, heads[i], d);
      InnerWords(w, w', d, live[d]);
    }
  }

  lemma DroppedRepresents(w: Words, heads: seq<int>, h: Heap, c: int)
    requires Represents(w, heads, h)
    ensures Represents(w, heads, Dropped(h, c))
  {
    var h' := Dropped(h, c);
    forall d | d in h'.chunks ensures Tagged(w, h'.chunks, d) { assert Tagged(w, h.chunks, d); }
    forall j | 0 <= j < BUCKETS ensures ListLinked(w, h'.lists[j]) { assert ListLinked(w, h.lists[j]); }
  }

  /** A word that the client writes into memory it holds is no word of the heap. */
  lemma StoreRepresents(w: Words, heads: seq<int>, h: Heap, c: int, x: int, v: int)
    requires Ok(h) && Represents(w, heads, h) && c in h.chunks && !h.chunks[c].free
    requires c + 4 <= x && x + 4 <= c + 4 + h.chunks[c].size
    ensures Represents(Write(w, x, v), heads, h)
  {
    hide Write, ListOk, Tag, Linked;
    var w' := Write(w, x, v);
    forall d | d in h.chunks ensures Tagged(w', h.chunks, d) {
      assert Tagged(w, h.chunks, d);
      if d == c {
        WriteKeeps(w, x, v, c);
        WriteKeeps(w, x, v, c + 4 + h.chunks[c].size);
      } else {
        WriteOutside(w, x, v, d, End(h.chunks, d));
        UntouchedTagged(w, w', h.chunks, d);
      }
    }
    forall j | 0 <= j < BUCKETS ensures ListLinked(w', h.lists[j]) {
      assert ListLinked(w, h.lists[j]);
      forall m | 0 <= m < |h.lists[j]| ensures Linked(w', h.lists[j], m) {
        assert Linked(w, h.lists[j], m);
        NotZero(h, j, m);
        WriteOutside(w, x, v, h.lists[j][m], End(h.chunks, h.lists[j][m]));
        UntouchedLinked(w, w', h.chunks, h.lists[j], m);
      }
    }
  }
}
