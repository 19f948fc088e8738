/** What cutting a free block does to the memory of the heap. */
module HeapCut {
  import opened HeapLayout
  import opened Lists
  import opened HeapMemory

  ghost predicate Cuttable(l: Layout, o: int, bytes: nat) {
    && Valid(l) && l.size < LIMIT && o in l.free && o in l.ends
    && Aligned(bytes) && LINKS <= bytes && bytes + META + LINKS <= Payload(l, o)
  }

  /** The layout of a cut before its left part is listed again: the right part has the
      place of the whole block. */
  function CutLayout(l: Layout, o: int, bytes: nat): Layout
    requires Cuttable(l, o, bytes)
  {
    var cut := o + bytes + META;
    Layout(CutEnds(l.ends, o, cut), Renamed(l.free, o, cut), l.size)
  }

  lemma CutLayoutValid(l: Layout, o: int, bytes: nat)
    requires Cuttable(l, o, bytes)
    ensures var l1, cut := CutLayout(l, o, bytes), o + bytes + META;
            && Valid(l1) && cut !in l.ends && o in l1.ends && o !in l1.free && cut in l1.free
            && (forall p | p in l.free && p != o :: p in l1.free)
  {
    hide Aligned, Tiled, Distinct, Renamed;
    var cut := o + bytes + META;
    CutAt(l, o, bytes);
    CutTiled(l.ends, l.size, o, cut);
    RenamedElements(l.free, o, cut);
  }

  lemma CutAt(l: Layout, o: int, bytes: nat)
    requires Cuttable(l, o, bytes)
    ensures Aligned(o + bytes + META)
  {
    assert Aligned(o) && Aligned(META);
    AlignedSum(o, bytes);
    AlignedSum(o + bytes, META);
  }

  lemma CutLayoutLive(l: Layout, o: int, bytes: nat)
    requires Cuttable(l, o, bytes)
    ensures Live(CutLayout(l, o, bytes)) - {o} == Live(l)
  {
    hide Valid, CutLayout, Aligned;
    var l1 := CutLayout(l, o, bytes);
    CutLayoutValid(l, o, bytes);
    var a, b := Live(l1) - {o}, Live(l);
    forall p ensures (p in a <==> p in b) && (p in a ==> a[p] == b[p]) {
      if p != o && p != o + bytes + META { CutOthers(l, o, bytes, p); }
    }
  }

  lemma CutLayoutListed(l: Layout, o: int, bytes: nat)
    requires Cuttable(l, o, bytes)
    requires var l1 := CutLayout(l, o, bytes); Valid(l1) && o in l1.ends && o !in l1.free
    ensures Split(l, o, bytes) == Listed(CutLayout(l, o, bytes), o)
  {
    hide Aligned, Tiled, Distinct, Renamed;
  }

  lemma CutLayoutEffect(l: Layout, o: int, bytes: nat)
    requires Cuttable(l, o, bytes)
    ensures var l1, cut := CutLayout(l, o, bytes), o + bytes + META;
            && Valid(l1) && cut !in l.ends && o in l1.ends && o !in l1.free && cut in l1.free
            && (forall p | p in l.free && p != o :: p in l1.free)
            && Split(l, o, bytes) == Listed(l1, o)
            && Live(l1) - {o} == Live(l)
  {
    hide Valid, Live, Split, Tiled, Aligned, Distinct;
    CutLayoutValid(l, o, bytes);
    CutLayoutLive(l, o, bytes);
    CutLayoutListed(l, o, bytes);
  }

  /** All four tags of the two parts are written. */
  function CutTags(mem: Mem, e: int, o: int, bytes: nat): Mem {
    var cut := o + bytes + META;
    mem[o := Tag(true, bytes)][BackTag(cut) := Tag(true, bytes)]
       [cut := Tag(true, e - cut - META)][BackTag(e) := Tag(true, e - cut - META)]
  }

  lemma CutAligned(l: Layout, o: int, bytes: nat)
    requires Cuttable(l, o, bytes)
    ensures var cut, e := o + bytes + META, l.ends[o];
            && Aligned(o) && Aligned(cut) && Aligned(BackTag(cut)) && Aligned(e) && Aligned(BackTag(e))
            && 0 <= o && cut + META + LINKS <= e <= l.size
  {
    assert Sized(l.ends, l.size) && Aligned(4) && Aligned(META);
    hide Aligned;
    AlignedSum(o, bytes);
    AlignedSum(o + bytes, META);
    AlignedSum(o + bytes + META, 4);
    AlignedSum(l.ends[o], 4);
  }

  /** Nothing changed but words of the block at `o`. */
  ghost predicate OnlyBlockChanged(m0: Mem, m1: Mem, l: Layout, o: int) {
    && m1.Keys == m0.Keys
    && (Linked(m0, l.ends, l.free) ==> Linked(m1, l.ends, l.free))
    && Kept(m0, m1, Live(l))
    && forall p | p in l.ends && p != o && TaggedAt(m0, l, p) :: TaggedAt(m1, l, p)
  }

  lemma FreeWrite(mem: Mem, l: Layout, o: int, a: int, v: int)
    requires Valid(l) && o in l.free && o in l.ends && a in mem && o <= a < l.ends[o]
    requires a != NextLink(l.ends[o]) && a != PrevLink(l.ends[o])
    ensures OnlyBlockChanged(mem, mem[a := v], l, o)
  {
    hide Valid, Linked, Kept, Live, SizeField, FreeField;
    InsideWrite(mem, l, o, a, v);
    LiveOf(l, o);
    forall p | p in l.ends && p != o && TaggedAt(mem, l, p) ensures TaggedAt(mem[a := v], l, p) {
      SizedWords(mem, l, p);
    }
  }

  lemma SizedWords(mem: Mem, l: Layout, p: int)
    requires p in l.ends && TaggedAt(mem, l, p)
    ensures p in mem && BackTag(l.ends[p]) in mem
  {
  }

  lemma OnlyBlockTrans(m0: Mem, m1: Mem, m2: Mem, l: Layout, o: int)
    requires OnlyBlockChanged(m0, m1, l, o) && OnlyBlockChanged(m1, m2, l, o)
    ensures OnlyBlockChanged(m0, m2, l, o)
  {
    hide Linked, Kept, Live, TaggedAt;
    KeptTrans(m0, m1, m2, Live(l));
  }

  lemma BlockKeeps(m0: Mem, m1: Mem, l: Layout, o: int)
    requires OnlyBlockChanged(m0, m1, l, o)
    ensures m1.Keys == m0.Keys && (Linked(m0, l.ends, l.free) ==> Linked(m1, l.ends, l.free)) && Kept(m0, m1, Live(l))
    ensures forall p | p in l.ends && p != o && TaggedAt(m0, l, p) :: TaggedAt(m1, l, p)
  {
    hide Linked, Kept, Live, TaggedAt;
  }

  lemma CutTagsBlock(mem: Mem, l: Layout, o: int, bytes: nat)
    requires Cuttable(l, o, bytes) && Mapped(mem, l.size)
    ensures OnlyBlockChanged(mem, CutTags(mem, l.ends[o], o, bytes), l, o)
  {
    hide Tag, Valid, Linked, Kept, Live, OnlyBlockChanged, Aligned;
    var cut, e := o + bytes + META, l.ends[o];
    var t, u := Tag(true, bytes), Tag(true, e - cut - META);
    CutAligned(l, o, bytes);
    var m1 := mem[o := t];
    var m2 := m1[BackTag(cut) := t];
    var m3 := m2[cut := u];
    var m4 := m3[BackTag(e) := u];
    assert o in mem && BackTag(cut) in mem && cut in mem && BackTag(e) in mem;
    FreeWrite(mem, l, o, o, t);
    FreeWrite(m1, l, o, BackTag(cut), t);
    FreeWrite(m2, l, o, cut, u);
    FreeWrite(m3, l, o, BackTag(e), u);
    OnlyBlockTrans(mem, m1, m2, l, o);
    OnlyBlockTrans(mem, m2, m3, l, o);
    OnlyBlockTrans(mem, m3, m4, l, o);
  }

  lemma CutTagsLinked(mem: Mem, l: Layout, o: int, bytes: nat)
    requires Cuttable(l, o, bytes) && Mapped(mem, l.size) && Linked(mem, l.ends, l.free)
    ensures var m := CutTags(mem, l.ends[o], o, bytes);
            && m.Keys == mem.Keys
            && Linked(m, l.ends, l.free)
            && Kept(mem, m, Live(l))
            && forall p | p in l.ends && p != o && TaggedAt(mem, l, p) :: TaggedAt(m, l, p)
  {
    hide Valid, Mapped, Linked, Kept, Live, Tag, Aligned, OnlyBlockChanged, TaggedAt;
    CutTagsBlock(mem, l, o, bytes);
    BlockKeeps(mem, CutTags(mem, l.ends[o], o, bytes), l, o);
  }

  /** The four tags of a cut block describe the two parts, both free. */
  lemma CutParts(mem: Mem, l: Layout, o: int, bytes: nat)
    requires Cuttable(l, o, bytes) && Mapped(mem, l.size) && Tagged(mem, l)
    ensures var m, l1, cut := CutTags(mem, l.ends[o], o, bytes), CutLayout(l, o, bytes), o + bytes + META;
            && o in l1.ends && SizedAt(m, l1.ends, o) && m[o] == m[BackTag(l1.ends[o])] && IsFree(m, o)
            && cut in l1.ends && SizedAt(m, l1.ends, cut) && TaggedAt(m, l1, cut)
  {
    hide Tag, SizeField, FreeField, Aligned, Valid, Mapped, Renamed, Live;
    var cut, e := o + bytes + META, l.ends[o];
    CutLayoutEffect(l, o, bytes);
    LinkWordsMapped(mem, l, o, bytes);
    CutAligned(l, o, bytes);
    TagFields(true, bytes);
    TagFields(true, e - cut - META);
    assert TaggedAt(mem, l, o);
  }

  lemma OtherTagged(mem: Mem, l: Layout, o: int, bytes: nat, p: int)
    requires Cuttable(l, o, bytes) && Mapped(mem, l.size) && Tagged(mem, l)
    requires p in CutLayout(l, o, bytes).ends && p != o && p != o + bytes + META
    ensures var m, l1 := CutTags(mem, l.ends[o], o, bytes), CutLayout(l, o, bytes);
            SizedAt(m, l1.ends, p) && TaggedAt(m, l1, p)
  {
    hide SizeField, FreeField, Aligned, Valid, Mapped, Renamed, CutTags, OnlyBlockChanged, Linked, Kept, Live;
    CutTagsBlock(mem, l, o, bytes);
    BlockKeeps(mem, CutTags(mem, l.ends[o], o, bytes), l, o);
    CutOthers(l, o, bytes, p);
    assert TaggedAt(mem, l, p);
  }

  lemma CutOthers(l: Layout, o: int, bytes: nat, p: int)
    requires Cuttable(l, o, bytes) && p != o && p != o + bytes + META
    ensures p in CutLayout(l, o, bytes).ends <==> p in l.ends
    ensures p in l.ends ==> CutLayout(l, o, bytes).ends[p] == l.ends[p]
    ensures p in CutLayout(l, o, bytes).free <==> p in l.free
  {
    hide Tiled, Renamed, Aligned;
    CutIsNew(l, o, bytes);
    RenamedElements(l.free, o, o + bytes + META);
  }

  lemma CutIsNew(l: Layout, o: int, bytes: nat)
    requires Cuttable(l, o, bytes)
    ensures o + bytes + META !in l.ends && o + bytes + META !in l.free
  {
    CutTiled(l.ends, l.size, o, o + bytes + META);
  }

  lemma CutTagsSized(mem: Mem, l: Layout, o: int, bytes: nat)
    requires Cuttable(l, o, bytes) && Mapped(mem, l.size)
    requires Tagged(mem, l) && Linked(mem, l.ends, l.free)
    ensures var m, l1 := CutTags(mem, l.ends[o], o, bytes), CutLayout(l, o, bytes);
            && AllSized(m, l1.ends) && TaggedExcept(m, l1, o)
            && o in l1.ends && m[o] == m[BackTag(l1.ends[o])] && IsFree(m, o)
  {
    hide Valid, Linked, Mapped, Kept, Live, CutTags, CutLayout, TaggedAt, SizedAt, FreeField;
    var m, l1 := CutTags(mem, l.ends[o], o, bytes), CutLayout(l, o, bytes);
    CutParts(mem, l, o, bytes);
    forall p | p in l1.ends ensures SizedAt(m, l1.ends, p) && (p != o ==> TaggedAt(m, l1, p)) {
      if p != o && p != o + bytes + META { OtherTagged(mem, l, o, bytes, p); }
    }
  }

  lemma LinkWordsMapped(mem: Mem, l: Layout, o: int, bytes: nat)
    requires Cuttable(l, o, bytes) && Mapped(mem, l.size)
    ensures var cut := o + bytes + META; NextLink(cut) in mem && PrevLink(cut) in mem
  {
    CutAligned(l, o, bytes);
    assert Aligned(4);
    hide Aligned;
    var cut := o + bytes + META;
    AlignedSum(BackTag(cut), 4);
    AlignedSum(NextLink(cut), 4);
  }

  /** The neighbours in the list of the whole block are told about the right part. */
  function CutRewired(m: Mem, l: Layout, o: int, bytes: nat): Mem
    requires Cuttable(l, o, bytes)
  {
    var k := Index(l.free, o);
    var l1, p, n := CutLayout(l, o, bytes), PrevOf(l.free, k), NextOf(l.free, k);
    Neighbours(l, k);
    CutLayoutEffect(l, o, bytes);
    Redirected(m, l1.ends, p, n, o + bytes + META, o + bytes + META)
  }

  lemma CutRewiredLinked(m: Mem, l: Layout, o: int, bytes: nat)
    requires Cuttable(l, o, bytes) && Linked(m, l.ends, l.free)
    ensures var l1, cut := CutLayout(l, o, bytes), o + bytes + META;
            && Linked(CutRewired(m, l, o, bytes), l1.ends, l1.free)
            && HeadOf(l1.free) == (if HeadOf(l.free) == o then cut else HeadOf(l.free))
  {
    var k, cut := Index(l.free, o), o + bytes + META;
    var l1, p, n := CutLayout(l, o, bytes), PrevOf(l.free, k), NextOf(l.free, k);
    Neighbours(l, k);
    CutLayoutEffect(l, o, bytes);
    hide Valid, Aligned, Linked, Payload, PrevOf, NextOf;
    assert forall q | q in l.free && q != o :: q in l1.ends && q in l.ends && l1.ends[q] == l.ends[q];
    RenameSpells(m, l, o, l1.ends, cut);
    RedirectedSame(m, l.ends, l1.ends, p, n, cut, cut);
    hide Renamed, Redirected, HeadOf;
  }

  lemma CutRewiredFrame(m: Mem, l: Layout, o: int, bytes: nat)
    requires Cuttable(l, o, bytes)
    requires var l1 := CutLayout(l, o, bytes); AllSized(m, l1.ends)
    ensures OnlyLinksChanged(m, CutRewired(m, l, o, bytes), CutLayout(l, o, bytes))
  {
    var k, cut := Index(l.free, o), o + bytes + META;
    var l1 := CutLayout(l, o, bytes);
    CutLayoutEffect(l, o, bytes);
    IndexUnique(l1.free, k);
    SizedLinksMapped(m, l1);
    hide Valid, Aligned, Payload, OnlyLinksChanged, LinksMapped, AllSized;
    RedirectedFrame(m, l1, cut, cut, cut);
    assert PrevOf(l1.free, k) == PrevOf(l.free, k) && NextOf(l1.free, k) == NextOf(l.free, k);
    hide Redirected, PrevOf, NextOf;
  }

  lemma CutSameSize(l: Layout, o: int, bytes: nat)
    requires Cuttable(l, o, bytes)
    ensures CutLayout(l, o, bytes).size == l.size < LIMIT
  {
  }

  lemma TagsKeptByLinks(m: Mem, m': Mem, l: Layout, o: int)
    requires OnlyLinksChanged(m, m', l) && TaggedExcept(m, l, o)
    ensures TaggedExcept(m', l, o)
  {
    hide SizeField, FreeField, Kept, Live;
    forall p | p in l.ends && p != o ensures TaggedAt(m', l, p) { assert TaggedAt(m, l, p); }
  }

  lemma CutRewiredPending(m: Mem, head: int, l: Layout, o: int, bytes: nat)
    requires Cuttable(l, o, bytes) && Mapped(m, l.size) && Linked(m, l.ends, l.free)
    requires var l1 := CutLayout(l, o, bytes); AllSized(m, l1.ends) && TaggedExcept(m, l1, o)
    requires head == HeadOf(CutLayout(l, o, bytes).free)
    ensures Pending(CutRewired(m, l, o, bytes), head, CutLayout(l, o, bytes), o)
  {
    hide Valid, Linked, Kept, Live, CutRewired, HeadOf, Mapped, CutLayout, AllSized, TaggedExcept, TaggedAt, SizedAt;
    var l1, r := CutLayout(l, o, bytes), CutRewired(m, l, o, bytes);
    CutLayoutEffect(l, o, bytes);
    CutSameSize(l, o, bytes);
    CutRewiredLinked(m, l, o, bytes);
    CutRewiredFrame(m, l, o, bytes);
    SizedAfterLinks(m, r, l1);
    TagsKeptByLinks(m, r, l1, o);
    MappedSame(m, r, l.size);
  }

  lemma SizedLinksMapped(m: Mem, l: Layout)
    requires AllSized(m, l.ends)
    ensures LinksMapped(m, l)
  {
    assert forall p | p in l.free && p in l.ends :: SizedAt(m, l.ends, p);
  }

  /** The links of a listed block after another is linked in front of the list. */
  lemma PushedLinks(m: Mem, l: Layout, o: int, k: nat)
    requires Valid(l) && o in l.ends && o !in l.free && k < |l.free| && LinksMapped(m, l)
    ensures l.free[0] in l.ends && l.free[k] in l.ends
    ensures var p, e := Pushed(m, l.ends, l.free, o), l.ends[l.free[k]];
            && PrevLink(e) in m && NextLink(e) in m && PrevLink(e) in p && NextLink(e) in p
            && p[PrevLink(e)] == (if k == 0 then o else m[PrevLink(e)])
            && p[NextLink(e)] == m[NextLink(e)]
  {
    ListedIsBlock(l, 0);
    ListedIsBlock(l, k);
    EndsApart(l, o, l.free[k]);
    if k > 0 {
      assert l.free[0] != l.free[k];
      EndsApart(l, l.free[0], l.free[k]);
    }
    hide Valid;
  }

  /** The block that precedes the right part in the list once the left part is linked in
      front. */
  function PrevOfCut(l: Layout, o: int): int
    requires o in l.free
  {
    if Index(l.free, o) == 0 then o else PrevOf(l.free, Index(l.free, o))
  }

  lemma CutLinks(m: Mem, l: Layout, o: int, bytes: nat)
    requires Cuttable(l, o, bytes) && Linked(m, l.ends, l.free)
    requires AllSized(m, CutLayout(l, o, bytes).ends)
    ensures var l1 := CutLayout(l, o, bytes);
            && PushReads(m, l1.ends, l1.free, o)
            && LinksAt(Pushed(m, l1.ends, l1.free, o), l.ends[o],
                       PrevOfCut(l, o), NextOf(l.free, Index(l.free, o)))
  {
    var k, l1 := Index(l.free, o), CutLayout(l, o, bytes);
    CutLayoutEffect(l, o, bytes);
    UnlistedPushReads(m, l1, o);
    SizedLinksMapped(m, l1);
    assert LinkedAt(m, l.ends, l.free, k);
    hide SizeField, FreeField, Aligned, Linked, LinksMapped, AllSized, PushReads, Valid;
    PushedLinks(m, l1, o, k);
    hide Pushed;
  }

  lemma CutPushedSized(m: Mem, l: Layout, o: int)
    requires Valid(l) && l.size < LIMIT && o in l.ends && o !in l.free && AllSized(m, l.ends)
    ensures PushReads(m, l.ends, l.free, o)
    ensures AllSized(Pushed(m, l.ends, l.free, o), l.ends)
  {
    UnlistedPushReads(m, l, o);
    SizedLinksMapped(m, l);
    assert SizedAt(m, l.ends, o);
    PushedFrame(m, l, o);
    hide Pushed, Valid, OnlyLinksChanged, AllSized, LinksMapped;
    SizedAfterLinks(m, Pushed(m, l.ends, l.free, o), Listed(l, o));
  }

  lemma CutNeighbours(l: Layout, o: int, bytes: nat)
    requires Cuttable(l, o, bytes)
    ensures var l1, cut := CutLayout(l, o, bytes), o + bytes + META;
            var prev, next := PrevOfCut(l, o), NextOf(l.free, Index(l.free, o));
            && cut in l1.ends && l1.ends[cut] == l.ends[o]
            && prev in l1.ends + map[END_OF_LIST := 0] && next in l1.ends + map[END_OF_LIST := 0]
            && (prev != END_OF_LIST ==>
                  Apart(l1.ends[prev], l1.ends[cut]) && cut != NextLink(l1.ends[prev]))
            && (prev != END_OF_LIST && next != END_OF_LIST ==> next != NextLink(l1.ends[prev]))
  {
    var k, cut, l1 := Index(l.free, o), o + bytes + META, CutLayout(l, o, bytes);
    CutLayoutEffect(l, o, bytes);
    IndexUnique(l1.free, k);
    Neighbours(l1, k);
    EndsApart(l1, o, cut);
    var prev, next := PrevOfCut(l, o), NextOf(l.free, k);
    assert next == NextOf(l1.free, k) && (k > 0 ==> prev == PrevOf(l1.free, k));
    hide CutLayout, PrevOf, NextOf;
    if prev != END_OF_LIST {
      StartsAreNotLinks(l1, cut, prev);
      if next != END_OF_LIST { StartsAreNotLinks(l1, next, prev); }
    }
  }

  lemma CutSpliceReads(m: Mem, l: Layout, o: int, bytes: nat)
    requires Cuttable(l, o, bytes) && Linked(m, l.ends, l.free)
    requires AllSized(m, CutLayout(l, o, bytes).ends)
    ensures var l1 := CutLayout(l, o, bytes);
            && PushReads(m, l1.ends, l1.free, o)
            && SpliceReads(Pushed(m, l1.ends, l1.free, o), l1.ends, o + bytes + META,
                           PrevOfCut(l, o), NextOf(l.free, Index(l.free, o)))
  {
    var l1 := CutLayout(l, o, bytes);
    CutLayoutEffect(l, o, bytes);
    CutLinks(m, l, o, bytes);
    CutPushedSized(m, l1, o);
    CutNeighbours(l, o, bytes);
    var p := Pushed(m, l1.ends, l1.free, o);
    assert forall q | q in l1.ends :: SizedAt(p, l1.ends, q);
    hide Valid, Linked, AllSized, PushReads, Pushed, CutLayout, SizedAt, PrevOf, NextOf, PrevOfCut;
  }

  lemma WritesCommute(m: Mem, ends: Ends, p: int, n: int, o: int, cut: int, free: seq<int>)
    requires free != [] && o in ends && free[0] in ends && Apart(ends[o], ends[free[0]])
    requires n != END_OF_LIST ==> n in ends && Apart(ends[o], ends[n]) && Apart(ends[free[0]], ends[n])
    requires p != END_OF_LIST ==>
               p in ends && Apart(ends[o], ends[p]) && (p == free[0] || Apart(ends[free[0]], ends[p]))
    requires p == END_OF_LIST ==> free[0] == cut && o != END_OF_LIST
    ensures Redirected(Pushed(m, ends, free, o), ends, if p == END_OF_LIST then o else p, n, cut, cut)
            == Pushed(Redirected(m, ends, p, n, cut, cut), ends, free, o)
  {
    var x := Redirected(Pushed(m, ends, free, o), ends, if p == END_OF_LIST then o else p, n, cut, cut);
    var y := Pushed(Redirected(m, ends, p, n, cut, cut), ends, free, o);
    assert x.Keys == y.Keys;
    assert forall a | a in x :: x[a] == y[a];
  }

  /** The blocks that cutting writes links of are apart. */
  lemma CutApart(l: Layout, o: int, bytes: nat)
    requires Cuttable(l, o, bytes)
    ensures var k, l1, cut := Index(l.free, o), CutLayout(l, o, bytes), o + bytes + META;
            var p, n := PrevOf(l.free, k), NextOf(l.free, k);
            && l1.free != [] && o in l1.ends && l1.free[0] in l1.ends && Apart(l1.ends[o], l1.ends[l1.free[0]])
            && (p != END_OF_LIST ==>
                  && p in l1.ends && Apart(l1.ends[o], l1.ends[p])
                  && (p == l1.free[0] || Apart(l1.ends[l1.free[0]], l1.ends[p])))
            && (n != END_OF_LIST ==>
                  && n in l1.ends && Apart(l1.ends[o], l1.ends[n]) && Apart(l1.ends[l1.free[0]], l1.ends[n]))
            && (p == END_OF_LIST ==> k == 0 && l1.free[0] == cut && o != END_OF_LIST)
            && (p != END_OF_LIST ==> k > 0)
  {
    hide CutLayout, Apart, Tiled;
    var k, l1 := Index(l.free, o), CutLayout(l, o, bytes);
    CutLayoutEffect(l, o, bytes);
    Neighbours(l, k);
    CutList(l, o, bytes);
    var p, n, h := PrevOf(l.free, k), NextOf(l.free, k), l1.free[0];
    EndsApart(l1, o, h);
    if n != END_OF_LIST {
      EndsApart(l1, o, n);
      EndsApart(l1, h, n);
    }
    if p != END_OF_LIST {
      EndsApart(l1, o, p);
      if p != h { EndsApart(l1, h, p); }
    }
  }

  // The list of a cut layout is that of the whole one but for the place of the block.
  lemma CutList(l: Layout, o: int, bytes: nat)
    requires Cuttable(l, o, bytes)
    ensures var k, l1, cut := Index(l.free, o), CutLayout(l, o, bytes), o + bytes + META;
            && |l1.free| == |l.free| && l1.free[k] == cut && l1.free[0] in l1.ends && l1.free[0] != o
            && (k > 0 ==> l1.free[0] == l.free[0] && l.free[k - 1] in l1.ends && l.free[k - 1] != o)
            && (k + 1 < |l.free| ==>
                  l.free[k + 1] in l1.ends && l.free[k + 1] != o && l1.free[0] != l.free[k + 1])
  {
    hide Tiled, CutEnds, Aligned;
    var k, l1 := Index(l.free, o), CutLayout(l, o, bytes);
    CutLayoutEffect(l, o, bytes);
    CutIsNew(l, o, bytes);
    assert forall i | 0 <= i < |l.free| && i != k :: l1.free[i] == l.free[i] && l.free[i] in l.free;
    assert l1.free[0] in l1.free;
  }

  /** Telling the neighbours and linking in front may be done in either order. */
  lemma CutCommutes(m: Mem, l: Layout, o: int, bytes: nat)
    requires Cuttable(l, o, bytes)
    ensures var l1, cut := CutLayout(l, o, bytes), o + bytes + META;
            var prev, next := PrevOfCut(l, o), NextOf(l.free, Index(l.free, o));
            && o in l1.ends && (l1.free != [] ==> l1.free[0] in l1.ends)
            && (prev != END_OF_LIST ==> prev in l1.ends) && (next != END_OF_LIST ==> next in l1.ends)
            && Redirected(Pushed(m, l1.ends, l1.free, o), l1.ends, prev, next, cut, cut)
               == Pushed(CutRewired(m, l, o, bytes), l1.ends, l1.free, o)
  {
    hide Valid, CutLayout, Redirected, Pushed, Apart, PrevOf, NextOf;
    var k, cut, l1 := Index(l.free, o), o + bytes + META, CutLayout(l, o, bytes);
    CutApart(l, o, bytes);
    CutNeighbours(l, o, bytes);
    WritesCommute(m, l1.ends, PrevOf(l.free, k), NextOf(l.free, k), o, cut, l1.free);
  }

  /** The memory after all links of a cut are written. */
  function Recut(m: Mem, l: Layout, o: int, bytes: nat): Mem
    requires Cuttable(l, o, bytes)
  {
    var l1 := CutLayout(l, o, bytes);
    CutLayoutEffect(l, o, bytes);
    if l1.free != [] then ListedIsBlock(l1, 0); Pushed(CutRewired(m, l, o, bytes), l1.ends, l1.free, o)
    else Pushed(CutRewired(m, l, o, bytes), l1.ends, l1.free, o)
  }

  /** A cut leaves a heap in order. */
  lemma CutRepresented(m0: Mem, head: int, l: Layout, o: int, bytes: nat)
    requires Cuttable(l, o, bytes) && Represents(m0, head, l)
    ensures var m := Recut(CutTags(m0, l.ends[o], o, bytes), l, o, bytes);
            Represents(m, o, Split(l, o, bytes)) && Kept(m0, m, Live(l))
  {
    var l1, m1 := CutLayout(l, o, bytes), CutTags(m0, l.ends[o], o, bytes);
    var r := CutRewired(m1, l, o, bytes);
    CutLayoutEffect(l, o, bytes);
    CutTagsLinked(m0, l, o, bytes);
    CutTagsSized(m0, l, o, bytes);
    MappedSame(m0, m1, l.size);
    hide Tag, SizeField, FreeField, Aligned, CutTags, Mapped, Tagged;
    CutRewiredPending(m1, HeadOf(l1.free), l, o, bytes);
    CutRewiredFrame(m1, l, o, bytes);
    assert SizedAt(m1, l1.ends, o);
    assert r[o] == r[BackTag(l1.ends[o])] && IsFree(r, o) && Kept(m1, r, Live(l1));
    hide CutRewired, Pending, OnlyLinksChanged, AllSized, TaggedExcept, Linked, SizedAt, HeadOf, Cuttable;
    PushRepresented(r, HeadOf(l1.free), l1, o);
    hide Pushed, Represents, CutLayout, Valid;
    KeptSubset(m1, r, Live(l1), Live(l));
    hide Kept, Live;
    KeptTrans(m0, m1, r, Live(l));
    KeptTrans(m0, r, Pushed(r, l1.ends, l1.free, o), Live(l));
  }

  /** Everything the steps of a cut read and leave. */
  lemma CutReady(m0: Mem, head: int, l: Layout, o: int, bytes: nat)
    requires Cuttable(l, o, bytes) && Represents(m0, head, l)
    ensures o in l.ends && o in m0 && IsFree(m0, o) && End(m0, o) == l.ends[o]
    ensures var cut, e := o + bytes + META, l.ends[o];
            o + bytes + 2 * META <= e && BackTag(cut) in m0 && cut in m0 && BackTag(e) in m0
    ensures var m1, l1 := CutTags(m0, l.ends[o], o, bytes), CutLayout(l, o, bytes);
            && Linked(m1, l.ends, l.free) && AllSized(m1, l1.ends)
            && HeadOf(l1.free) == (if head == o then o + bytes + META else head)
            && Represents(Recut(m1, l, o, bytes), o, Split(l, o, bytes))
            && Kept(m0, Recut(m1, l, o, bytes), Live(l))
  {
    assert TaggedAt(m0, l, o);
    CutAligned(l, o, bytes);
    CutTagsLinked(m0, l, o, bytes);
    CutTagsSized(m0, l, o, bytes);
    CutRewiredLinked(CutTags(m0, l.ends[o], o, bytes), l, o, bytes);
    CutRepresented(m0, head, l, o, bytes);
    CutLayoutEffect(l, o, bytes);
    hide Cuttable, Represents, CutTags, CutLayout, Recut, Kept, Live, Linked, AllSized, Valid;
    hide Split, Listed, Aligned;
  }
}
