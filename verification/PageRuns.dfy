/** Page tables over time: tables are made and ranges are mapped, in any order. */
module PageRuns {
  import opened PageTables
  import opened Wrappers

  datatype Event =
    | Create(root: int)
    | MapPages(root: int, first: int, n: int, pa: int, isKernel: bool)

  /** What is open to the user from a root when the root `root` has just been made: from the
      new one nothing but what the kernel shares. */
  ghost predicate OpenFrom(s: Space, s': Space, root: int, r: int, p: int, l: int) {
    if r == root then UserAt(s', r, p, l) ==> p / Span(3) == 511 && exists q :: IsRoot(s, q) && UserAt(s, q, p, l)
    else UserAt(s', r, p, l) <==> UserAt(s, r, p, l)
  }

  /** What holds of the tables from one event to the next. */
  ghost predicate Follows(s: Space, e: Event, s': Space) {
    SpaceOk(s) && SpaceOk(s') &&
    match e
    case Create(root) =>
      && !IsRoot(s, root) && (forall r :: IsRoot(s', r) <==> IsRoot(s, r) || r == root)
      && (forall r, p, l {:trigger Kept(s, s', r, p, l)} | 1 <= l <= 4 :: Kept(s, s', r, p, l))
      && (forall r, p, l {:trigger OpenFrom(s, s', root, r, p, l)} | 0 <= p < PAGES && 2 <= l <= 4 ::
            OpenFrom(s, s', root, r, p, l))
      && (forall r, p | r != root :: Leaf(s', r, p) == Leaf(s, r, p))
      && (forall p | 0 <= p < PAGES && (p / Span(3) != 511 || forall r :: !IsRoot(s, r)) :: Leaf(s', root, p) == 0)
    case MapPages(root, first, n, pa, isKernel) =>
      && IsRoot(s, root) && IsBase(pa) && 0 <= n && pa + FOUR_KB * n <= MEMORY && 0 <= first && first + n <= PAGES
      && Keeps(s, s') && Mapped(s, s', root, first, n, pa, isKernel) && OpensOnly(s, s', root, first, n, isKernel)
      && (!isKernel ==>
            UserWalk(s', root, first, n, 4) && forall p | first <= p < first + n :: p / Span(3) != 511)
  }

  /** The tables before and after each event; at first there are none. */
  ghost predicate Run(ss: seq<Space>, es: seq<Event>) {
    && |ss| == |es| + 1 && SpaceOk(ss[0]) && (forall r :: !IsRoot(ss[0], r))
    && forall i {:trigger ss[i]} | 0 <= i < |es| :: Follows(ss[i], es[i], ss[i + 1])
  }

  datatype Frame = Unmapped | Frame(base: int, user: bool)

  /** Where the last event that bears on page `p` of root `r` put it. */
  function LastFrame(es: seq<Event>, r: int, p: int): Frame {
    if es == [] then Unmapped
    else
      var before := es[..|es| - 1];
      match es[|es| - 1]
      case Create(root) => if r == root && p / Span(3) != 511 then Unmapped else LastFrame(before, r, p)
      case MapPages(root, first, n, pa, isKernel) =>
        if first <= p < first + n && Sees(r, root, p) then Frame(pa + FOUR_KB * (p - first), !isKernel)
        else LastFrame(before, r, p)
  }

  /** Of the kernel's part of the address space all roots have the same. */
  lemma {:induction false} LastShared(es: seq<Event>, r: int, q: int, p: int)
    requires p / Span(3) == 511
    ensures LastFrame(es, r, p) == LastFrame(es, q, p)
  {
    hide Span;
    if es != [] { LastShared(es[..|es| - 1], r, q, p); }
  }

  /** The lowest entry says what the last event says: the frame, present, writable, and open
      to the user or not. */
  ghost predicate LeafIs(s: Space, r: int, p: int, f: Frame) {
    match f
    case Unmapped => Leaf(s, r, p) == 0
    case Frame(base, user) => IsBase(base) && Leaf(s, r, p) == base + if user then 7 else 3
  }

  lemma NoRoots(ss: seq<Space>, es: seq<Event>)
    requires Run(ss, es) && es != []
    ensures exists r :: IsRoot(ss[|es|], r)
  {
    hide IsRoot, SpaceOk, Mapped, Leaf, UserWalk;
    var i := |es| - 1;
    assert Follows(ss[i], es[i], ss[i + 1]);
    assert IsRoot(ss[i + 1], es[i].root);
  }

  lemma Before(ss: seq<Space>, es: seq<Event>)
    requires Run(ss, es) && es != []
    ensures |ss| == |es| + 1 && Run(ss[..|es|], es[..|es| - 1])
    ensures Follows(ss[|es| - 1], es[|es| - 1], ss[|es|])
  {
    hide IsRoot, SpaceOk, Follows;
    var i := |es| - 1;
    assert Follows(ss[i], es[i], ss[i + 1]);
  }

  /** After any run each page of each root is where the last event that bears on it put it. */
  lemma {:induction false} LeafLast(ss: seq<Space>, es: seq<Event>, r: int, p: int)
    requires Run(ss, es) && IsRoot(ss[|es|], r) && 0 <= p < PAGES
    ensures LeafIs(ss[|es|], r, p, LastFrame(es, r, p))
    decreases |es|
  {
    hide IsRoot, SpaceOk, Leaf, Entry, Span, Run, Mapped, Keeps, UserWalk;
    if es == [] {
      Nobody(ss, es);
    } else {
      Before(ss, es);
      var n := |es| - 1;
      var s, e, s' := ss[n], es[n], ss[n + 1];
      match e
      case Create(root) => CreatedLast(ss, es, r, p);
      case MapPages(root, first, k, pa, isKernel) =>
        assert IsRoot(s, r) by { RootsSame(s, s', r); }
        LeafLast(ss[..|es|], es[..n], r, p);
        assert MappedAt(s, s', root, first, k, pa, isKernel, r, p) by { MappedHere(s, s', e, r, p); }
        Aligned(pa, p - first);
        EntryWord(pa + FOUR_KB * (p - first), isKernel);
    }
  }

  lemma EntryWord(base: int, isKernel: bool)
    ensures Entry(base, isKernel) == base + if isKernel then 3 else 7
  {
  }

  lemma Nobody(ss: seq<Space>, es: seq<Event>)
    requires Run(ss, es)
    ensures |ss| == |es| + 1 && forall r :: !IsRoot(ss[0], r)
  {
    hide IsRoot;
  }

  lemma RootsSame(s: Space, s': Space, r: int)
    requires Keeps(s, s') && IsRoot(s', r)
    ensures IsRoot(s, r)
  {
    hide IsRoot;
  }

  lemma MappedHere(s: Space, s': Space, e: Event, r: int, p: int)
    requires e.MapPages? && Follows(s, e, s') && 0 <= p < PAGES
    ensures MappedAt(s, s', e.root, e.first, e.n, e.pa, e.isKernel, r, p)
  {
    hide MappedAt, IsRoot, SpaceOk, UserWalk, Keeps;
  }

  lemma CreatedLast(ss: seq<Space>, es: seq<Event>, r: int, p: int)
    requires Run(ss, es) && IsRoot(ss[|es|], r) && 0 <= p < PAGES
    requires es != [] && es[|es| - 1].Create?
    ensures LeafIs(ss[|es|], r, p, LastFrame(es, r, p))
    decreases |es|, 0
  {
    hide IsRoot, SpaceOk, Leaf, Entry, Span, Run, Mapped, Keeps, UserWalk, Kept;
    Before(ss, es);
    var n := |es| - 1;
    var s, root, s' := ss[n], es[n].root, ss[n + 1];
    if r != root {
      LeafLast(ss[..|es|], es[..n], r, p);
    } else if p / Span(3) == 511 && n > 0 {
      NoRoots(ss[..|es|], es[..n]);
      var q :| IsRoot(s, q);
      LeafLast(ss[..|es|], es[..n], q, p);
      LastShared(es[..n], r, q, p);
      SharedLeaf(s', r, q, p);
    } else {
      if n == 0 { Nobody(ss, es); }
      assert Leaf(s', root, p) == 0;
    }
  }

  lemma SharedLeaf(s: Space, r: int, q: int, p: int)
    requires SpaceOk(s) && IsRoot(s, r) && IsRoot(s, q) && 0 <= p < PAGES && p / Span(3) == 511
    ensures Leaf(s, r, p) == Leaf(s, q, p)
  {
    SharedNode(s, r, q, p, 1);
  }

  // ----- What a run means for addresses -----------------------------------------------

  /** After any run an address translates to the frame that the last event gave its page. */
  lemma RunTranslates(ss: seq<Space>, es: seq<Event>, r: int, va: int)
    requires Run(ss, es) && IsRoot(ss[|es|], r)
    ensures Translate(ss[|es|], r, va) ==
            match LastFrame(es, r, Page(va))
            case Unmapped => None
            case Frame(base, user) => Some(base + va % FOUR_KB)
  {
    hide IsRoot, Run, Leaf, Entry, Present, BaseAddress, Page;
    LeafLast(ss, es, r, Page(va));
    EmptyEntry();
    match LastFrame(es, r, Page(va))
    case Unmapped =>
    case Frame(base, user) =>
      EntryWord(base, !user);
      EntryFields(base, !user);
  }

  /** After any run all roots translate the kernel's addresses alike. */
  lemma RunShared(ss: seq<Space>, es: seq<Event>, r: int, q: int, va: int)
    requires Run(ss, es) && IsRoot(ss[|es|], r) && IsRoot(ss[|es|], q) && Page(va) / Span(3) == 511
    ensures Translate(ss[|es|], r, va) == Translate(ss[|es|], q, va)
  {
    hide IsRoot, Run, Translate, Page, Span;
    RunTranslates(ss, es, r, va);
    RunTranslates(ss, es, q, va);
    LastShared(es, r, q, Page(va));
  }

  /** After any run a page may be written, by the entries of all four levels, if and only if
      it is mapped. */
  lemma RunWritable(ss: seq<Space>, es: seq<Event>, r: int, p: int)
    requires Run(ss, es) && IsRoot(ss[|es|], r) && 0 <= p < PAGES
    ensures WritableReaches(ss[|es|], r, p) <==> LastFrame(es, r, p).Frame?
  {
    hide IsRoot, Run, Leaf, WritableReaches, SpaceOk, Entry, Present;
    LeafLast(ss, es, r, p);
    RunOk(ss, es);
    PresentWritable(ss[|es|], r, p);
    EmptyEntry();
    match LastFrame(es, r, p)
    case Unmapped =>
    case Frame(base, user) =>
      EntryWord(base, !user);
      EntryFields(base, !user);
  }

  lemma RunOk(ss: seq<Space>, es: seq<Event>)
    requires Run(ss, es)
    ensures |ss| == |es| + 1 && SpaceOk(ss[|es|])
  {
    hide IsRoot, SpaceOk, Mapped, Keeps, UserWalk, Leaf, Kept;
    if es != [] { Before(ss, es); }
  }

  ghost predicate MapsOk(e: Event) {
    e.MapPages? && !e.isKernel ==> forall p | e.first <= p < e.first + e.n :: p / Span(3) != 511
  }

  lemma LastEventOk(ss: seq<Space>, es: seq<Event>)
    requires Run(ss, es) && es != []
    ensures MapsOk(es[|es| - 1])
  {
    hide IsRoot, SpaceOk, Mapped, Keeps, UserWalk, Leaf, Kept;
    Before(ss, es);
  }

  /** Nothing is mapped for the user in the kernel's part of the address space. */
  lemma {:induction false} KernelFrames(ss: seq<Space>, es: seq<Event>, r: int, p: int)
    requires Run(ss, es) && LastFrame(es, r, p).Frame? && LastFrame(es, r, p).user
    ensures p / Span(3) != 511
    decreases |es|
  {
    hide Run, Span;
    if es != [] {
      var n := |es| - 1;
      LastEventOk(ss, es);
      Before(ss, es);
      if LastFrame(es, r, p) == LastFrame(es[..n], r, p) { KernelFrames(ss[..|es|], es[..n], r, p); }
    }
  }

  /** Since root `r` was made, a page was mapped for its user that is reached through the same
      entry of level `l` as page `p`. */
  ghost predicate OpenIn(es: seq<Event>, r: int, p: int, l: int) {
    es != [] &&
    var before := es[..|es| - 1];
    match es[|es| - 1]
    case Create(root) => root != r && OpenIn(before, r, p, l)
    case MapPages(root, first, n, pa, isKernel) =>
      (!isKernel && root == r && Beside(first, n, p, l)) || OpenIn(before, r, p, l)
  }

  lemma TogetherSlot(q: int, p: int, l: int)
    requires 2 <= l <= 4 && Together(q, p, l)
    ensures p / Span(3) == q / Span(3)
  {
    if l == 2 { Halving(p, 1); Halving(q, 1); }
    if l < 4 { Halving(p, 2); Halving(q, 2); }
  }

  // No page beside those of a user's mapping is in the kernel's part.
  lemma BesideSlot(e: Event, p: int, l: int)
    requires MapsOk(e) && e.MapPages? && !e.isKernel && 2 <= l <= 4 && Beside(e.first, e.n, p, l)
    ensures p / Span(3) != 511
  {
    hide Span;
    var q :| e.first <= q < e.first + e.n && Together(q, p, l);
    TogetherSlot(q, p, l);
  }

  lemma {:induction false} OpenSlot(ss: seq<Space>, es: seq<Event>, r: int, p: int, l: int)
    requires Run(ss, es) && OpenIn(es, r, p, l) && 2 <= l <= 4
    ensures p / Span(3) != 511
    decreases |es|
  {
    hide Run, Span, Beside;
    var n := |es| - 1;
    LastEventOk(ss, es);
    Before(ss, es);
    if OpenIn(es[..n], r, p, l) { OpenSlot(ss[..|es|], es[..n], r, p, l); } else { BesideSlot(es[n], p, l); }
  }

  /** After any run an entry above the lowest level lets the user through if and only if some
      page under it was mapped for the user. */
  lemma {:induction false} RunOpen(ss: seq<Space>, es: seq<Event>, r: int, p: int, l: int)
    requires Run(ss, es) && IsRoot(ss[|es|], r) && 0 <= p < PAGES && 2 <= l <= 4
    ensures UserAt(ss[|es|], r, p, l) <==> OpenIn(es, r, p, l)
    decreases |es|
  {
    hide IsRoot, SpaceOk, Leaf, Span, Run, Mapped, Keeps, UserWalk, UserAt, OpensOnly, Beside;
    if es == [] {
      Nobody(ss, es);
    } else {
      Before(ss, es);
      var n := |es| - 1;
      var s, e, s' := ss[n], es[n], ss[n + 1];
      match e
      case Create(root) =>
        assert OpenFrom(s, s', root, r, p, l);
        if r != root {
          RunOpen(ss[..|es|], es[..n], r, p, l);
        } else if UserAt(s', r, p, l) {
          var q :| IsRoot(s, q) && UserAt(s, q, p, l);
          RunOpen(ss[..|es|], es[..n], q, p, l);
          OpenSlot(ss[..|es|], es[..n], q, p, l);
        }
      case MapPages(root, first, k, pa, isKernel) =>
        assert IsRoot(s, r) by { RootsSame(s, s', r); }
        RunOpen(ss[..|es|], es[..n], r, p, l);
        LastEventOk(ss, es);
        OpenedHere(s, s', e, r, p, l);
    }
  }

  /** A mapping opens an entry for the user if and only if it is for the user and a page of it
      is under the entry. */
  lemma OpenedHere(s: Space, s': Space, e: Event, r: int, p: int, l: int)
    requires Follows(s, e, s') && e.MapPages? && MapsOk(e) && 0 <= p < PAGES && 2 <= l <= 4
    ensures UserAt(s', r, p, l) <==>
            UserAt(s, r, p, l) || (!e.isKernel && r == e.root && Beside(e.first, e.n, p, l))
  {
    hide IsRoot, SpaceOk, Leaf, Span, Mapped, Node, UserAccessible, EntryAt;
    assert OpenAt(s, s', e.root, e.first, e.n, e.isKernel, r, p, l);
    assert Kept(s, s', r, p, l);
    if !e.isKernel && Beside(e.first, e.n, p, l) {
      BesideSlot(e, p, l);
      if r == e.root {
        var q :| e.first <= q < e.first + e.n && Together(q, p, l);
        assert UserAt(s', r, q, l);
        SameEntry(s', r, q, p, l);
      }
    }
  }

  lemma {:induction false} FrameOpen(es: seq<Event>, r: int, p: int, l: int)
    requires LastFrame(es, r, p).Frame? && LastFrame(es, r, p).user && p / Span(3) != 511
    ensures OpenIn(es, r, p, l)
  {
    hide Span;
    var n := |es| - 1;
    match es[n]
    case Create(root) => FrameOpen(es[..n], r, p, l);
    case MapPages(root, first, k, pa, isKernel) =>
      if first <= p < first + k && Sees(r, root, p) {
        assert Together(p, p, l);
      } else {
        FrameOpen(es[..n], r, p, l);
      }
  }

  /** After any run the user may use a page if and only if it was last mapped for the user. */
  lemma RunUser(ss: seq<Space>, es: seq<Event>, r: int, p: int)
    requires Run(ss, es) && IsRoot(ss[|es|], r) && 0 <= p < PAGES
    ensures UserReaches(ss[|es|], r, p) <==> LastFrame(es, r, p).Frame? && LastFrame(es, r, p).user
  {
    hide IsRoot, Run, EntryAt, Entry, UserAccessible, SpaceOk, OpenIn;
    LeafLast(ss, es, r, p);
    EmptyEntry();
    match LastFrame(es, r, p)
    case Unmapped =>
    case Frame(base, user) =>
      EntryWord(base, !user);
      EntryFields(base, !user);
      if user {
        KernelFrames(ss, es, r, p);
        RunOk(ss, es);
        forall l | 2 <= l <= 4 ensures UserAt(ss[|es|], r, p, l) {
          FrameOpen(es, r, p, l);
          RunOpen(ss, es, r, p, l);
        }
      }
  }
}
