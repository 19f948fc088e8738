/** The threads, the scheduler of one core and the semaphores, as the kernel updates them in
    place: every thread has one list element, which is moved between the scheduling queue and
    the waiters of the semaphores. */
module Semaphores {
  import opened KernelLists
  import opened Scheduling

  class KernelThread {
    const id: int
    var sleeping: bool
    var inQueue: bool
    const elem: KernelListElement<KernelThread?>

    constructor (id: int, list: KernelList<KernelThread?>)
      ensures this.id == id && !sleeping && !inQueue && fresh(elem)
      ensures elem.t == this && elem.prev == null && elem.next == null && elem.list == list
    {
      this.id := id;
      sleeping, inQueue := false, false;
      elem := new KernelListElement<KernelThread?>(null, list);
      new;
      elem.Set(this);
    }
  }

  type Element = KernelListElement<KernelThread?>

  type ThreadList = KernelList<KernelThread?>

  /** Where the element of a thread can be linked in. */
  datatype Place = Queue | Waiting(sema: int)

  predicate IsPlace(w: World, p: Place) { p.Queue? || p.sema in w.semas }

  /** The threads there, first to last. */
  function Ids(w: World, p: Place): seq<int>
    requires IsPlace(w, p)
  {
    if p.Queue? then w.core.ready else w.semas[p.sema].waiters
  }

  function WithIds(w: World, p: Place, ids: seq<int>): World
    requires IsPlace(w, p)
  {
    if p.Queue? then w.(core := w.core.(ready := ids))
    else w.(semas := w.semas[p.sema := w.semas[p.sema].(waiters := ids)])
  }

  /** No thread is in two places. */
  ghost predicate Separate(w: World) {
    forall p, q {:trigger Ids(w, p), Ids(w, q)} | IsPlace(w, p) && IsPlace(w, q) && p != q ::
      forall x | x in Ids(w, p) :: x !in Ids(w, q)
  }

  ghost predicate Nowhere(w: World, x: int) { forall p | IsPlace(w, p) :: x !in Ids(w, p) }

  /** Threads by their numbers, and the lists by their places. */
  datatype Setting = Setting(threads: map<int, KernelThread>, lists: map<Place, ThreadList>)

  /** Every thread has an element of its own, and every place a list of its own. */
  ghost predicate SettingOk(g: Setting)
    reads (set x | x in g.threads :: g.threads[x].elem)`t
  {
    && (forall x | x in g.threads :: g.threads[x].id == x && g.threads[x].elem.t == g.threads[x])
    && (forall p, q | p in g.lists && q in g.lists && p != q :: g.lists[p] != g.lists[q])
  }

  ghost predicate Named(g: Setting, list: ThreadList, ids: seq<int>)
    reads list
  {
    && |list.elems| == |ids|
    && forall i | 0 <= i < |ids| :: ids[i] in g.threads && list.elems[i] == g.threads[ids[i]].elem
  }

  /** The list is linked through the elements of these threads, and the elements know it. */
  ghost predicate ListIs(g: Setting, list: ThreadList, ids: seq<int>)
    reads list, list.elems
  {
    Named(g, list, ids) && list.Valid() && forall e | e in list.elems :: e.list == list
  }

  ghost function Objects(g: Setting): set<object> {
    (set p | p in g.lists :: g.lists[p] as object) + (set x | x in g.threads :: g.threads[x].elem as object)
  }

  lemma MoreThreads(g: Setting, id: int, thread: KernelThread)
    requires SettingOk(g) && thread.id == id && thread.elem.t == thread
    ensures SettingOk(Setting(g.threads[id := thread], g.lists))
  {
  }

  lemma MoreLists(g: Setting, p: Place, list: ThreadList)
    requires SettingOk(g) && list !in g.lists.Values
    ensures SettingOk(Setting(g.threads, g.lists[p := list]))
  {
  }

  /** A semaphore that nobody waits for. */
  lemma MorePlaces(w: World, s: int, cnt: int)
    requires s !in w.semas && Separate(w)
    ensures var v := w.(semas := w.semas[s := Sema(cnt, [])]);
            && Separate(v) && (forall p :: IsPlace(v, p) <==> IsPlace(w, p) || p == Waiting(s))
            && (forall p | IsPlace(v, p) :: Ids(v, p) == if p == Waiting(s) then [] else Ids(w, p))
            && (forall x | Nowhere(v, x) :: Nowhere(w, x))
  {
    var v := w.(semas := w.semas[s := Sema(cnt, [])]);
    forall p, q | IsPlace(v, p) && IsPlace(v, q) && p != q ensures forall x | x in Ids(v, p) :: x !in Ids(v, q) {
      if p != Waiting(s) && q != Waiting(s) { assert forall x | x in Ids(w, p) :: x !in Ids(w, q); }
    }
    forall x | Nowhere(v, x) ensures Nowhere(w, x) {
      forall p | IsPlace(w, p) ensures x !in Ids(w, p) { assert IsPlace(v, p) && x !in Ids(v, p); }
    }
  }

  lemma AmongObjects(g: Setting, list: ThreadList, ids: seq<int>)
    requires Named(g, list, ids)
    ensures forall e | e in list.elems :: e in Objects(g) && e in ThreadElements(g)
  {
    forall i | 0 <= i < |ids| ensures list.elems[i] in Objects(g) && list.elems[i] in ThreadElements(g) {
      var x := ids[i];
      assert g.threads[x].elem in Objects(g) && g.threads[x].elem in ThreadElements(g);
    }
  }

  ghost function ThreadLists(g: Setting): set<ThreadList> { set p | p in g.lists :: g.lists[p] }

  ghost function ThreadElements(g: Setting): set<Element> { set x | x in g.threads :: g.threads[x].elem }

  ghost predicate PlaceOk(g: Setting, w: World, p: Place)
    requires IsPlace(w, p)
    reads Objects(g)
  {
    && p in g.lists && Named(g, g.lists[p], Ids(w, p))
    && (AmongObjects(g, g.lists[p], Ids(w, p));
        ListIs(g, g.lists[p], Ids(w, p)))
  }

  /** Every list is that of its place. */
  ghost predicate Placed(g: Setting, w: World)
    reads Objects(g)
  {
    SettingOk(g) && Separate(w) && forall p {:trigger PlaceOk(g, w, p)} | IsPlace(w, p) :: PlaceOk(g, w, p)
  }

  /** The element of a thread that is nowhere is linked to nothing, and would be pushed to the
      scheduling queue. */
  ghost predicate Loose(g: Setting, w: World, x: int)
    requires x in g.threads
    reads Objects(g)
  {
    Nowhere(w, x) ==>
      var e := g.threads[x].elem;
      e.prev == null && e.next == null && Queue in g.lists && e.list == g.lists[Queue]
  }

  ghost predicate LooseBut(g: Setting, w: World, xs: set<int>)
    reads Objects(g)
  {
    forall x {:trigger Loose(g, w, x)} | x in g.threads && x !in xs :: Loose(g, w, x)
  }

  lemma OtherElems(g: Setting, a: ThreadList, ids: seq<int>, x: int)
    requires SettingOk(g) && Named(g, a, ids) && x in g.threads && x !in ids
    ensures g.threads[x].elem !in a.elems
  {
    forall i | 0 <= i < |ids| ensures a.elems[i] != g.threads[x].elem {
      var y := ids[i];
      assert y in ids && a.elems[i] == g.threads[y].elem && g.threads[y].elem.t == g.threads[y];
    }
  }

  /** Threads leave or enter one place only. */
  lemma SeparateStep(w: World, p: Place, ids: seq<int>)
    requires Separate(w) && IsPlace(w, p) && forall x | x in ids :: x in Ids(w, p) || Nowhere(w, x)
    ensures Separate(WithIds(w, p, ids))
    ensures forall q :: IsPlace(WithIds(w, p, ids), q) <==> IsPlace(w, q)
    ensures forall q | IsPlace(w, q) :: Ids(WithIds(w, p, ids), q) == if q == p then ids else Ids(w, q)
  {
    var w' := WithIds(w, p, ids);
    forall q, r | IsPlace(w', q) && IsPlace(w', r) && q != r
      ensures forall x | x in Ids(w', q) :: x !in Ids(w', r)
    {
      assert forall x | x in Ids(w, q) :: x !in Ids(w, r);
      assert forall x | x in Ids(w, p) && p != r :: x !in Ids(w, r);
      assert forall x | x in Ids(w, q) && q != p :: x !in Ids(w, p);
    }
  }

  lemma TakenNowhere(g: Setting, w: World, p: Place)
    requires Placed(g, w) && IsPlace(w, p) && Ids(w, p) != []
    ensures Nowhere(WithIds(w, p, Ids(w, p)[1..]), Ids(w, p)[0])
  {
    hide SettingOk;
    var ids := Ids(w, p);
    var x, w' := ids[0], WithIds(w, p, ids[1..]);
    assert PlaceOk(g, w, p);
    var elems := g.lists[p].elems;
    forall i | 1 <= i < |ids| ensures ids[i] != x { assert elems[i] != elems[0]; }
    assert x in ids && x !in ids[1..];
    forall q | IsPlace(w', q) ensures x !in Ids(w', q) {
      if q != p { assert IsPlace(w, q) && Ids(w', q) == Ids(w, q); }
    }
  }

  /** A change of one list and of the links of its elements and of thread `x` leaves the other
      lists, and the other threads, as they were. */
  twostate lemma Elsewhere(new g: Setting, new w: World, new p: Place, x: int)
    requires old(allocated(g)) && old(allocated(w)) && old(allocated(p)) && old(Placed(g, w))
    requires IsPlace(w, p) && (x in Ids(w, p) || Nowhere(w, x))
    requires forall q | q in g.lists && q != p :: unchanged(g.lists[q])
    requires forall y | y in g.threads && y != x && y !in Ids(w, p) :: unchanged(g.threads[y].elem)
    requires forall y | y in g.threads :: unchanged(g.threads[y].elem`t)
    ensures SettingOk(g) && forall q | IsPlace(w, q) && q != p :: PlaceOk(g, w, q)
    ensures forall y | y in g.threads && y != x && y !in Ids(w, p) && old(Loose(g, w, y)) :: Loose(g, w, y)
  {
    hide Separate;
    assert old(SettingOk(g));
    forall q | IsPlace(w, q) && q != p ensures PlaceOk(g, w, q) {
      assert old(PlaceOk(g, w, q));
      ApartIds(w, p, q, x);
      var list, ids := g.lists[q], Ids(w, q);
      forall i | 0 <= i < |ids| ensures unchanged(list.elems[i]) {
        var y := ids[i];
        assert y in ids && list.elems[i] == g.threads[y].elem;
      }
      list.Kept();
    }
  }

  lemma ApartIds(w: World, p: Place, q: Place, x: int)
    requires Separate(w) && IsPlace(w, p) && IsPlace(w, q) && p != q && (x in Ids(w, p) || Nowhere(w, x))
    ensures forall y | y in Ids(w, q) :: y !in Ids(w, p) && y != x
  {
    assert forall y | y in Ids(w, q) :: y !in Ids(w, p);
    assert forall y | y in Ids(w, p) :: y !in Ids(w, q);
  }

  /** All lists again, when one has other threads. */
  lemma PlacedAgain(g: Setting, w: World, p: Place, ids: seq<int>)
    requires Separate(w) && IsPlace(w, p) && forall x | x in ids :: x in Ids(w, p) || Nowhere(w, x)
    requires SettingOk(g) && forall q | IsPlace(w, q) && q != p :: PlaceOk(g, w, q)
    requires p in g.lists && ListIs(g, g.lists[p], ids)
    ensures Placed(g, WithIds(w, p, ids))
  {
    hide Separate, SettingOk, Named;
    var w' := WithIds(w, p, ids);
    SeparateStep(w, p, ids);
    forall q | IsPlace(w', q) ensures PlaceOk(g, w', q) {
      if q != p { assert PlaceOk(g, w, q); }
    }
  }

  /** The first thread is taken off a list. */
  method Take(list: ThreadList, ghost g: Setting, ghost w: World, ghost p: Place, ghost xs: set<int>)
    returns (elem: Element)
    requires Placed(g, w) && LooseBut(g, w, xs) && IsPlace(w, p) && p in g.lists && list == g.lists[p]
    requires Ids(w, p) != []
    modifies list, list.elems`prev, list.elems`next
    ensures var x, w' := Ids(w, p)[0], WithIds(w, p, Ids(w, p)[1..]);
            && Placed(g, w') && LooseBut(g, w', xs + {x}) && Nowhere(w', x)
            && x in g.threads && elem == g.threads[x].elem
            && elem.prev == null && elem.next == null && elem.list == list
  {
    hide Separate, LinkedAt, AllDifferent;
    ghost var ids := Ids(w, p);
    ghost var x, w' := ids[0], WithIds(w, p, ids[1..]);
    assert PlaceOk(g, w, p);
    TakenNowhere(g, w, p);
    forall y | y in g.threads && y !in ids ensures g.threads[y].elem !in list.elems { OtherElems(g, list, ids, y); }
    label L:
    elem := list.PopFront();
    Elsewhere@L(g, w, p, x);
    PlacedAgain(g, w, p, ids[1..]);
    forall y | y in g.threads && y !in xs + {x} ensures Loose(g, w', y) {
      assert old@L(Loose(g, w, y));
      if Nowhere(w', y) { ComesFrom(w, p, ids[1..], y); }
    }
  }

  lemma ComesFrom(w: World, p: Place, ids: seq<int>, y: int)
    requires IsPlace(w, p) && Nowhere(WithIds(w, p, ids), y)
    ensures y !in ids && (y !in Ids(w, p) ==> Nowhere(w, y))
  {
    var w' := WithIds(w, p, ids);
    assert IsPlace(w', p) && Ids(w', p) == ids;
    forall q | IsPlace(w, q) && q != p ensures y !in Ids(w, q) { assert IsPlace(w', q) && Ids(w', q) == Ids(w, q); }
  }

  /** A thread that is nowhere is put at the end of the list that its element knows. */
  method Put(list: ThreadList, elem: Element, ghost g: Setting, ghost w: World, ghost p: Place, ghost x: int,
             ghost xs: set<int>)
    requires Placed(g, w) && LooseBut(g, w, xs) && IsPlace(w, p) && p in g.lists && list == g.lists[p]
    requires x in g.threads && elem == g.threads[x].elem && Nowhere(w, x) && elem.list == list
    modifies list, list.elems`prev, list.elems`next, elem`prev, elem`next
    ensures var w' := WithIds(w, p, Ids(w, p) + [x]); Placed(g, w') && LooseBut(g, w', xs - {x})
  {
    hide Separate, LinkedAt, AllDifferent;
    ghost var ids := Ids(w, p);
    ghost var w' := WithIds(w, p, ids + [x]);
    assert PlaceOk(g, w, p);
    forall y | y in g.threads && y !in ids ensures g.threads[y].elem !in list.elems { OtherElems(g, list, ids, y); }
    forall y | y in g.threads && y != x ensures g.threads[y].elem != elem { OtherElem(g, x, y); }
    label L:
    list.PushBack(elem);
    Elsewhere@L(g, w, p, x);
    PlacedAgain(g, w, p, ids + [x]);
    forall y | y in g.threads && y !in xs - {x} ensures Loose(g, w', y) {
      if Nowhere(w', y) {
        ComesFrom(w, p, ids + [x], y);
        assert old@L(Loose(g, w, y));
      }
    }
  }

  lemma OtherElem(g: Setting, x: int, y: int)
    requires SettingOk(g) && x in g.threads && y in g.threads && x != y
    ensures g.threads[x].elem != g.threads[y].elem
  {
    assert g.threads[x].elem.t == g.threads[x] && g.threads[y].elem.t == g.threads[y];
  }

  /** The element of a thread that is nowhere will be put on `list`. */
  method Rehome(list: ThreadList, elem: Element, ghost g: Setting, ghost w: World, ghost x: int)
    requires Placed(g, w) && LooseBut(g, w, {x}) && x in g.threads && elem == g.threads[x].elem
    requires elem.list == list || (Nowhere(w, x) && elem.prev == null && elem.next == null)
    modifies elem`list
    ensures Placed(g, w) && LooseBut(g, w, {x}) && elem.list == list
  {
    forall p | IsPlace(w, p) ensures PlaceOk(g, w, p)
      ensures elem.list != list ==> elem !in g.lists[p].elems
    {
      assert PlaceOk(g, w, p);
      if elem.list != list { OtherElems(g, g.lists[p], Ids(w, p), x); }
    }
    label L:
    elem.ChangeList(list);
    forall p | IsPlace(w, p) ensures PlaceOk(g, w, p) {
      assert old@L(PlaceOk(g, w, p));
      g.lists[p].Kept@L();
    }
    forall y | y in g.threads && y != x ensures Loose(g, w, y) {
      assert old@L(Loose(g, w, y));
      assert g.threads[y].elem.t == g.threads[y] && g.threads[x].elem.t == g.threads[x];
    }
  }

  /** The flags of thread `x` are those in the world. */
  ghost predicate ThreadIs(thread: KernelThread, c: Core, x: int)
    reads thread
  {
    thread.id == x && (thread.sleeping <==> x in c.asleep) && (thread.inQueue <==> x in c.queued)
  }

  ghost predicate ThreadsAre(g: Setting, c: Core)
    reads set x | x in g.threads :: g.threads[x]
  {
    forall x {:trigger ThreadIs(g.threads[x], c, x)} | x in g.threads :: ThreadIs(g.threads[x], c, x)
  }

  lemma SameThreads(g: Setting, c: Core, c': Core)
    requires ThreadsAre(g, c) && c'.asleep == c.asleep && c'.queued == c.queued
    ensures ThreadsAre(g, c')
  {
    forall x | x in g.threads ensures ThreadIs(g.threads[x], c', x) { assert ThreadIs(g.threads[x], c, x); }
  }

  /** `world` is what the fields stand for. */
  class KernelThreadScheduler {
    const kernelThreadList: ThreadList
    var currentThread: KernelThread
    var numThreads: int
    ghost var setting: Setting
    ghost var semas: map<int, Semaphore>
    ghost var world: World

    ghost function Parts(): set<object>
      reads this
    {
      (set x | x in setting.threads :: setting.threads[x] as object) + (set s | s in semas :: semas[s] as object)
    }

    ghost predicate Fields(w: World)
      reads this, Parts()
    {
      && w.core.current in setting.threads && currentThread == setting.threads[w.core.current]
      && numThreads == w.core.numThreads
      && ThreadsAre(setting, w.core)
      && semas.Keys == w.semas.Keys && (forall s | s in semas :: semas[s].cnt == w.semas[s].cnt)
      && (forall s, r | s in semas && r in semas && s != r :: semas[s] != semas[r])
      && Queue in setting.lists && setting.lists[Queue] == kernelThreadList
      && (forall s | s in semas :: Waiting(s) in setting.lists && setting.lists[Waiting(s)] == semas[s].waiters)
    }

    /** The fields, the threads and the lists are those of `w`; the threads of `xs` may be on
        their way from one list to another. */
    ghost predicate Rep(w: World, xs: set<int>)
      reads this, Parts(), Objects(setting)
    {
      Fields(w) && Placed(setting, w) && LooseBut(setting, w, xs)
    }

    ghost predicate Valid()
      reads this, Parts(), Objects(setting)
    {
      Sound(world) && Rep(world, {})
    }

    /** The first thread runs, and is the only one. */
    constructor (id: int)
      ensures Valid() && setting.threads.Keys == {id} && semas == map[]
      ensures world == World(Core([], id, {}, {}, 0), map[], map[])
    {
      var list := new KernelList<KernelThread?>();
      var thread := new KernelThread(id, list);
      kernelThreadList, currentThread, numThreads := list, thread, 0;
      setting, semas := Setting(map[id := thread], map[Queue := list]), map[];
      world := World(Core([], id, {}, {}, 0), map[], map[]);
      new;
      OnlyThread(id);
    }

    ghost predicate Only(id: int)
      reads this, currentThread, currentThread.elem, kernelThreadList, kernelThreadList.elems
    {
      && kernelThreadList.Valid() && kernelThreadList.elems == [] && numThreads == 0
      && setting == Setting(map[id := currentThread], map[Queue := kernelThreadList]) && semas == map[]
      && world == World(Core([], id, {}, {}, 0), map[], map[])
      && currentThread.id == id && !currentThread.sleeping && !currentThread.inQueue
      && var e := currentThread.elem;
         e.t == currentThread && e.prev == null && e.next == null && e.list == kernelThreadList
    }

    lemma OnlyPlaced(id: int)
      requires Only(id)
      ensures Placed(setting, world) && LooseBut(setting, world, {})
    {
      var g, w := setting, world;
      assert SettingOk(g);
      assert PlaceOk(g, w, Queue);
    }

    lemma OnlyThread(id: int)
      requires Only(id)
      ensures Valid()
    {
      hide Sound, Placed, LooseBut;
      BootedSound(world);
      OnlyPlaced(id);
      assert ThreadIs(setting.threads[id], world.core, id);
    }

    lemma FieldsKept(w: World, p: Place, ids: seq<int>)
      requires Fields(w) && IsPlace(w, p)
      ensures Fields(WithIds(w, p, ids))
    {
      SameThreads(setting, w.core, WithIds(w, p, ids).core);
    }

    // ----- Steps, each with the state that it leads to ----------------------------------

    // What the lists stand for does not depend on the rest.
    lemma PlacedSame(w: World, w': World, xs: set<int>)
      requires Placed(setting, w) && LooseBut(setting, w, xs)
      requires w'.core.ready == w.core.ready && w'.semas.Keys == w.semas.Keys
      requires forall s | s in w.semas :: w'.semas[s].waiters == w.semas[s].waiters
      ensures Placed(setting, w') && LooseBut(setting, w', xs)
    {
      var g := setting;
      assert forall p | IsPlace(w, p) :: IsPlace(w', p) && Ids(w', p) == Ids(w, p);
      assert Separate(w') by {
        forall p, q | IsPlace(w', p) && IsPlace(w', q) && p != q
          ensures forall x | x in Ids(w', p) :: x !in Ids(w', q)
        {
          assert forall x | x in Ids(w, p) :: x !in Ids(w, q);
        }
      }
      forall p | IsPlace(w', p) ensures PlaceOk(g, w', p) { assert PlaceOk(g, w, p); }
      forall x | x in g.threads && x !in xs ensures Loose(g, w', x) {
        assert Loose(g, w, x);
        if Nowhere(w', x) {
          forall p | IsPlace(w, p) ensures x !in Ids(w, p) { assert IsPlace(w', p); }
        }
      }
    }

    method SetInQueue(thread: KernelThread, inQueue: bool, ghost w: World, ghost x: int, ghost xs: set<int>)
      requires Rep(w, xs) && x in setting.threads && thread == setting.threads[x]
      modifies thread`inQueue
      ensures Rep(w.(core := w.core.(queued := if inQueue then w.core.queued + {x} else w.core.queued - {x})), xs)
    {
      hide Placed, LooseBut;
      hide Placed, LooseBut;
      ghost var v := w.(core := w.core.(queued := if inQueue then w.core.queued + {x} else w.core.queued - {x}));
      PlacedSame(w, v, xs);
      assert thread !in Objects(setting);
      label L:
      thread.inQueue := inQueue;
      forall y | y in setting.threads ensures ThreadIs(setting.threads[y], v.core, y) {
        assert old@L(ThreadIs(setting.threads[y], w.core, y)) && old@L(ThreadIs(setting.threads[x], w.core, x));
      }
    }

    method SetSleeping(thread: KernelThread, sleeping: bool, ghost w: World, ghost x: int, ghost xs: set<int>)
      requires Rep(w, xs) && x in setting.threads && thread == setting.threads[x]
      modifies thread`sleeping
      ensures Rep(w.(core := w.core.(asleep := if sleeping then w.core.asleep + {x} else w.core.asleep - {x})), xs)
    {
      hide Placed, LooseBut;
      hide Placed, LooseBut;
      ghost var v := w.(core := w.core.(asleep := if sleeping then w.core.asleep + {x} else w.core.asleep - {x}));
      PlacedSame(w, v, xs);
      assert thread !in Objects(setting);
      label L:
      thread.sleeping := sleeping;
      forall y | y in setting.threads ensures ThreadIs(setting.threads[y], v.core, y) {
        assert old@L(ThreadIs(setting.threads[y], w.core, y)) && old@L(ThreadIs(setting.threads[x], w.core, x));
      }
    }

    method AddThreads(n: int, ghost w: World, ghost xs: set<int>)
      requires Rep(w, xs)
      modifies this`numThreads
      ensures Rep(w.(core := w.core.(numThreads := w.core.numThreads + n)), xs)
    {
      hide Placed, LooseBut;
      ghost var v := w.(core := w.core.(numThreads := w.core.numThreads + n));
      PlacedSame(w, v, xs);
      assert this !in Objects(setting);
      numThreads := numThreads + n;
      SameThreads(setting, w.core, v.core);
    }

    method SetCurrent(thread: KernelThread, ghost w: World, ghost x: int, ghost xs: set<int>)
      requires Rep(w, xs) && x in setting.threads && thread == setting.threads[x]
      modifies this`currentThread
      ensures Rep(w.(core := w.core.(current := x)), xs)
    {
      hide Placed, LooseBut;
      ghost var v := w.(core := w.core.(current := x));
      PlacedSame(w, v, xs);
      assert this !in Objects(setting);
      currentThread := thread;
      SameThreads(setting, w.core, v.core);
    }

    /** The first thread of a list, which is in no list then. */
    method TakeFirst(list: ThreadList, ghost w: World, ghost p: Place, ghost xs: set<int>) returns (elem: Element)
      requires Rep(w, xs) && IsPlace(w, p) && p in setting.lists && list == setting.lists[p] && Ids(w, p) != []
      modifies ThreadLists(setting), ThreadElements(setting)
      ensures var x, w' := Ids(w, p)[0], WithIds(w, p, Ids(w, p)[1..]);
              && Rep(w', xs + {x}) && Nowhere(w', x)
              && x in setting.threads && elem == setting.threads[x].elem && elem.t == setting.threads[x]
              && elem.prev == null && elem.next == null && elem.list == list
    {
      hide LooseBut, Nowhere;
      ListAt(w, p, xs);
      elem := Take(list, setting, w, p, xs);
      FieldsKept(w, p, Ids(w, p)[1..]);
    }

    method PutLast(list: ThreadList, elem: Element, ghost w: World, ghost p: Place, ghost x: int, ghost xs: set<int>)
      requires Rep(w, xs) && IsPlace(w, p) && p in setting.lists && list == setting.lists[p]
      requires x in setting.threads && elem == setting.threads[x].elem && Nowhere(w, x) && elem.list == list
      modifies ThreadLists(setting), ThreadElements(setting)
      ensures Rep(WithIds(w, p, Ids(w, p) + [x]), xs - {x})
    {
      hide LooseBut, Nowhere, Placed;
      ListAt(w, p, xs);
      Put(list, elem, setting, w, p, x, xs);
      FieldsKept(w, p, Ids(w, p) + [x]);
    }

    method Home(list: ThreadList, elem: Element, ghost w: World, ghost x: int)
      requires Rep(w, {x}) && x in setting.threads && elem == setting.threads[x].elem
      requires elem.list == list || (Nowhere(w, x) && elem.prev == null && elem.next == null)
      modifies elem`list
      ensures Rep(w, {x}) && elem.list == list
    {
      hide LooseBut, Nowhere, Placed;
      Rehome(list, elem, setting, w, x);
    }

    // ----- What the fields say ----------------------------------------------------------

    lemma Flags(w: World, x: int, xs: set<int>)
      requires Rep(w, xs) && x in setting.threads
      ensures setting.threads[x].id == x && setting.threads[x].elem.t == setting.threads[x]
      ensures setting.threads[x].sleeping <==> x in w.core.asleep
      ensures setting.threads[x].inQueue <==> x in w.core.queued
    {
      assert ThreadIs(setting.threads[x], w.core, x);
    }

    lemma ListAt(w: World, p: Place, xs: set<int>)
      requires Rep(w, xs) && IsPlace(w, p)
      ensures p in setting.lists && setting.lists[p].size == |Ids(w, p)|
      ensures setting.lists[p].head == null <==> Ids(w, p) == []
      ensures forall x | x in Ids(w, p) :: x in setting.threads
      ensures setting.lists[p] in ThreadLists(setting)
      ensures forall i | 0 <= i < |setting.lists[p].elems| :: setting.lists[p].elems[i] in ThreadElements(setting)
    {
      assert PlaceOk(setting, w, p);
      AmongObjects(setting, setting.lists[p], Ids(w, p));
      forall x | x in Ids(w, p) ensures x in setting.threads {
        var i :| 0 <= i < |Ids(w, p)| && Ids(w, p)[i] == x;
      }
    }

    lemma Settled(w: World, x: int)
      requires Rep(w, {x}) && (x in setting.threads ==> Loose(setting, w, x))
      ensures Rep(w, {})
    {
    }

    lemma Now()
      requires Valid()
      ensures Sound(world) && Rep(world, {}) && world.core.current in setting.threads
      ensures currentThread == setting.threads[world.core.current]
    {
      hide Sound, Placed, LooseBut;
    }

    lemma SemaAt(w: World, s: int, xs: set<int>)
      requires Rep(w, xs) && s in semas
      ensures s in w.semas && semas[s].cnt == w.semas[s].cnt
      ensures Waiting(s) in setting.lists && setting.lists[Waiting(s)] == semas[s].waiters
    {
      hide Placed, LooseBut;
    }

    lemma QueueAt(w: World, xs: set<int>)
      requires Rep(w, xs)
      ensures Queue in setting.lists && setting.lists[Queue] == kernelThreadList
      ensures w.core.current in setting.threads && currentThread == setting.threads[w.core.current]
    {
      hide Placed, LooseBut;
    }

    lemma Unsettled(w: World, x: int)
      requires Rep(w, {})
      ensures Rep(w, {x})
    {
    }

    lemma LooseAt(w: World, x: int)
      requires Rep(w, {}) && x in setting.threads && Nowhere(w, x)
      ensures var e := setting.threads[x].elem; e.prev == null && e.next == null && e.list == kernelThreadList
    {
      assert Loose(setting, w, x);
    }

    lemma Pended(w: World, w': World, xs: set<int>)
      requires Rep(w, xs) && w'.core == w.core && w'.semas == w.semas
      ensures Rep(w', xs)
    {
      hide Placed, LooseBut;
      PlacedSame(w, w', xs);
    }

    // ----- Scheduling -------------------------------------------------------------------

    /** The threads before the first runnable one are dropped. */
    method PopNextThreadToRun(ghost w: World) returns (elem: KernelListElement?<KernelThread?>)
      requires Rep(w, {})
      modifies ThreadLists(setting), ThreadElements(setting)
      ensures match PopNext(w.core.ready, w.core.asleep)
              case Nobody => elem == null && Rep(WithIds(w, Queue, []), {})
              case Thread(x, rest) =>
                && x in setting.threads && elem == setting.threads[x].elem && elem.t == setting.threads[x]
                && Rep(WithIds(w, Queue, rest), {})
    {
      hide Placed, LooseBut, Nowhere;
      ghost var v := w;
      while kernelThreadList.size > 0
        invariant v == WithIds(w, Queue, v.core.ready) && Rep(v, {})
        invariant PopNext(w.core.ready, w.core.asleep) == PopNext(v.core.ready, w.core.asleep)
        decreases |v.core.ready|
      {
        ListAt(v, Queue, {});
        ghost var x := v.core.ready[0];
        var next := TakeFirst(kernelThreadList, v, Queue, {});
        v := WithIds(v, Queue, v.core.ready[1..]);
        assert Loose(setting, v, x);
        OneMore(x);
        Settled(v, x);
        Flags(v, x, {});
        if !next.t.sleeping {
          return next;
        }
      }
      ListAt(v, Queue, {});
      return null;
    }

    /** A thread that has just come off another list, or was never on one, is queued. */
    method EnqueueThread(elem: Element, ghost w: World, ghost x: int)
      requires Rep(w, {x}) && x in setting.threads && elem == setting.threads[x].elem
      requires x !in w.core.queued ==> Nowhere(w, x) && elem.prev == null && elem.next == null
      requires x in w.core.queued ==> Loose(setting, w, x) && elem.list == kernelThreadList
      modifies this`numThreads, Threads()`inQueue, ThreadLists(setting), ThreadElements(setting)
      ensures Rep(w.(core := Enqueue(w.core, x)), {})
    {
      hide Rep, Nowhere;
      QueueAt(w, {x});
      Flags(w, x, {x});
      AddThreads(1, w, {x});
      ghost var v := w.(core := w.core.(numThreads := w.core.numThreads + 1));
      assert Nowhere(w, x) ==> Nowhere(v, x) by { SamePlaces(w, v); }
      Home(kernelThreadList, elem, v, x);
      if !elem.t.inQueue {
        OneMore(x);
        PutLast(elem.list, elem, v, Queue, x, {x});
        v := WithIds(v, Queue, v.core.ready + [x]);
        Flags(v, x, {});
        SetInQueue(elem.t, true, v, x, {});
      } else {
        SamePlaces(w, v);
        QueueAt(v, {x});
        Settled(v, x);
      }
    }

    lemma SamePlaces(w: World, v: World)
      requires v.core.ready == w.core.ready && v.semas == w.semas
      ensures forall p :: IsPlace(v, p) <==> IsPlace(w, p)
      ensures forall p | IsPlace(w, p) :: Ids(v, p) == Ids(w, p)
      ensures forall x :: Nowhere(v, x) <==> Nowhere(w, x)
    {
      assert forall p :: IsPlace(v, p) <==> IsPlace(w, p);
      assert forall p | IsPlace(w, p) :: Ids(v, p) == Ids(w, p);
    }

    ghost function Threads(): set<KernelThread>
      reads this
    {
      set x | x in setting.threads :: setting.threads[x]
    }

    /** The running thread gives way to the next one in the queue. */
    method Yield(ghost w: World)
      requires Rep(w, {})
      requires w.core.current !in w.core.asleep && w.core.current !in w.core.queued ==> Nowhere(w, w.core.current)
      modifies this`currentThread, this`numThreads, Threads()`inQueue, ThreadLists(setting), ThreadElements(setting)
      ensures Rep(w.(core := Scheduling.Yield(w.core)), {})
    {
      hide Rep, Nowhere;
      ghost var cur := w.core.current;
      QueueAt(w, {});
      var next := PopNextThreadToRun(w);
      if next == null {
        return;
      }
      ghost var popped := PopNext(w.core.ready, w.core.asleep);
      ghost var x := popped.thread;
      ghost var v := WithIds(w, Queue, popped.rest);
      Flags(v, cur, {});
      if !currentThread.sleeping && !currentThread.inQueue {
        RestNowhere(w, cur);
        LooseAt(v, cur);
        OneMore(cur);
        PutLast(kernelThreadList, currentThread.elem, v, Queue, cur, {});
        v := WithIds(v, Queue, v.core.ready + [cur]);
        SetInQueue(currentThread, true, v, cur, {});
        v := v.(core := v.core.(queued := v.core.queued + {cur}));
      } else {
        SetInQueue(currentThread, false, v, cur, {});
        v := v.(core := v.core.(queued := v.core.queued - {cur}));
        AddThreads(-1, v, {});
        v := v.(core := v.core.(numThreads := v.core.numThreads - 1));
      }
      Flags(v, x, {});
      SetInQueue(next.t, false, v, x, {});
      v := v.(core := v.core.(queued := v.core.queued - {x}));
      SetCurrent(next.t, v, x, {});
    }

    // ----- Events -----------------------------------------------------------------------

    /** A new thread is not started yet. */
    method NewThread(id: int) returns (thread: KernelThread)
      requires Valid() && id !in setting.threads
      modifies this`setting
      ensures Valid() && fresh(thread) && setting == Setting(old(setting).threads[id := thread], old(setting).lists)
    {
      hide Valid;
      Known();
      thread := new KernelThread(id, kernelThreadList);
      AddThread(thread);
    }

    lemma Known()
      ensures forall o | o in Parts() || o in Objects(setting) :: allocated(o)
    {
    }

    ghost method AddThread(thread: KernelThread)
      requires Valid() && thread.id !in setting.threads && !thread.sleeping && !thread.inQueue
      requires var e := thread.elem; e.t == thread && e.prev == null && e.next == null && e.list == kernelThreadList
      modifies this`setting
      ensures Valid() && setting == Setting(old(setting).threads[thread.id := thread], old(setting).lists)
    {
      hide Sound, Separate, SettingOk, KernelList.Valid;
      ghost var g, w, id := setting, world, thread.id;
      UnknownNowhere(id);
      MoreThreads(g, id, thread);
      forall p | IsPlace(w, p) ensures PlaceOk(g, w, p) {}
      label L:
      setting := Setting(g.threads[id := thread], g.lists);
      forall p | IsPlace(w, p) ensures PlaceOk(setting, w, p) { assert old@L(PlaceOk(g, w, p)); }
      forall x | x in setting.threads ensures Loose(setting, w, x) && ThreadIs(setting.threads[x], w.core, x) {
        if x != id { assert old@L(Loose(g, w, x)) && old@L(ThreadIs(g.threads[x], w.core, x)); }
      }
    }

    /** A new semaphore, which nobody waits for. */
    method NewSemaphore(cnt: int, ghost s: int) returns (sema: Semaphore)
      requires Valid() && s !in semas && cnt >= 0
      modifies this`setting, this`semas, this`world
      ensures Valid() && fresh(sema) && semas == old(semas)[s := sema]
      ensures world == old(world).(semas := old(world).semas[s := Sema(cnt, [])])
    {
      hide Valid;
      Known();
      sema := new Semaphore(cnt);
      AddSemaphore(sema, s);
    }

    ghost method AddSemaphore(sema: Semaphore, s: int)
      requires Valid() && s !in semas && sema.cnt >= 0 && sema.waiters.Valid() && sema.waiters.elems == []
      requires sema.waiters != kernelThreadList && sema.waiters !in setting.lists.Values
      requires forall r | r in semas :: semas[r] != sema
      modifies this`setting, this`semas, this`world
      ensures Valid() && semas == old(semas)[s := sema]
      ensures world == old(world).(semas := old(world).semas[s := Sema(sema.cnt, [])])
    {
      hide Sound, KernelList.Valid, Placed, LooseBut;
      ghost var g, w := setting, world;
      ghost var v := w.(semas := w.semas[s := Sema(sema.cnt, [])]);
      ghost var g' := Setting(g.threads, g.lists[Waiting(s) := sema.waiters]);
      SemaAddedSound(w, s, sema.cnt);
      PlacedMore(g, w, s, sema);
      assert this !in Objects(g');
      setting, semas, world := g', semas[s := sema], v;
    }

    /** Threads that are not there are in no list, not asleep and not flagged. */
    lemma UnknownNowhere(x: int)
      requires Valid() && x !in setting.threads
      ensures x !in world.core.asleep && x !in world.core.queued && Nowhere(world, x)
    {
      hide Placed, LooseBut;
      forall p | IsPlace(world, p) ensures x !in Ids(world, p) { ListAt(world, p, {}); }
      assert IsPlace(world, Queue) && x !in Ids(world, Queue);
      assert Waits(world, x);
      forall s ensures !WaitsAt(world, x, s) {
        if s in world.semas { assert x !in Ids(world, Waiting(s)); }
      }
    }

    /** The element of a thread is in one list at most, and in no list it is linked to nothing;
        every list is linked from end to end. */
    lemma InOneList(x: int)
      requires Valid() && x in setting.threads
      ensures forall p | IsPlace(world, p) ::
                && p in setting.lists && setting.lists[p].Valid()
                && (setting.threads[x].elem in setting.lists[p].elems <==> x in Ids(world, p))
      ensures forall p, q | IsPlace(world, p) && IsPlace(world, q) && p in setting.lists && q in setting.lists ::
                setting.threads[x].elem in setting.lists[p].elems && setting.threads[x].elem in setting.lists[q].elems
                ==> p == q
      ensures (forall p | IsPlace(world, p) && p in setting.lists :: setting.threads[x].elem !in setting.lists[p].elems)
              ==> setting.threads[x].elem.prev == null && setting.threads[x].elem.next == null
    {
      hide Sound;
      var e := setting.threads[x].elem;
      forall p | IsPlace(world, p)
        ensures p in setting.lists && setting.lists[p].Valid() && (e in setting.lists[p].elems <==> x in Ids(world, p))
      {
        assert PlaceOk(setting, world, p);
        if x in Ids(world, p) {
          var i :| 0 <= i < |Ids(world, p)| && Ids(world, p)[i] == x;
          assert setting.lists[p].elems[i] == e;
        } else {
          OtherElems(setting, setting.lists[p], Ids(world, p), x);
        }
      }
      assert Loose(setting, world, x);
    }

    /** A yield from the timer. */
    method Tick()
      requires Valid()
      modifies this, Threads(), ThreadLists(setting), ThreadElements(setting)
      ensures Valid() && world == Step(old(world), Event.Tick) && setting == old(setting) && semas == old(semas)
    {
      hide Sound, Rep, Valid, Scheduling.Yield, Nowhere;
      ghost var w := world;
      Now();
      CurrentNowhere(w);
      Yield(w);
      ghost var v := Step(w, Event.Tick);
      StepSound(w, Event.Tick);
      Become(v);
    }

    /** The fields stand for `v` already. */
    ghost method Become(v: World)
      requires Rep(v, {}) && Sound(v)
      modifies this`world
      ensures Valid() && world == v
    {
      hide Sound, Placed, LooseBut;
      assert this !in Objects(setting);
      world := v;
    }

    method Start(thread: KernelThread)
      requires Valid() && thread.id in setting.threads && thread == setting.threads[thread.id]
      requires Legal(world, Event.Start(thread.id))
      modifies this, Threads(), ThreadLists(setting), ThreadElements(setting)
      ensures Valid() && world == Step(old(world), Event.Start(thread.id))
      ensures setting == old(setting) && semas == old(semas)
    {
      hide Sound, Enqueue, Rep, Valid, Loose, Nowhere;
      ghost var w, x := world, thread.id;
      Now();
      NewNowhere(w, x);
      LooseAt(w, x);
      Unsettled(w, x);
      EnqueueThread(thread.elem, w, x);
      StepSound(w, Event.Start(x));
      Become(Step(w, Event.Start(x)));
    }
  }

  lemma PlacedMore(g: Setting, w: World, s: int, sema: Semaphore)
    requires Placed(g, w) && LooseBut(g, w, {}) && s !in w.semas && Queue in g.lists
    requires sema.waiters.Valid() && sema.waiters.elems == [] && sema.waiters !in g.lists.Values
    ensures var g', v := Setting(g.threads, g.lists[Waiting(s) := sema.waiters]),
                         w.(semas := w.semas[s := Sema(sema.cnt, [])]);
            Placed(g', v) && LooseBut(g', v, {})
  {
    hide KernelList.Valid, Separate, SettingOk, Nowhere, IsPlace, Ids;
    var g', v := Setting(g.threads, g.lists[Waiting(s) := sema.waiters]), w.(semas := w.semas[s := Sema(sema.cnt, [])]);
    MorePlaces(w, s, sema.cnt);
    MoreLists(g, Waiting(s), sema.waiters);
    forall p | IsPlace(v, p) ensures PlaceOk(g', v, p) {
      if p != Waiting(s) { assert PlaceOk(g, w, p); }
    }
    forall x | x in g.threads ensures Loose(g', v, x) { assert Loose(g, w, x); }
  }

  lemma SemaAddedSound(w: World, s: int, cnt: int)
    requires Sound(w) && s !in w.semas && cnt >= 0
    ensures Sound(w.(semas := w.semas[s := Sema(cnt, [])]))
  {
    var v := w.(semas := w.semas[s := Sema(cnt, [])]);
    forall r | r in v.semas ensures SemaOk(v, r) {
      if r != s { assert SemaOk(w, r) && Scheduling.Woken(v, r) == Scheduling.Woken(w, r); }
    }
    forall r, q | r in v.semas && q in v.semas ensures Apart(v, r, q) {
      if r != s && q != s { assert Apart(w, r, q); }
    }
    forall t ensures Waits(v, t) {
      assert Waits(w, t);
      if r :| WaitsAt(w, t, r) { assert WaitsAt(v, t, r); }
    }
    forall t | t in v.pending ensures PendingOk(v, t) { assert PendingOk(w, t); }
  }

  lemma CurrentNowhere(w: World)
    requires Sound(w)
    ensures w.core.current !in w.core.asleep && w.core.current !in w.core.queued && Nowhere(w, w.core.current)
  {
    forall p | IsPlace(w, p) ensures w.core.current !in Ids(w, p) {
      if p.Waiting? { assert SemaOk(w, p.sema); }
    }
  }

  lemma NewNowhere(w: World, x: int)
    requires Sound(w) && Legal(w, Event.Start(x))
    ensures Nowhere(w, x) && x !in w.core.queued
  {
    forall p | IsPlace(w, p) ensures x !in Ids(w, p) {
      if p.Waiting? { assert SemaOk(w, p.sema); }
    }
  }

  lemma WaiterNotQueued(w: World, s: int)
    requires Sound(w) && s in w.semas && w.semas[s].waiters != []
    ensures w.semas[s].waiters[0] !in w.core.queued
  {
    assert SemaOk(w, s) && w.semas[s].waiters[0] in w.semas[s].waiters;
  }

  lemma OneMore(x: int)
    ensures {} + {x} == {x} && {x} - {x} == {} && {} - {x} == {}
  {
  }

  lemma {:induction false} RestWithin(ready: seq<int>, asleep: set<int>)
    ensures var n := PopNext(ready, asleep); n.Thread? ==> forall x | x in n.rest :: x in ready
  {
    if ready != [] { RestWithin(ready[1..], asleep); }
  }

  lemma RestNowhere(w: World, x: int)
    requires Nowhere(w, x)
    ensures var n := PopNext(w.core.ready, w.core.asleep); n.Thread? ==> Nowhere(WithIds(w, Queue, n.rest), x)
  {
    RestWithin(w.core.ready, w.core.asleep);
    assert IsPlace(w, Queue) && x !in Ids(w, Queue);
    var n := PopNext(w.core.ready, w.core.asleep);
    if n.Thread? {
      var v := WithIds(w, Queue, n.rest);
      forall p | IsPlace(v, p) ensures x !in Ids(v, p) { assert IsPlace(w, p) && x !in Ids(w, p); }
    }
  }

  class Semaphore {
    var cnt: int
    const waiters: ThreadList

    constructor (cnt: int)
      ensures this.cnt == cnt && fresh(waiters) && waiters.Valid() && waiters.elems == []
    {
      this.cnt := cnt;
      waiters := new KernelList<KernelThread?>();
    }

    method AddCount(n: int, scheduler: KernelThreadScheduler, ghost w: World, ghost s: int)
      requires scheduler.Rep(w, {}) && s in scheduler.semas && scheduler.semas[s] == this
      modifies this`cnt
      ensures s in w.semas && scheduler.Rep(Counted(w, s, n), {})
    {
      hide Placed, LooseBut;
      ghost var v := Counted(w, s, n);
      scheduler.PlacedSame(w, v, {});
      assert this !in Objects(scheduler.setting);
      cnt := cnt + n;
    }

    /** The first waiter is woken and queued. */
    method Wake(scheduler: KernelThreadScheduler, ghost w: World, ghost s: int)
      requires scheduler.Rep(w, {}) && s in scheduler.semas && scheduler.semas[s] == this
      requires s in w.semas && w.semas[s].waiters != [] && w.semas[s].waiters[0] !in w.core.queued
      modifies scheduler`numThreads, scheduler.Threads()`inQueue, scheduler.Threads()`sleeping
      modifies ThreadLists(scheduler.setting), ThreadElements(scheduler.setting)
      ensures scheduler.Rep(Roused(w, s), {})
    {
      hide Nowhere, Enqueue, KernelThreadScheduler.Rep;
      ghost var x := w.semas[s].waiters[0];
      scheduler.SemaAt(w, s, {});
      OneMore(x);
      var elem := scheduler.TakeFirst(waiters, w, Waiting(s), {});
      ghost var v := WithIds(w, Waiting(s), w.semas[s].waiters[1..]);
      scheduler.SetSleeping(elem.t, false, v, x, {x});
      ghost var u := v.(core := v.core.(asleep := v.core.asleep - {x}));
      scheduler.SamePlaces(v, u);
      scheduler.EnqueueThread(elem, u, x);
    }

    /** The first waiter, if any, is woken and queued. */
    method Up(scheduler: KernelThreadScheduler, ghost s: int)
      requires scheduler.Valid() && s in scheduler.semas && scheduler.semas[s] == this
      modifies this, scheduler, scheduler.Threads(), ThreadLists(scheduler.setting), ThreadElements(scheduler.setting)
      ensures scheduler.Valid() && s in old(scheduler.world).semas
      ensures scheduler.world == Step(old(scheduler.world), Event.Up(s))
      ensures scheduler.setting == old(scheduler.setting) && scheduler.semas == old(scheduler.semas)
    {
      hide Sound, Nowhere, Roused, Step, Counted, KernelThreadScheduler.Rep, KernelThreadScheduler.Valid;
      ghost var w := scheduler.world;
      scheduler.Now();
      scheduler.SemaAt(w, s, {});
      UpLeads(w, s);
      AddCount(1, scheduler, w, s);
      ghost var v := Counted(w, s, 1);
      scheduler.ListAt(v, Waiting(s), {});
      scheduler.SemaAt(v, s, {});
      if waiters.head != null {
        WaiterNotQueued(w, s);
        Wake(scheduler, v, s);
        v := Roused(v, s);
      }
      StepSound(w, Event.Up(s));
      scheduler.Pended(v, Step(w, Event.Up(s)), {});
      scheduler.Become(Step(w, Event.Up(s)));
    }

    /** The running thread goes to sleep as the last waiter. */
    method Block(scheduler: KernelThreadScheduler, ghost w: World, ghost s: int)
      requires scheduler.Rep(w, {}) && s in scheduler.semas && scheduler.semas[s] == this
      requires s in w.semas && Nowhere(w, w.core.current)
      modifies scheduler.Threads()`sleeping, ThreadLists(scheduler.setting), ThreadElements(scheduler.setting)
      ensures scheduler.Rep(Blocked(w, s), {})
    {
      hide Nowhere, KernelThreadScheduler.Rep;
      ghost var x := w.core.current;
      scheduler.QueueAt(w, {});
      scheduler.LooseAt(w, x);
      var current := scheduler.currentThread;
      scheduler.SetSleeping(current, true, w, x, {});
      ghost var v := w.(core := w.core.(asleep := w.core.asleep + {x}));
      scheduler.SamePlaces(w, v);
      scheduler.Unsettled(v, x);
      scheduler.SemaAt(v, s, {x});
      scheduler.Home(waiters, current.elem, v, x);
      OneMore(x);
      scheduler.PutLast(waiters, current.elem, v, Waiting(s), x, {x});
    }

    /** If there is another thread to run, it does, and this one sleeps. */
    method GiveWay(scheduler: KernelThreadScheduler, ghost w: World, ghost s: int)
      requires scheduler.Rep(w, {}) && s in scheduler.semas && scheduler.semas[s] == this
      requires s in w.semas && Nowhere(w, w.core.current)
      modifies scheduler`currentThread, scheduler`numThreads, scheduler.Threads()`inQueue, scheduler.Threads()`sleeping
      modifies ThreadLists(scheduler.setting), ThreadElements(scheduler.setting)
      ensures var v := if w.core.ready != [] then Blocked(w, s) else w;
              scheduler.Rep(v.(core := Scheduling.Yield(v.core)), {})
    {
      hide Nowhere, Blocked, Scheduling.Yield, KernelThreadScheduler.Rep;
      scheduler.ListAt(w, Queue, {});
      scheduler.QueueAt(w, {});
      if scheduler.kernelThreadList.size > 0 {
        Block(scheduler, w, s);
        BlockedCurrent(w, s);
        scheduler.Yield(Blocked(w, s));
      } else {
        scheduler.Yield(w);
      }
    }

    /** One pass of the loop in Down, up to the end of the yield. */
    method TryDown(scheduler: KernelThreadScheduler, ghost s: int) returns (acquired: bool)
      requires scheduler.Valid() && s in scheduler.semas && scheduler.semas[s] == this
      requires Legal(scheduler.world, Event.Down(s))
      modifies this, scheduler, scheduler.Threads(), ThreadLists(scheduler.setting), ThreadElements(scheduler.setting)
      ensures scheduler.Valid() && scheduler.world == Step(old(scheduler.world), Event.Down(s))
      ensures scheduler.setting == old(scheduler.setting) && scheduler.semas == old(scheduler.semas)
      ensures acquired <==> old(cnt) > 0
    {
      hide Sound, Nowhere, Blocked, Step, Counted, Scheduling.Yield;
      hide KernelThreadScheduler.Rep, KernelThreadScheduler.Valid;
      ghost var w := scheduler.world;
      scheduler.Now();
      scheduler.SemaAt(w, s, {});
      DownLeads(w, s);
      StepSound(w, Event.Down(s));
      acquired := cnt > 0;
      ghost var v := w;
      if cnt > 0 {
        AddCount(-1, scheduler, w, s);
        v := Counted(w, s, -1);
      } else {
        CurrentNowhere(w);
        GiveWay(scheduler, w, s);
        v := if w.core.ready != [] then Blocked(w, s) else w;
        v := v.(core := Scheduling.Yield(v.core));
      }
      scheduler.Pended(v, Step(w, Event.Down(s)), {});
      scheduler.Become(Step(w, Event.Down(s)));
    }
  }

  // ----- The parts of Up and Down -------------------------------------------------------

  function Counted(w: World, s: int, n: int): World
    requires s in w.semas
  {
    w.(semas := w.semas[s := w.semas[s].(cnt := w.semas[s].cnt + n)])
  }

  /** The first waiter is marked as runnable and queued. */
  function Roused(w: World, s: int): World
    requires s in w.semas && w.semas[s].waiters != []
  {
    var x, v := w.semas[s].waiters[0], WithIds(w, Waiting(s), w.semas[s].waiters[1..]);
    v.(core := Enqueue(v.core.(asleep := v.core.asleep - {x}), x))
  }

  /** The running thread is marked as sleeping and waits. */
  function Blocked(w: World, s: int): World
    requires s in w.semas
  {
    var x := w.core.current;
    WithIds(w.(core := w.core.(asleep := w.core.asleep + {x})), Waiting(s), w.semas[s].waiters + [x])
  }

  lemma BlockedCurrent(w: World, s: int)
    requires s in w.semas
    ensures Blocked(w, s).core.current in Blocked(w, s).core.asleep
  {
  }

  lemma UpLeads(w: World, s: int)
    requires s in w.semas
    ensures var v, t := Counted(w, s, 1), Step(w, Event.Up(s));
            && s in v.semas && v.semas[s].waiters == w.semas[s].waiters && v.core == w.core
            && var u := if w.semas[s].waiters == [] then v else Roused(v, s);
               t.core == u.core && t.semas == u.semas
  {
    hide Enqueue;
  }

  lemma DownLeads(w: World, s: int)
    requires Legal(w, Event.Down(s))
    ensures var t := Step(w, Event.Down(s));
            if w.semas[s].cnt > 0 then t.core == Counted(w, s, -1).core && t.semas == Counted(w, s, -1).semas
            else
              var u := if w.core.ready != [] then Blocked(w, s) else w;
              t.core == Scheduling.Yield(u.core) && t.semas == u.semas
  {
    hide Scheduling.Yield;
  }
}
