/** The intrusive doubly linked list under the scheduling queue and the waiters of a
    semaphore. */
module KernelLists {

  class KernelListElement<T> {
    var prev: KernelListElement?<T>
    var next: KernelListElement?<T>
    var t: T
    // The list that the element is pushed to.
    var list: KernelList?<T>

    constructor (t: T, list: KernelList?<T>)
      ensures prev == null && next == null && this.t == t && this.list == list
    {
      prev, next := null, null;
      this.t := t;
      this.list := list;
    }

    method Set(t: T)
      modifies this`t
      ensures this.t == t
    {
      this.t := t;
    }

    /** An element that is linked to others keeps its list. */
    method ChangeList(list: KernelList<T>)
      modifies this`list
      ensures this.list == if prev == null && next == null then list else old(this.list)
    {
      if prev != null || next != null {
        return;
      }
      this.list := list;
    }

    method PushBack()
      requires list != null && list.Valid() && this !in list.elems
      modifies list, list.elems`prev, list.elems`next, this`prev, this`next
      ensures list.Valid() && list.elems == old(list.elems) + [this]
    {
      list.PushBack(this);
    }

    /** The neighbours are linked to each other, and this element to nothing. */
    method Detach()
      requires prev != this && next != this
      modifies this`prev, this`next
      modifies (if prev == null then {} else {prev})`next, (if next == null then {} else {next})`prev
      ensures prev == null && next == null
      ensures old(prev) != null ==> old(prev).next == old(next)
      ensures old(next) != null ==> old(next).prev == old(prev)
    {
      if prev != null {
        prev.next := next;
      }
      if next != null {
        next.prev := prev;
      }
      prev, next := null, null;
    }
  }

  ghost predicate LinkedAt<T>(s: seq<KernelListElement<T>>, i: nat)
    requires i < |s|
    reads s
  {
    && s[i].prev == (if i == 0 then null else s[i - 1])
    && s[i].next == (if i + 1 == |s| then null else s[i + 1])
  }

  ghost predicate AllDifferent<T>(s: seq<KernelListElement<T>>) {
    forall i, j | 0 <= i < j < |s| :: s[i] != s[j]
  }

  class KernelList<T> {
    var head: KernelListElement?<T>
    var tail: KernelListElement?<T>
    var size: int
    ghost var elems: seq<KernelListElement<T>>

    /** `elems` is the list, first to last. */
    ghost predicate Valid()
      reads this, elems
    {
      && AllDifferent(elems)
      && (forall i {:trigger LinkedAt(elems, i)} | 0 <= i < |elems| :: LinkedAt(elems, i))
      && head == (if elems == [] then null else elems[0])
      && tail == (if elems == [] then null else elems[|elems| - 1])
      && size == |elems|
    }

    constructor ()
      ensures Valid() && elems == []
    {
      head, tail, size, elems := null, null, 0, [];
    }

    method PushFront(elem: KernelListElement<T>)
      requires Valid() && elem !in elems
      modifies this, elems`prev, elems`next, elem`prev, elem`next
      ensures Valid() && elems == [elem] + old(elems)
    {
      ghost var s := elems;
      size := size + 1;
      if head == null {
        head, tail := elem, elem;
        elem.prev, elem.next := null, null;
      } else {
        assert LinkedAt(s, 0);
        head.prev := elem;
        elem.next := head;
        elem.prev := null;
        head := elem;
      }
      elems := [elem] + s;
      forall i | 0 <= i < |elems| ensures LinkedAt(elems, i) {
        if i > 0 { assert old(LinkedAt(s, i - 1)); }
      }
    }

    method PushBack(elem: KernelListElement<T>)
      requires Valid() && elem !in elems
      modifies this, elems`prev, elems`next, elem`prev, elem`next
      ensures Valid() && elems == old(elems) + [elem]
    {
      ghost var s := elems;
      size := size + 1;
      if head == null {
        head, tail := elem, elem;
        elem.prev, elem.next := null, null;
      } else {
        assert LinkedAt(s, |s| - 1);
        tail.next := elem;
        elem.prev := tail;
        elem.next := null;
        tail := elem;
      }
      elems := s + [elem];
      forall i | 0 <= i < |elems| ensures LinkedAt(elems, i) {
        if i < |s| { assert old(LinkedAt(s, i)); }
      }
    }

    method PopFront() returns (elem: KernelListElement?<T>)
      requires Valid()
      modifies this, elems`prev, elems`next
      ensures Valid()
      ensures old(elems) == [] ==> elem == null && elems == []
      ensures old(elems) != [] ==>
                && elem == old(elems)[0] && elems == old(elems)[1..]
                && elem.prev == null && elem.next == null
    {
      ghost var s := elems;
      if head == null {
        return null;
      }
      size := size - 1;
      assert LinkedAt(s, 0);
      var newHead := head.next;
      elem := head;
      Differ(s);
      elem.Detach();
      if newHead == null {
        head, tail := null, null;
      } else {
        head := newHead;
      }
      elems := s[1..];
      forall i | 0 <= i < |elems| ensures LinkedAt(elems, i) {
        assert old(LinkedAt(s, i + 1));
      }
    }

    method PopBack() returns (elem: KernelListElement?<T>)
      requires Valid()
      modifies this, elems`prev, elems`next
      ensures Valid()
      ensures old(elems) == [] ==> elem == null && elems == []
      ensures old(elems) != [] ==>
                var n := |old(elems)| - 1;
                && elem == old(elems)[n] && elems == old(elems)[..n]
                && elem.prev == null && elem.next == null
    {
      ghost var s := elems;
      if head == null {
        return null;
      }
      size := size - 1;
      assert LinkedAt(s, |s| - 1);
      var newTail := tail.prev;
      elem := tail;
      Differ(s);
      elem.Detach();
      if newTail == null {
        head, tail := null, null;
      } else {
        tail := newTail;
      }
      elems := s[..|s| - 1];
      forall i | 0 <= i < |elems| ensures LinkedAt(elems, i) {
        assert old(LinkedAt(s, i));
      }
    }

    /** A list is as it was if its links are. */
    twostate lemma Kept()
      requires old(Valid()) && unchanged(this)
      requires forall e | e in elems :: unchanged(e`prev) && unchanged(e`next)
      ensures Valid()
    {
      forall i | 0 <= i < |elems| ensures LinkedAt(elems, i) {
        assert old(LinkedAt(elems, i)) && elems[i] in elems;
      }
    }

    /** The element leaves the list, wherever it is in it. */
    method RemoveSelf(elem: KernelListElement<T>)
      requires Valid() && elem in elems
      modifies this, elems`prev, elems`next
      ensures Valid() && elem.prev == null && elem.next == null
      ensures exists k | 0 <= k < |old(elems)| ::
                old(elems)[k] == elem && elems == old(elems)[..k] + old(elems)[k + 1..]
    {
      hide AllDifferent;
      ghost var s := elems;
      ghost var k :| 0 <= k < |s| && s[k] == elem;
      assert LinkedAt(s, k);
      Differ(s);
      WithoutOne(s, k);
      if head == elem {
        head := elem.next;
      }
      if tail == elem {
        tail := elem.prev;
      }
      size := size - 1;
      elem.Detach();
      LinkedAround(k);
      elems := s[..k] + s[k + 1..];
    }

    /** The other elements, once the neighbours of element `k` are linked to each other. */
    twostate lemma LinkedAround(k: nat)
      requires old(Valid()) && k < |elems| && elems == old(elems)
      requires k > 0 ==> elems[k - 1].next == old(elems[k].next)
      requires k + 1 < |elems| ==> elems[k + 1].prev == old(elems[k].prev)
      requires forall i | 0 <= i < |elems| && i != k && i != k - 1 :: elems[i].next == old(elems[i].next)
      requires forall i | 0 <= i < |elems| && i != k && i != k + 1 :: elems[i].prev == old(elems[i].prev)
      ensures var r := elems[..k] + elems[k + 1..];
              forall i {:trigger LinkedAt(r, i)} | 0 <= i < |r| :: LinkedAt(r, i)
    {
      var r := elems[..k] + elems[k + 1..];
      assert old(LinkedAt(elems, k));
      forall i | 0 <= i < |r| ensures LinkedAt(r, i) {
        assert old(LinkedAt(elems, if i < k then i else i + 1));
      }
    }
  }

  lemma WithoutOne<T>(s: seq<KernelListElement<T>>, k: nat)
    requires k < |s| && AllDifferent(s)
    ensures AllDifferent(s[..k] + s[k + 1..])
  {
    var r := s[..k] + s[k + 1..];
    forall i, j | 0 <= i < j < |r| ensures r[i] != r[j] {
      assert r[i] == s[if i < k then i else i + 1] && r[j] == s[if j < k then j else j + 1];
    }
  }

  lemma Differ<T>(s: seq<KernelListElement<T>>)
    requires AllDifferent(s)
    ensures forall i, j | 0 <= i < |s| && 0 <= j < |s| && i != j :: s[i] != s[j]
  {
  }
}
