/** One free list of the frame allocator: a circular doubly linked list of descriptors. */
module FrameRing {
  import opened Lists

  class FrameDescriptor {
    // Offset of the block from the start of the arena.
    const page: int
    var prev: FrameDescriptor?
    var next: FrameDescriptor?

    constructor (page: int)
      ensures this.page == page && prev == null && next == null
    {
      this.page := page;
      prev, next := null, null;
    }
  }

  function Succ(n: nat, i: nat): nat { if i + 1 == n then 0 else i + 1 }

  function Pred(n: nat, i: nat): int { if i == 0 then n - 1 else i - 1 }

  ghost predicate LinkedAt(s: seq<FrameDescriptor>, i: nat)
    requires i < |s|
    reads s
  {
    s[i].next == s[Succ(|s|, i)] && s[i].prev == s[Pred(|s|, i)]
  }

  /** `s` is linked into a circle. */
  ghost predicate Circular(s: seq<FrameDescriptor>)
    reads s
  {
    forall i {:trigger LinkedAt(s, i)} | 0 <= i < |s| :: LinkedAt(s, i)
  }

  ghost predicate AllDifferent(s: seq<FrameDescriptor>) {
    forall i, j | 0 <= i < j < |s| :: s[i] != s[j]
  }

  ghost function Pages(s: seq<FrameDescriptor>): (r: seq<int>)
    ensures |r| == |s| && forall i | 0 <= i < |s| :: r[i] == s[i].page
  {
    if s == [] then [] else [s[0].page] + Pages(s[1..])
  }

  lemma PagesUnique(s: seq<FrameDescriptor>, r: seq<int>)
    requires |r| == |s| && forall i | 0 <= i < |s| :: r[i] == s[i].page
    ensures r == Pages(s)
  {
  }

  lemma RemoveAtPages(s: seq<FrameDescriptor>, k: nat)
    requires k < |s|
    ensures Pages(RemoveAt(s, k)) == RemoveAt(Pages(s), k)
  {
    hide Pages;
    PagesUnique(RemoveAt(s, k), RemoveAt(Pages(s), k));
  }

  lemma RemoveAtDifferent(s: seq<FrameDescriptor>, k: nat)
    requires k < |s| && AllDifferent(s)
    ensures AllDifferent(RemoveAt(s, k))
  {
    var r := RemoveAt(s, k);
    forall i, j | 0 <= i < j < |r| ensures r[i] != r[j] {
      assert r[i] == s[if i < k then i else i + 1] && r[j] == s[if j < k then j else j + 1];
    }
  }

  /** The neighbours of node `k` are wired together, and no other link has changed. */
  twostate predicate Bridged(s: seq<FrameDescriptor>, k: nat)
    requires k < |s|
    reads s
  {
    var p, q := s[Pred(|s|, k)], s[Succ(|s|, k)];
    && (|s| > 1 ==> p.next == q && q.prev == p)
    && (forall d | d in s && d != p :: d.next == old(d.next))
    && (forall d | d in s && d != q :: d.prev == old(d.prev))
  }

  lemma TailPages(s: seq<FrameDescriptor>)
    requires s != []
    ensures Pages(s[1..]) == Pages(s)[1..]
    ensures AllDifferent(s) ==> AllDifferent(s[1..])
  {
    PagesUnique(s[1..], Pages(s)[1..]);
  }

  class FreeList {
    var head: FrameDescriptor?
    ghost var nodes: seq<FrameDescriptor>

    ghost predicate Valid()
      reads this, nodes
    {
      && Circular(nodes)
      && AllDifferent(nodes)
      && head == (if nodes == [] then null else nodes[0])
    }

    ghost function Contents(): seq<int>
      reads this
    {
      Pages(nodes)
    }

    constructor ()
      ensures Valid() && nodes == []
    {
      head, nodes := null, [];
    }

    /** A block joins the list at its end. */
    method Add(page: int)
      requires Valid()
      modifies this, nodes
      ensures Valid() && Contents() == old(Contents()) + [page]
      ensures |nodes| == |old(nodes)| + 1 && nodes[..|old(nodes)|] == old(nodes)
      ensures fresh(nodes[|old(nodes)|])
    {
      var desc := new FrameDescriptor(page);
      ghost var s, n := nodes, |nodes|;
      if head != null {
        var currentHead := head;
        assert LinkedAt(s, 0) && LinkedAt(s, n - 1);
        desc.next := currentHead;
        desc.prev := currentHead.prev;
        currentHead.prev.next := desc;
        currentHead.prev := desc;
      } else {
        head := desc;
        desc.next := desc;
        desc.prev := desc;
      }
      nodes := s + [desc];
      forall i | 0 <= i < |nodes| ensures LinkedAt(nodes, i) {
        if i < n { assert old(LinkedAt(s, i)); }
      }
      PagesUnique(nodes, old(Contents()) + [page]);
    }

    method RemoveFirst() returns (first: FrameDescriptor)
      requires Valid() && nodes != []
      modifies this, nodes
      ensures Valid() && nodes == old(nodes)[1..]
      ensures first == old(nodes)[0] && first.page == old(Contents())[0] && Contents() == old(Contents())[1..]
    {
      hide AllDifferent, Pages;
      ghost var s, n := nodes, |nodes|;
      Differ(s);
      TailPages(s);
      assert LinkedAt(s, 0);
      assert n > 1 ==> LinkedAt(s, 1) && LinkedAt(s, n - 1);
      first := head;
      head := first.next;
      if head == first {
        head := null;
      } else if head != null {
        var newFirst := head;
        newFirst.prev := first.prev;
        first.prev.next := newFirst;
      }
      nodes := s[1..];
      forall i | 0 <= i < |nodes| ensures LinkedAt(nodes, i) {
        assert old(LinkedAt(s, i + 1));
      }
    }

    /** The descriptor of a block in the list; null if it is not there. */
    method Find(page: int) returns (desc: FrameDescriptor?)
      requires Valid()
      ensures desc != null <==> page in Contents()
      ensures desc != null ==> desc in nodes && desc.page == page
    {
      var curr := head;
      if curr == null {
        return null;
      }
      ghost var k := 0;
      while true
        invariant 0 <= k < |nodes| && curr == nodes[k]
        invariant forall i | 0 <= i < k :: nodes[i].page != page
        decreases |nodes| - k
      {
        assert LinkedAt(nodes, k);
        if curr.page == page {
          assert Contents()[k] == page;
          return curr;
        }
        curr := curr.next;
        if curr == head || curr == null {
          break;
        }
        k := k + 1;
      }
      assert k == |nodes| - 1;
      return null;
    }

    /** The neighbours of a descriptor are wired together. */
    method Unlink(desc: FrameDescriptor, ghost k: nat)
      requires Valid() && k < |nodes| && nodes[k] == desc
      modifies nodes
      ensures Bridged(nodes, k)
      ensures |nodes| == 1 ==> desc.next == desc
    {
      assert LinkedAt(nodes, k);
      if desc.prev != null {
        desc.prev.next := desc.next;
      }
      if desc.next != null {
        desc.next.prev := desc.prev;
      }
    }

    lemma Neighbours(k: nat)
      requires Valid() && k < |nodes|
      ensures nodes[k].next == nodes[Succ(|nodes|, k)]
      ensures nodes[k].next == nodes[k] <==> |nodes| == 1
      ensures |nodes| > 1 ==> nodes[k] != nodes[Pred(|nodes|, k)]
      ensures head == nodes[k] <==> k == 0
    {
      assert LinkedAt(nodes, k);
      Differ(nodes);
    }

    /** The nodes without the one at `k`, whose neighbours are wired together, are a circle. */
    twostate lemma Rewired(k: nat)
      requires old(Valid()) && k < |nodes| && nodes == old(nodes) && Bridged(nodes, k)
      ensures Circular(RemoveAt(nodes, k))
    {
      hide AllDifferent, RemoveAt;
      Differ(nodes);
      var r, n := RemoveAt(nodes, k), |nodes|;
      forall i | 0 <= i < |r| ensures LinkedAt(r, i) {
        var j := if i < k then i else i + 1;
        assert old(LinkedAt(nodes, j)) && nodes[j] in nodes && r[i] == nodes[j];
        assert nodes[j].next == nodes[if j == Pred(n, k) then Succ(n, k) else Succ(n, j)];
        assert nodes[j].prev == nodes[if j == Succ(n, k) then Pred(n, k) else Pred(n, j)];
      }
    }

    method Remove(desc: FrameDescriptor)
      requires Valid() && desc in nodes
      modifies this, nodes
      ensures Valid()
      ensures exists k | 0 <= k < |old(nodes)| ::
                && old(nodes)[k] == desc && nodes == RemoveAt(old(nodes), k)
                && Contents() == RemoveAt(old(Contents()), k)
    {
      hide AllDifferent, Pages, RemoveAt;
      ghost var s, k := nodes, IndexOf(nodes, desc);
      RemoveAtPages(s, k);
      RemoveAtDifferent(s, k);
      Neighbours(k);
      Unlink(desc, k);
      if head == desc {
        if desc != desc.next {
          head := desc.next;
        } else {
          head := null;
        }
      }
      Rewired(k);
      nodes := RemoveAt(s, k);
      assert head == (if nodes == [] then null else nodes[0]);
    }
  }

  lemma Differ(s: seq<FrameDescriptor>)
    requires AllDifferent(s)
    ensures forall i, j | 0 <= i < |s| && 0 <= j < |s| && i != j :: s[i] != s[j]
  {
  }

  ghost function IndexOf(s: seq<FrameDescriptor>, d: FrameDescriptor): (k: nat)
    requires d in s
    ensures k < |s| && s[k] == d
  {
    if s[0] == d then 0 else 1 + IndexOf(s[1..], d)
  }
}
