/** The vector of free lists of the frame allocator, one list for each order. */
module FreeLists {
  import opened FrameRing
  import opened Lists

  class FreeListVector {
    const lists: seq<FreeList>

    ghost function Nodes(): set<FrameDescriptor>
      reads lists
    {
      set k, d | 0 <= k < |lists| && d in lists[k].nodes :: d
    }

    /** No descriptor is on two lists. */
    ghost predicate Separate()
      reads lists
    {
      forall i, j, d | 0 <= i < j < |lists| && d in lists[i].nodes :: d !in lists[j].nodes
    }

    ghost predicate Valid()
      reads this, lists, Nodes()
    {
      && (forall i, j | 0 <= i < j < |lists| :: lists[i] != lists[j])
      && Separate()
      && (forall k | 0 <= k < |lists| ::
            (forall d | d in lists[k].nodes :: d in Nodes()) && lists[k].Valid())
    }

    ghost function Contents(): (r: seq<seq<int>>)
      reads lists
      ensures |r| == |lists| && forall k | 0 <= k < |lists| :: r[k] == lists[k].Contents()
    {
      seq(|lists|, k requires 0 <= k < |lists| reads lists => lists[k].Contents())
    }

    /** A descriptor that is on a list was on one before, or is new. */
    twostate predicate Grown()
      reads lists, Nodes()
    {
      forall d | d in Nodes() :: d in old(Nodes()) || !old(allocated(d))
    }

    lemma Owned(k: nat)
      requires Valid() && k < |lists|
      ensures forall d | d in lists[k].nodes :: d in Nodes()
    {
    }

    constructor (n: nat)
      ensures Valid() && |lists| == n + 1 && fresh(lists) && fresh(Nodes())
      ensures Contents() == seq(n + 1, i => [])
    {
      var made: seq<FreeList> := [];
      while |made| < n + 1
        invariant |made| <= n + 1
        invariant fresh(made)
        invariant forall k | 0 <= k < |made| :: made[k].Valid() && made[k].nodes == []
        invariant forall i, j | 0 <= i < j < |made| :: made[i] != made[j]
        decreases n + 1 - |made|
      {
        var list := new FreeList();
        made := made + [list];
      }
      lists := made;
    }

    predicate IsEmpty(k: nat)
      requires k < |lists|
      reads lists
    {
      lists[k].head == null
    }

    lemma EmptyContents(k: nat)
      requires Valid() && k < |lists|
      ensures IsEmpty(k) <==> Contents()[k] == []
    {
      assert lists[k].Valid();
    }

    method Add(k: nat, page: int)
      requires Valid() && k < |lists|
      modifies lists[k], lists[k].nodes
      ensures Valid() && Grown()
      ensures Contents() == old(Contents())[k := old(Contents())[k] + [page]]
    {
      hide Circular, AllDifferent, Pages;
      var list := lists[k];
      list.Add(page);
      OthersUnchanged(k);
    }

    method RemoveFirst(k: nat) returns (first: FrameDescriptor)
      requires Valid() && k < |lists| && Contents()[k] != []
      modifies lists[k], lists[k].nodes
      ensures Valid() && Grown()
      ensures first.page == old(Contents())[k][0]
      ensures Contents() == old(Contents())[k := old(Contents())[k][1..]]
    {
      hide Circular, AllDifferent, Pages;
      var list := lists[k];
      first := list.RemoveFirst();
      OthersUnchanged(k);
    }

    method Find(k: nat, page: int) returns (desc: FrameDescriptor?)
      requires Valid() && k < |lists|
      ensures Valid() && Contents() == old(Contents()) && Nodes() == old(Nodes())
      ensures desc != null <==> page in Contents()[k]
      ensures desc != null ==> desc in lists[k].nodes && desc.page == page
    {
      desc := lists[k].Find(page);
    }

    method Remove(k: nat, desc: FrameDescriptor)
      requires Valid() && k < |lists| && desc in lists[k].nodes
      modifies lists[k], lists[k].nodes
      ensures Valid() && Grown()
      ensures exists i | 0 <= i < |old(Contents())[k]| ::
                && old(Contents())[k][i] == desc.page
                && Contents()[k] == RemoveAt(old(Contents())[k], i)
      ensures Contents() == old(Contents())[k := Contents()[k]]
    {
      hide Circular, AllDifferent, Pages;
      var list := lists[k];
      list.Remove(desc);
      OthersUnchanged(k);
    }

    /** What a change of one list, whose new nodes are its old ones or fresh, leaves of the
        others. */
    twostate lemma OthersUnchanged(k: nat)
      requires old(Valid()) && k < |lists|
      requires forall i | 0 <= i < |lists| && i != k ::
                 unchanged(lists[i]) && forall d | d in lists[i].nodes :: unchanged(d)
      requires lists[k].Valid()
      requires forall d | d in lists[k].nodes :: d in old(lists[k].nodes) || !old(allocated(d))
      ensures Valid()
      ensures Grown()
      ensures Contents() == old(Contents())[k := lists[k].Contents()]
    {
      forall i | 0 <= i < |lists| ensures lists[i].Valid() {
        if i != k {
          assert old(lists[i].Valid());
          var s := lists[i].nodes;
          forall j | 0 <= j < |s| ensures LinkedAt(s, j) {
            assert old(LinkedAt(s, j)) && s[j] in s;
          }
        }
      }
    }
  }
}
