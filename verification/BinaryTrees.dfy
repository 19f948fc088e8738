/** The search tree and the set on top of it, which rewire the nodes in place. */
module BinaryTrees {
  import opened SearchTree

  class BinaryTree {
    var root: BinaryTreeNode?
    ghost var tree: Tree

    ghost predicate Valid()
      reads this, Nodes(tree)
    {
      Shape(root, tree) && Ordered(tree) && Apart(tree)
    }

    constructor ()
      ensures Valid() && tree == Leaf
    {
      root, tree := null, Leaf;
    }

    /** The node with the key, if there is one, and its parent, if it has one. */
    method SearchNode(key: int) returns (current: BinaryTreeNode?, parent: BinaryTreeNode?)
      requires Valid()
      ensures (current, parent) == Find(tree, key, null)
    {
      if root == null {
        return null, null;
      }
      current, parent := root, null;
      ghost var sub := tree;
      while current != null
        invariant Shape(current, sub) && Nodes(sub) <= Nodes(tree) && Find(sub, key, parent) == Find(tree, key, null)
        decreases sub
      {
        if current.key < key {
          parent := current;
          current := current.right;
          sub := sub.right;
        } else if current.key > key {
          parent := current;
          current := current.left;
          sub := sub.left;
        } else {
          break;
        }
      }
    }

    /** The nodes from the root down to the one with the key; none if the key is not there. */
    method FindPath(key: int) returns (path: seq<BinaryTreeNode>)
      requires Valid()
      ensures key !in Keys(tree) ==> path == []
      ensures key in Keys(tree) ==>
                path != [] && path[0] == root && CurrentAndParent(path) == Find(tree, key, null)
      ensures forall i | 0 <= i < |path| - 1 :: path[i].left == path[i + 1] || path[i].right == path[i + 1]
    {
      hide Apart, Nodes, Keys;
      ghost var sub := tree;
      var current := root;
      path := [];
      if key in Keys(tree) { FindThere(tree, key, null); } else { FindMissing(tree, key, null); }
      while current != null
        invariant Shape(current, sub) && (path == [] ==> current == root)
        invariant path != [] ==> path[0] == root
        invariant Find(tree, key, null) == Find(sub, key, CurrentAndParent(path).0)
        invariant forall i | 0 <= i < |path| - 1 :: path[i].left == path[i + 1] || path[i].right == path[i + 1]
        invariant path != [] ==>
                    var p := path[|path| - 1]; p.left == current || p.right == current
        decreases sub
      {
        path := path + [current];
        if current.key < key {
          current := current.right;
          sub := sub.right;
        } else if current.key > key {
          current := current.left;
          sub := sub.left;
        } else {
          return;
        }
      }
      path := [];
    }

    method FindLeftMostNodeFrom(node: BinaryTreeNode, ghost t: Tree) returns (current: BinaryTreeNode)
      requires Shape(node, t)
      ensures t.Branch? && current == Leftmost(t)
    {
      current := node;
      ghost var sub := t;
      while current.left != null
        invariant Shape(current, sub) && sub.Branch? && Nodes(sub) <= Nodes(t) && Leftmost(sub) == Leftmost(t)
        decreases sub
      {
        current := current.left;
        sub := sub.left;
      }
    }

    /** A node whose key is not in the tree is linked in at its place.  A node whose key is
        in the tree takes the place of all that was there, which is returned. */
    method InsertNode(node: BinaryTreeNode) returns (prev: BinaryTreeNode?)
      requires Valid() && node !in Nodes(tree) && node.left == null && node.right == null
      modifies this, Nodes(tree)
      ensures Valid()
      ensures node.key !in Keys(old(tree)) ==> prev == null && tree == Inserted(old(tree), node)
      ensures node.key in Keys(old(tree)) ==>
                && Sub(old(tree), node.key).Branch? && prev == Sub(old(tree), node.key).node
                && tree == Replaced(old(tree), node.key, Branch(Leaf, node, Leaf))
    {
      hide Apart, Ordered, Keys;
      ghost var t, k := tree, node.key;
      NodesAllocated(root, t);
      if root == null {
        NoKeys(t);
        InsertedEffect(t, node);
        root := node;
        tree := Inserted(t, node);
        return null;
      }
      if k in Keys(t) {
        FindThere(t, k, null);
        ReplacedEffect(t, node);
        TopReplaced(t, k, Branch(Leaf, node, Leaf));
      } else {
        InsertedEffect(t, node);
        FindMissing(t, k, null);
        PlaceEmpty(root, t, k, null);
      }
      var current, parent := SearchNode(node.key);
      if parent != null && k in Keys(t) { NotTop(t, k); ParentLinks(root, t, null, k); SubShape(root, t, k); }
      label L:
      if parent != null {
        prev := parent.AddChild(node);
        if k in Keys(t) {
          ReplacedShape@L(root, t, null, k, parent, Branch(Leaf, node, Leaf), node);
        } else {
          InsertedShape@L(root, t, null, parent, node);
        }
      } else {
        prev := root;
        root := node;
      }
      ghost var t' := if k in Keys(t) then Replaced(t, k, Branch(Leaf, node, Leaf)) else Inserted(t, node);
      NodesAllocated(root, t');
      tree := t';
    }

    /** The node found by a search leaves the tree. */
    method DeleteNode(current: BinaryTreeNode?, parent: BinaryTreeNode?) returns (deleted: BinaryTreeNode?)
      requires Valid()
      requires current != null ==> current.key in Keys(tree) && (current, parent) == Find(tree, current.key, null)
      modifies this, Nodes(tree)
      ensures deleted == current
      ensures current == null ==> Valid() && tree == old(tree) && root == old(root)
      ensures current != null ==>
                Valid() && Sub(old(tree), current.key).Branch? && tree == Deleted(old(tree), current.key)
      ensures current != null && (old(current.left) == null || old(current.right) == null) ==>
                current.left == null && current.right == null
      decreases if current != null && current.left != null && current.right != null then 2 else 0
    {
      if root == null {
        return null;
      }
      if current == null {
        return null;
      }
      if current.left != null && current.right != null {
        DeleteInner(current, parent);
      } else {
        DeleteOuter(current, parent);
      }
      return current;
    }

    /** A node with at most one child. */
    method DeleteOuter(current: BinaryTreeNode, parent: BinaryTreeNode?)
      requires Valid() && current.key in Keys(tree) && (current, parent) == Find(tree, current.key, null)
      requires current.left == null || current.right == null
      modifies this, Nodes(tree)
      ensures Valid() && Sub(old(tree), current.key).Branch? && tree == Deleted(old(tree), current.key)
      ensures current.left == null && current.right == null
    {
      hide Apart, Ordered, Keys, Find, Sub;
      ghost var t, k := tree, current.key;
      ghost var sub := Sub(t, k);
      NodesAllocated(root, t);
      FindThere(t, k, null);
      SubShape(root, t, k);
      SubFound(t, k);
      DeletedEffect(t, k);
      TopApart(sub);
      if parent != null { NotTop(t, k); ParentLinks(root, t, null, k); }
      label L:
      if current.left == null && current.right == null {
        if parent != null {
          parent.RemoveChild(current);
          ReplacedShape@L(root, t, null, k, parent, Leaf, null);
        } else {
          root := null;
        }
      } else {
        var child := if current.left != null then current.left else current.right;
        ghost var u := WithoutTop(sub);
        ChildKey(sub, u);
        current.RemoveChild(child);
        if parent != null {
          parent.RemoveChild(current);
          parent.SetChild(child);
          ReplacedShape@L(root, t, null, k, parent, u, child);
        } else {
          root := child;
        }
      }
      TopReplaced(t, k, WithoutTop(sub));
      tree := Deleted(t, k);
    }

    /** A node with two children: its successor is deleted by a search of its own, and then
        takes the place of the node. */
    method DeleteInner(current: BinaryTreeNode, parent: BinaryTreeNode?)
      requires Valid() && current.key in Keys(tree) && (current, parent) == Find(tree, current.key, null)
      requires current.left != null && current.right != null
      modifies this, Nodes(tree)
      ensures Valid() && Sub(old(tree), current.key).Branch? && tree == Deleted(old(tree), current.key)
      decreases 1
    {
      hide Apart, Ordered, Keys;
      ghost var t, k := tree, current.key;
      ghost var sub := Sub(t, k);
      NodesAllocated(root, t);
      FindThere(t, k, null);
      SubShape(root, t, k);
      SubFound(t, k);
      DeletedEffect(t, k);
      NestedDelete(t, k, null);
      var successor := FindLeftMostNodeFrom(current.right, sub.right);
      FindThere(t, successor.key, null);
      SubShape(root, t, successor.key);
      DeletedEffect(t, successor.key);
      var node, above := SearchNode(successor.key);
      var _ := DeleteNode(node, above);
      ghost var t1 := tree;
      ghost var u := Branch(sub.left, successor, WithoutLeftmost(sub.right));
      ghost var mid := Branch(sub.left, current, WithoutLeftmost(sub.right));
      StillThere(t, t1, k, successor.key);
      NodesAllocated(root, t1);
      SubShape(root, t1, k);
      SubFound(t1, k);
      SuccessorOut(t, t1, successor);
      PutInPlace(current, parent, successor, sub.left, WithoutLeftmost(sub.right));
      ReplacedTwice(t, k, mid, u);
    }

    method TakeChildren(current: BinaryTreeNode, successor: BinaryTreeNode, ghost l: Tree, ghost r: Tree)
      requires Shape(current, Branch(l, current, r)) && successor !in Nodes(Branch(l, current, r))
      requires successor.left == null && successor.right == null
      modifies successor
      ensures Shape(successor, Branch(l, successor, r))
    {
      NodesAllocated(current, Branch(l, current, r));
      assert Shape(current.left, l) && Shape(current.right, r);
      successor.SetRight(current.right);
      successor.SetLeft(current.left);
    }

    /** A node that is not in the tree takes the place, and the children, of one that is. */
    method PutInPlace(current: BinaryTreeNode, parent: BinaryTreeNode?, successor: BinaryTreeNode,
                      ghost l: Tree, ghost r: Tree)
      requires Valid() && current.key in Keys(tree) && (current, parent) == Find(tree, current.key, null)
      requires Sub(tree, current.key) == Branch(l, current, r)
      requires successor !in Nodes(tree) && successor.left == null && successor.right == null
      modifies this, Nodes(tree), successor
      ensures tree == Replaced(old(tree), current.key, Branch(l, successor, r)) && Shape(root, tree)
    {
      hide Apart, Ordered, Keys, Find, Sub;
      ghost var t, k := tree, current.key;
      NodesAllocated(root, t);
      FindThere(t, k, null);
      SubShape(root, t, k);
      SubFound(t, k);
      TopApart(Sub(t, k));
      if parent != null { NotTop(t, k); ParentLinks(root, t, null, k); }
      label L:
      TakeChildren(current, successor, l, r);
      ghost var u := Branch(l, successor, r);
      if parent != null {
        parent.SwitchChild(current, successor);
        ReplacedShape@L(root, t, null, k, parent, u, successor);
      } else {
        root := successor;
      }
      TopReplaced(t, k, u);
      NodesAllocated(root, Replaced(t, k, u));
      tree := Replaced(t, k, u);
    }
  }

  lemma SuccessorOut(t: Tree, t1: Tree, s: BinaryTreeNode)
    requires Nodes(t1) == Nodes(t) - {s}
    ensures s !in Nodes(t1)
  {
  }

  lemma NoKeys(t: Tree)
    ensures t.Leaf? ==> Keys(t) == {}
  {
  }

  /** Replacing all below a key by a single node drops the keys that were below it. */
  lemma {:induction false} ReplacedEffect(t: Tree, x: BinaryTreeNode)
    requires Ordered(t) && Apart(t) && x.key in Keys(t) && x !in Nodes(t)
    ensures var t' := Replaced(t, x.key, Branch(Leaf, x, Leaf));
            && Ordered(t') && Apart(t') && Nodes(t') <= Nodes(t) + {x}
            && Keys(t') == Keys(t) - Keys(Sub(t, x.key)) + {x.key}
    decreases t
  {
    hide Keys, Nodes, Ordered, Apart;
    NoKeys(t);
    var l, m, r := t.left, t.node, t.right;
    Unfold(l, m, r);
    Unfold(Leaf, x, Leaf);
    Empty();
    SubKeys(l, x.key);
    SubKeys(r, x.key);
    Sides(Keys(l), m.key, Keys(r));
    if m.key < x.key {
      ReplacedEffect(r, x);
      Unfold(l, m, Replaced(r, x.key, Branch(Leaf, x, Leaf)));
      WithinRight(Keys(l), m.key, Keys(r), Keys(Sub(r, x.key)), x.key);
    } else if m.key > x.key {
      ReplacedEffect(l, x);
      Unfold(Replaced(l, x.key, Branch(Leaf, x, Leaf)), m, r);
      WithinLeft(Keys(l), m.key, Keys(r), Keys(Sub(l, x.key)), x.key);
    }
  }

  lemma WithinRight(a: set<int>, m: int, b: set<int>, c: set<int>, x: int)
    requires m !in a && m !in b && a !! b && c <= b
    ensures a + {m} + (b - c + {x}) == a + {m} + b - c + {x}
  {
  }

  lemma WithinLeft(a: set<int>, m: int, b: set<int>, c: set<int>, x: int)
    requires m !in a && m !in b && a !! b && c <= a
    ensures (a - c + {x}) + {m} + b == a + {m} + b - c + {x}
  {
  }

  /** Where a missing key belongs there is no child yet. */
  lemma {:induction false} PlaceEmpty(n: BinaryTreeNode?, t: Tree, k: int, q: BinaryTreeNode?)
    requires Shape(n, t) && Ordered(t) && k !in Keys(t) && t.Branch?
    ensures var p := Find(t, k, q).1;
            && p != null && p in Nodes(t) && p.key != k
            && (k > p.key ==> p.right == null) && (k < p.key ==> p.left == null)
    decreases t
  {
    var s := if k > t.node.key then t.right else t.left;
    if s.Branch? { PlaceEmpty(if k > t.node.key then t.node.right else t.node.left, s, k, t.node); }
  }

  lemma TopApart(t: Tree)
    requires Apart(t) && t.Branch?
    ensures t.node !in Nodes(t.left) && t.node !in Nodes(t.right) && Nodes(t.left) !! Nodes(t.right)
  {
  }

  /** A node with a parent is not at the top. */
  lemma NotTop(t: Tree, k: int)
    requires Ordered(t) && k in Keys(t) && Find(t, k, null).1 != null
    ensures t.node.key != k
  {
  }

  lemma TopReplaced(t: Tree, k: int, u: Tree)
    requires Ordered(t) && k in Keys(t)
    ensures Find(t, k, null).1 == null ==> Replaced(t, k, u) == u
  {
    FindThere(t, k, null);
  }

  lemma ChildKey(t: Tree, u: Tree)
    requires t.Branch? && u == WithoutTop(t) && (t.left.Leaf? || t.right.Leaf?) && u.Branch?
    ensures u.node.key in Keys(t) && Nodes(u) <= Nodes(t) && (u == t.left || u == t.right)
  {
  }

  /** A key that is not deleted is still there. */
  lemma StillThere(t: Tree, t1: Tree, k: int, s: int)
    requires k in Keys(t) && s in Keys(t) && k != s && Keys(t1) == Keys(t) - {s}
    ensures k in Keys(t1)
  {
  }

  // ----- The set ----------------------------------------------------------------------

  /** What an iterator stands at, and the parent of that. */
  function CurrentAndParent(stack: seq<BinaryTreeNode>): (BinaryTreeNode?, BinaryTreeNode?) {
    if |stack| == 0 then (null, null)
    else if |stack| == 1 then (stack[0], null)
    else (stack[|stack| - 1], stack[|stack| - 2])
  }

  class Set {
    const tree: BinaryTree
    var numElements: int

    ghost predicate Valid()
      reads this, tree, Nodes(tree.tree)
    {
      tree.Valid() && numElements == |Keys(tree.tree)|
    }

    ghost function Elements(): set<int>
      reads this, tree
    {
      Keys(tree.tree)
    }

    constructor ()
      ensures Valid() && Elements() == {}
    {
      tree := new BinaryTree();
      numElements := 0;
    }

    method Count(key: int) returns (count: int)
      requires Valid()
      ensures count == if key in Elements() then 1 else 0
    {
      var current, _ := tree.SearchNode(key);
      if key in Elements() { FindThere(tree.tree, key, null); } else { FindMissing(tree.tree, key, null); }
      count := if current == null then 0 else 1;
    }

    method Insert(key: int)
      requires Valid()
      modifies this, tree, Nodes(tree.tree)
      ensures Valid() && Elements() == old(Elements()) + {key}
    {
      hide Apart, Ordered, Keys, Nodes;
      ghost var t := tree.tree;
      NodesAllocated(tree.root, t);
      var count := Count(key);
      if count == 1 {
        return;
      }
      var node := new BinaryTreeNode(key);
      InsertedEffect(t, node);
      var prev := tree.InsertNode(node);
      numElements := numElements + 1;
    }

    /** The number of elements erased. */
    method Erase(key: int) returns (erased: int)
      requires Valid()
      modifies this, tree, Nodes(tree.tree)
      ensures Valid() && Elements() == old(Elements()) - {key}
      ensures erased == if key in old(Elements()) then 1 else 0
    {
      hide Apart, Ordered, Nodes, Keys;
      ghost var t := tree.tree;
      NodesAllocated(tree.root, t);
      if key in Keys(t) {
        FindThere(t, key, null);
        SubFound(t, key);
        DeletedEffect(t, key);
      } else {
        FindMissing(t, key, null);
        assert Keys(t) - {key} == Keys(t);
      }
      var current, parent := tree.SearchNode(key);
      var node := tree.DeleteNode(current, parent);
      if node == null {
        return 0;
      }
      numElements := numElements - 1;
      erased := 1;
    }

    /** The element that the iterator stands at is erased; at the end there is none. */
    method EraseAt(pos: seq<BinaryTreeNode>)
      requires Valid()
      requires pos != [] ==>
                 var current := CurrentAndParent(pos).0;
                 current.key in Keys(tree.tree) && CurrentAndParent(pos) == Find(tree.tree, current.key, null)
      modifies this, tree, Nodes(tree.tree)
      ensures Valid() && Nodes(tree.tree) <= old(Nodes(tree.tree))
      ensures Elements() == old(Elements()) - if pos == [] then {} else {CurrentAndParent(pos).0.key}
    {
      hide Apart, Ordered, Nodes, Keys;
      ghost var t := tree.tree;
      NodesAllocated(tree.root, t);
      var (current, parent) := CurrentAndParent(pos);
      if current != null {
        SubFound(t, current.key);
        DeletedEffect(t, current.key);
      }
      var node := tree.DeleteNode(current, parent);
      if node == null {
        return;
      }
      numElements := numElements - 1;
    }

    /** The iterator at the element; at the end if it is not there. */
    method FindElement(key: int) returns (pos: seq<BinaryTreeNode>)
      requires Valid()
      ensures pos == [] <==> key !in Elements()
      ensures pos != [] ==>
                CurrentAndParent(pos).0.key == key && CurrentAndParent(pos) == Find(tree.tree, key, null)
    {
      pos := tree.FindPath(key);
      if key in Elements() {
        FindThere(tree.tree, key, null);
        SubFound(tree.tree, key);
      }
    }

    /** The path to the least element. */
    method Begin() returns (stack: seq<BinaryTreeNode>)
      requires Valid()
      ensures tree.tree.Leaf? <==> stack == []
      ensures tree.tree.Branch? ==>
                var k := Leftmost(tree.tree).key;
                && CurrentAndParent(stack).0 == Leftmost(tree.tree)
                && CurrentAndParent(stack) == Find(tree.tree, k, null)
    {
      hide Apart, Ordered, Nodes, Keys;
      ghost var t := tree.tree;
      if t.Branch? {
        LeftmostEffect(t);
        LeftmostBelow(t);
      }
      var current := tree.root;
      stack := [];
      ghost var sub := t;
      while current != null
        invariant Shape(current, sub) && Ordered(sub)
        invariant t.Leaf? ==> sub.Leaf? && stack == []
        invariant t.Branch? && sub.Leaf? ==>
                    && CurrentAndParent(stack).0 == Leftmost(t)
                    && CurrentAndParent(stack) == Find(t, Leftmost(t).key, null)
        invariant t.Branch? && sub.Branch? ==>
                    && Leftmost(sub) == Leftmost(t) && sub.node.key >= Leftmost(t).key
                    && Find(t, Leftmost(t).key, null) == Find(sub, Leftmost(t).key, CurrentAndParent(stack).0)
        decreases sub
      {
        OrderedParts(sub);
        if sub.left.Branch? { LeftmostBelow(sub.left); LeftmostKey(sub); }
        stack := stack + [current];
        current := current.left;
        sub := sub.left;
      }
    }

    /** The destructor: the least element is erased until there is none. */
    method Clear()
      requires Valid()
      modifies this, tree, Nodes(tree.tree)
      ensures Valid() && Elements() == {} && numElements == 0
    {
      hide Apart, Ordered, Nodes, Keys;
      while numElements > 0
        invariant Valid() && Nodes(tree.tree) <= old(Nodes(tree.tree))
        decreases numElements
      {
        ghost var t := tree.tree;
        NodesAllocated(tree.root, t);
        NotEmpty(t);
        LeftmostEffect(t);
        Less(Keys(t), Leftmost(t).key);
        var begin := Begin();
        EraseAt(begin);
      }
      assert |Keys(tree.tree)| == 0;
    }
  }

  lemma Less(s: set<int>, x: int)
    requires x in s
    ensures |s - {x}| < |s|
  {
    assert s == s - {x} + {x};
  }

  lemma NotEmpty(t: Tree)
    requires |Keys(t)| > 0
    ensures t.Branch?
  {
  }

  lemma OrderedParts(t: Tree)
    requires Ordered(t) && t.Branch?
    ensures Ordered(t.left) && Ordered(t.right)
  {
  }

  lemma {:induction false} LeftmostBelow(t: Tree)
    requires Ordered(t) && t.Branch?
    ensures Leftmost(t).key <= t.node.key && Leftmost(t).key in Keys(t)
  {
    if t.left.Branch? { LeftmostBelow(t.left); }
  }

  lemma LeftmostKey(t: Tree)
    requires Ordered(t) && t.Branch? && t.left.Branch?
    ensures Leftmost(t).key < t.node.key
  {
    LeftmostBelow(t.left);
  }
}
