/** The binary search tree under the standard set and map, as linked nodes. */
module SearchTree {

  class BinaryTreeNode {
    const key: int
    var left: BinaryTreeNode?
    var right: BinaryTreeNode?

    constructor (key: int)
      ensures this.key == key && left == null && right == null
    {
      this.key := key;
      left, right := null, null;
    }

    method SetLeft(node: BinaryTreeNode?)
      requires left == null
      modifies this
      ensures left == node && right == old(right)
    {
      left := node;
    }

    method SetRight(node: BinaryTreeNode?)
      requires right == null
      modifies this
      ensures right == node && left == old(left)
    {
      right := node;
    }

    method AddChild(node: BinaryTreeNode) returns (prev: BinaryTreeNode?)
      modifies this
      ensures if node.key > key then right == node && left == old(left) && prev == old(right)
              else left == node && right == old(right) && prev == old(left)
    {
      if node.key > key {
        prev := right;
        right := node;
      } else {
        prev := left;
        left := node;
      }
    }

    method RemoveChild(node: BinaryTreeNode)
      modifies this
      ensures if old(left) == node then left == null && right == old(right)
              else left == old(left) && right == if old(right) == node then null else old(right)
    {
      if left == node {
        left := null;
      } else if right == node {
        right := null;
      }
    }

    method SetChild(node: BinaryTreeNode)
      modifies this
      ensures if node.key > key then right == node && left == old(left) else left == node && right == old(right)
    {
      if node.key > key {
        right := node;
      } else {
        left := node;
      }
    }

    method SwitchChild(from: BinaryTreeNode, to: BinaryTreeNode)
      modifies this
      ensures if old(left) == from then left == to && right == old(right)
              else left == old(left) && right == if old(right) == from then to else old(right)
    {
      if left == from {
        left := to;
      } else if right == from {
        right := to;
      }
    }
  }

  /** The tree that nodes are linked into. */
  datatype Tree = Leaf | Branch(left: Tree, node: BinaryTreeNode, right: Tree)

  ghost function Nodes(t: Tree): set<BinaryTreeNode> {
    match t
    case Leaf => {}
    case Branch(l, m, r) => Nodes(l) + {m} + Nodes(r)
  }

  ghost function Keys(t: Tree): set<int> {
    match t
    case Leaf => {}
    case Branch(l, m, r) => Keys(l) + {m.key} + Keys(r)
  }

  ghost predicate Ordered(t: Tree) {
    match t
    case Leaf => true
    case Branch(l, m, r) =>
      && Ordered(l) && Ordered(r)
      && (forall k | k in Keys(l) :: k < m.key)
      && (forall k | k in Keys(r) :: m.key < k)
  }

  /** No node is in the tree twice. */
  ghost predicate Apart(t: Tree) {
    match t
    case Leaf => true
    case Branch(l, m, r) => Apart(l) && Apart(r) && m !in Nodes(l) && m !in Nodes(r) && Nodes(l) !! Nodes(r)
  }

  /** The nodes from `n` on are linked into the tree. */
  ghost predicate Shape(n: BinaryTreeNode?, t: Tree)
    reads Nodes(t)
  {
    if t.Leaf? then n == null else n == t.node && Shape(t.node.left, t.left) && Shape(t.node.right, t.right)
  }

  // ----- Operations on trees ----------------------------------------------------------

  /** The node with the key, and its parent; where there is none, the parent it would have. */
  ghost function Find(t: Tree, k: int, parent: BinaryTreeNode?): (BinaryTreeNode?, BinaryTreeNode?) {
    match t
    case Leaf => (null, parent)
    case Branch(l, m, r) =>
      if m.key < k then Find(r, k, m) else if m.key > k then Find(l, k, m) else (m, parent)
  }

  ghost function Inserted(t: Tree, x: BinaryTreeNode): Tree {
    match t
    case Leaf => Branch(Leaf, x, Leaf)
    case Branch(l, m, r) =>
      if x.key > m.key then Branch(l, m, Inserted(r, x)) else Branch(Inserted(l, x), m, r)
  }

  /** The subtree with the key at its top. */
  ghost function Sub(t: Tree, k: int): Tree {
    match t
    case Leaf => Leaf
    case Branch(l, m, r) => if m.key < k then Sub(r, k) else if m.key > k then Sub(l, k) else t
  }

  /** The tree with another subtree in that place. */
  ghost function Replaced(t: Tree, k: int, u: Tree): Tree {
    match t
    case Leaf => Leaf
    case Branch(l, m, r) =>
      if m.key < k then Branch(l, m, Replaced(r, k, u))
      else if m.key > k then Branch(Replaced(l, k, u), m, r)
      else u
  }

  ghost function Leftmost(t: Tree): BinaryTreeNode
    requires t.Branch?
  {
    if t.left.Leaf? then t.node else Leftmost(t.left)
  }

  ghost function WithoutLeftmost(t: Tree): Tree
    requires t.Branch?
  {
    if t.left.Leaf? then t.right else Branch(WithoutLeftmost(t.left), t.node, t.right)
  }

  /** A tree without its top: one of its sides, or both under the leftmost node on the
      right. */
  ghost function WithoutTop(t: Tree): Tree
    requires t.Branch?
  {
    if t.left.Leaf? then t.right
    else if t.right.Leaf? then t.left
    else Branch(t.left, Leftmost(t.right), WithoutLeftmost(t.right))
  }

  ghost function Deleted(t: Tree, k: int): Tree
    requires Sub(t, k).Branch?
  {
    Replaced(t, k, WithoutTop(Sub(t, k)))
  }

  // ----- What the operations do to keys and nodes --------------------------------------

  lemma {:induction false} InsertedEffect(t: Tree, x: BinaryTreeNode)
    requires Ordered(t) && Apart(t) && x.key !in Keys(t) && x !in Nodes(t)
    ensures Ordered(Inserted(t, x)) && Apart(Inserted(t, x))
    ensures Keys(Inserted(t, x)) == Keys(t) + {x.key} && Nodes(Inserted(t, x)) == Nodes(t) + {x}
  {
    hide Keys, Nodes, Ordered, Apart;
    Unfold(Leaf, x, Leaf);
    Empty();
    match t
    case Leaf =>
    case Branch(l, m, r) =>
      Unfold(l, m, r);
      if x.key > m.key {
        InsertedEffect(r, x);
        Unfold(l, m, Inserted(r, x));
      } else {
        InsertedEffect(l, x);
        Unfold(Inserted(l, x), m, r);
      }
  }

  lemma {:induction false} LeftmostEffect(t: Tree)
    requires Ordered(t) && Apart(t) && t.Branch?
    ensures Leftmost(t) in Nodes(t) && Leftmost(t).key in Keys(t) && forall k | k in Keys(t) :: Leftmost(t).key <= k
    ensures Ordered(WithoutLeftmost(t)) && Apart(WithoutLeftmost(t))
    ensures Keys(WithoutLeftmost(t)) == Keys(t) - {Leftmost(t).key}
    ensures Nodes(WithoutLeftmost(t)) == Nodes(t) - {Leftmost(t)}
  {
    if t.left.Branch? { LeftmostEffect(t.left); }
  }

  lemma WithoutTopEffect(t: Tree)
    requires Ordered(t) && Apart(t) && t.Branch?
    ensures Ordered(WithoutTop(t)) && Apart(WithoutTop(t))
    ensures Keys(WithoutTop(t)) == Keys(t) - {t.node.key} && Nodes(WithoutTop(t)) == Nodes(t) - {t.node}
  {
    if t.left.Branch? && t.right.Branch? { BothSides(t); }
  }

  /** The place of a node with two children goes to the one with the least of the greater
      keys, and what is on the left stays there. */
  lemma SuccessorRises(t: Tree)
    requires Ordered(t) && Apart(t) && t.Branch? && t.left.Branch? && t.right.Branch?
    ensures var u := WithoutTop(t);
            && u.Branch? && u.left == t.left && u.node in Nodes(t.right) && u.node.key > t.node.key
            && forall k | k in Keys(t) && k > t.node.key :: u.node.key <= k
  {
    hide Leftmost, WithoutLeftmost, Keys, Nodes, Ordered, Apart;
    Unfold(t.left, t.node, t.right);
    LeftmostEffect(t.right);
  }

  lemma BothSides(t: Tree)
    requires Ordered(t) && Apart(t) && t.Branch? && t.left.Branch? && t.right.Branch?
    ensures var u := Branch(t.left, Leftmost(t.right), WithoutLeftmost(t.right));
            && Ordered(u) && Apart(u)
            && Keys(u) == Keys(t) - {t.node.key} && Nodes(u) == Nodes(t) - {t.node}
  {
    hide Leftmost, WithoutLeftmost, Keys, Nodes, Ordered, Apart;
    var l, m, r := t.left, t.node, t.right;
    Unfold(l, m, r);
    LeftmostEffect(r);
    var s, w := Leftmost(r), WithoutLeftmost(r);
    Unfold(l, s, w);
    Sides(Keys(l), m.key, Keys(r));
    Exchanged(Keys(l), s.key, Keys(r), m.key);
    Exchanged(Nodes(l), s, Nodes(r), m);
    Between(Keys(l), m.key, Keys(r), s.key);
    Parted(Nodes(l), Nodes(r), s);
  }

  lemma Unfold(l: Tree, m: BinaryTreeNode, r: Tree)
    ensures var t := Branch(l, m, r);
            && Keys(t) == Keys(l) + {m.key} + Keys(r) && Nodes(t) == Nodes(l) + {m} + Nodes(r)
            && (Ordered(t) <==> && Ordered(l) && Ordered(r)
                                && (forall k | k in Keys(l) :: k < m.key) && (forall k | k in Keys(r) :: m.key < k))
            && (Apart(t) <==> Apart(l) && Apart(r) && m !in Nodes(l) && m !in Nodes(r) && Nodes(l) !! Nodes(r))
  {
  }

  lemma Sides(a: set<int>, x: int, b: set<int>)
    requires (forall k | k in a :: k < x) && (forall k | k in b :: x < k)
    ensures x !in a && x !in b && a !! b
  {
    forall k | k in a ensures k !in b {}
  }

  lemma Between(a: set<int>, x: int, b: set<int>, y: int)
    requires (forall k | k in a :: k < x) && (forall k | k in b :: x < k) && y in b && forall k | k in b :: y <= k
    ensures (forall k | k in a :: k < y) && forall k | k in b - {y} :: y < k
  {
  }

  lemma Parted<T>(a: set<T>, b: set<T>, x: T)
    requires a !! b && x in b
    ensures x !in a && x !in b - {x} && a !! (b - {x})
  {
  }

  lemma Exchanged<T>(a: set<T>, x: T, b: set<T>, y: T)
    requires x in b && y !in a && y !in b
    ensures a + {x} + (b - {x}) == a + {y} + b - {y}
  {
  }

  lemma {:induction false} SubFound(t: Tree, k: int)
    requires Ordered(t)
    ensures k in Keys(t) <==> Sub(t, k).Branch?
    ensures Sub(t, k).Branch? ==> Sub(t, k).node.key == k && Ordered(Sub(t, k)) && Sub(t, k).node in Nodes(t)
    ensures Apart(t) ==> Apart(Sub(t, k)) && Nodes(Sub(t, k)) <= Nodes(t)
  {
    match t
    case Leaf =>
    case Branch(l, m, r) =>
      SubFound(l, k);
      SubFound(r, k);
  }

  lemma {:induction false} DeletedEffect(t: Tree, k: int)
    requires Ordered(t) && Apart(t) && k in Keys(t)
    ensures Sub(t, k).Branch?
    ensures Ordered(Deleted(t, k)) && Apart(Deleted(t, k))
    ensures Keys(Deleted(t, k)) == Keys(t) - {k} && Nodes(Deleted(t, k)) == Nodes(t) - {Sub(t, k).node}
  {
    SubFound(t, k);
    var Branch(l, m, r) := t;
    if m.key < k {
      DeletedEffect(r, k);
      SubFound(r, k);
    } else if m.key > k {
      DeletedEffect(l, k);
      SubFound(l, k);
    } else {
      WithoutTopEffect(t);
    }
  }

  /** A tree has as many nodes as keys. */
  lemma {:induction false} CountKeys(t: Tree)
    requires Ordered(t) && Apart(t)
    ensures |Keys(t)| == |Nodes(t)|
  {
    hide Keys, Nodes, Ordered, Apart;
    match t
    case Leaf => Empty();
    case Branch(l, m, r) =>
      Unfold(l, m, r);
      CountKeys(l);
      CountKeys(r);
      Sides(Keys(l), m.key, Keys(r));
      Count(Keys(l), m.key, Keys(r));
      Count(Nodes(l), m, Nodes(r));
  }

  lemma Empty()
    ensures Keys(Leaf) == {} && Nodes(Leaf) == {} && Ordered(Leaf) && Apart(Leaf)
  {
  }

  lemma Count<T>(a: set<T>, x: T, b: set<T>)
    requires x !in a && x !in b && a !! b
    ensures |a + {x} + b| == |a| + 1 + |b|
  {
    assert |a + {x}| == |a| + 1;
    assert (a + {x}) !! b;
  }

  // ----- Linking ----------------------------------------------------------------------

  lemma {:induction false} FindMissing(t: Tree, k: int, q: BinaryTreeNode?)
    requires Ordered(t) && k !in Keys(t)
    ensures Find(t, k, q).0 == null
    ensures if t.Leaf? then Find(t, k, q).1 == q else Find(t, k, q).1 in Nodes(t)
  {
    match t
    case Leaf =>
    case Branch(l, m, r) =>
      FindMissing(l, k, m);
      FindMissing(r, k, m);
  }

  lemma {:induction false} FindThere(t: Tree, k: int, q: BinaryTreeNode?)
    requires Ordered(t) && k in Keys(t)
    ensures Sub(t, k).Branch? && Find(t, k, q).0 == Sub(t, k).node
    ensures if t.node.key == k then Find(t, k, q).1 == q else Find(t, k, q).1 in Nodes(t)
  {
    var Branch(l, m, r) := t;
    if m.key < k { FindThere(r, k, m); } else if m.key > k { FindThere(l, k, m); }
  }

  /** The nodes of a linked tree are allocated. */
  lemma {:induction false} NodesAllocated(n: BinaryTreeNode?, t: Tree)
    requires Shape(n, t)
    ensures forall m | m in Nodes(t) :: allocated(m)
    decreases t
  {
    if t.Branch? {
      NodesAllocated(t.node.left, t.left);
      NodesAllocated(t.node.right, t.right);
    }
  }

  twostate predicate SameLinks(m: BinaryTreeNode)
    reads m
  {
    m.left == old(m.left) && m.right == old(m.right)
  }

  /** Nodes whose links are as they were are linked as they were. */
  twostate lemma {:induction false} SameShape(new n: BinaryTreeNode?, new t: Tree)
    requires old(allocated(n)) && old(allocated(t)) && forall m | m in Nodes(t) :: old(allocated(m))
    requires old(Shape(n, t)) && forall m | m in Nodes(t) :: SameLinks(m)
    ensures Shape(n, t)
    decreases t
  {
    if t.Branch? {
      assert SameLinks(t.node);
      SameShape(old(t.node.left), t.left);
      SameShape(old(t.node.right), t.right);
    }
  }

  /** A new node in the place where it was missing. */
  twostate lemma {:induction false} InsertedShape(
    new n: BinaryTreeNode?, new t: Tree, new q: BinaryTreeNode?, new p: BinaryTreeNode, new x: BinaryTreeNode)
    requires old(allocated(n)) && old(allocated(t)) && forall m | m in Nodes(t) :: old(allocated(m))
    requires old(Shape(n, t)) && Ordered(t) && Apart(t) && t.Branch? && x.key !in Keys(t) && x !in Nodes(t)
    requires Find(t, x.key, q).1 == p && p in Nodes(t) && x.left == null && x.right == null
    requires forall m | m in Nodes(t) && m != p :: SameLinks(m)
    requires x.key > p.key ==> p.right == x
    requires x.key > p.key ==> p.left == old(p.left)
    requires x.key <= p.key ==> p.left == x
    requires x.key <= p.key ==> p.right == old(p.right)
    ensures Shape(n, Inserted(t, x))
    decreases t
  {
    var l, m, r := t.left, t.node, t.right;
    var s := if x.key > m.key then r else l;
    FindMissing(s, x.key, m);
    if x.key > m.key { SameShape(old(m.left), l); } else { SameShape(old(m.right), r); }
    if s.Branch? {
      InsertedShape(if x.key > m.key then m.right else m.left, s, m, p, x);
    }
  }

  /** Another subtree, linked in the place of the one with the key at its top. */
  twostate lemma {:induction false} ReplacedShape(
    new n: BinaryTreeNode?, new t: Tree, new q: BinaryTreeNode?, k: int,
    new p: BinaryTreeNode, new u: Tree, new n': BinaryTreeNode?)
    requires old(allocated(n)) && old(allocated(t)) && forall m | m in Nodes(t) :: old(allocated(m))
    requires old(Shape(n, t)) && Ordered(t) && Apart(t) && k in Keys(t) && t.node.key != k
    requires Find(t, k, q).1 == p && p in Nodes(t) && Shape(n', u)
    requires forall m | m in Nodes(t) && m !in Nodes(Sub(t, k)) && m != p :: SameLinks(m)
    requires k > p.key ==> p.right == n' && p.left == old(p.left)
    requires k <= p.key ==> p.left == n' && p.right == old(p.right)
    ensures Shape(n, Replaced(t, k, u))
    decreases t
  {
    var l, m, r := t.left, t.node, t.right;
    if m.key < k {
      SubFound(r, k);
      FindThere(r, k, m);
      SameShape(old(m.left), l);
      if r.node.key != k { ReplacedShape(m.right, r, m, k, p, u, n'); }
    } else {
      SubFound(l, k);
      FindThere(l, k, m);
      SameShape(old(m.right), r);
      if l.node.key != k { ReplacedShape(m.left, l, m, k, p, u, n'); }
    }
  }

  /** The links and the side of the parent of a key that is not at the top. */
  lemma {:induction false} ParentLinks(n: BinaryTreeNode?, t: Tree, q: BinaryTreeNode?, k: int)
    requires Shape(n, t) && Ordered(t) && Apart(t) && k in Keys(t) && t.node.key != k
    ensures Sub(t, k).Branch? && Find(t, k, q).1 != null
    ensures var p, c := Find(t, k, q).1, Sub(t, k).node;
            && p in Nodes(t) && p !in Nodes(Sub(t, k)) && p.key != k
            && (k > p.key ==> p.right == c && p.left != c) && (k < p.key ==> p.left == c && p.right != c)
            && (forall x | x in Keys(Sub(t, k)) :: x > p.key <==> k > p.key)
    decreases t
  {
    SubFound(t, k);
    var l, m, r := t.left, t.node, t.right;
    var s := if m.key < k then r else l;
    SubFound(s, k);
    SubKeys(s, k);
    if s.node.key != k {
      ParentLinks(if m.key < k then m.right else m.left, s, m, k);
    } else {
      OtherSide(m.left, l, m.right, r);
    }
  }

  lemma {:induction false} SubKeys(t: Tree, k: int)
    ensures Keys(Sub(t, k)) <= Keys(t)
  {
    if t.Branch? {
      SubKeys(t.left, k);
      SubKeys(t.right, k);
    }
  }

  lemma OtherSide(a: BinaryTreeNode?, l: Tree, b: BinaryTreeNode?, r: Tree)
    requires Shape(a, l) && Shape(b, r) && Nodes(l) !! Nodes(r)
    ensures a != null || b != null ==> a != b
  {
    if l.Branch? { assert l.node in Nodes(l); }
    if r.Branch? { assert r.node in Nodes(r); }
  }

  lemma {:induction false} SubShape(n: BinaryTreeNode?, t: Tree, k: int)
    requires Shape(n, t) && Ordered(t) && k in Keys(t)
    ensures Sub(t, k).Branch? && Nodes(Sub(t, k)) <= Nodes(t) && Shape(Sub(t, k).node, Sub(t, k))
    decreases t
  {
    if t.node.key < k {
      SubShape(t.node.right, t.right, k);
    } else if t.node.key > k {
      SubShape(t.node.left, t.left, k);
    }
  }

  /** Deleting the leftmost node on the right of a node changes only that side. */
  lemma {:induction false} NestedDelete(t: Tree, k: int, q: BinaryTreeNode?)
    requires Ordered(t) && Apart(t) && k in Keys(t) && Sub(t, k).Branch? && Sub(t, k).right.Branch?
    ensures var c := Sub(t, k);
            var s, u := Leftmost(c.right), Branch(c.left, c.node, WithoutLeftmost(c.right));
            && s.key in Keys(t) && Sub(t, s.key).Branch? && Sub(t, s.key).node == s && Sub(t, s.key).left.Leaf?
            && Deleted(t, s.key) == Replaced(t, k, u)
            && Sub(Replaced(t, k, u), k) == u && Find(Replaced(t, k, u), k, q) == Find(t, k, q)
            && (t.node.key == k <==> Replaced(t, k, u).node.key == k)
    decreases t
  {
    SubFound(t, k);
    var l, m, r := t.left, t.node, t.right;
    var c := Sub(t, k);
    LeftmostEffect(c.right);
    SubKeys(l, k);
    SubKeys(r, k);
    SubFound(l, k);
    SubFound(r, k);
    if m.key < k {
      NestedDelete(r, k, m);
    } else if m.key > k {
      NestedDelete(l, k, m);
    } else {
      LeftmostDeleted(r);
    }
  }

  lemma {:induction false} LeftmostDeleted(t: Tree)
    requires Ordered(t) && Apart(t) && t.Branch?
    ensures var s := Leftmost(t);
            && Sub(t, s.key).Branch? && Sub(t, s.key).node == s && Sub(t, s.key).left.Leaf?
            && Deleted(t, s.key) == WithoutLeftmost(t)
    decreases t
  {
    if t.left.Branch? {
      LeftmostEffect(t.left);
      LeftmostDeleted(t.left);
    }
  }

  lemma {:induction false} ReplacedTwice(t: Tree, k: int, a: Tree, u: Tree)
    requires a.Branch? && a.node.key == k
    ensures Replaced(Replaced(t, k, a), k, u) == Replaced(t, k, u)
  {
    if t.Branch? {
      ReplacedTwice(t.left, k, a, u);
      ReplacedTwice(t.right, k, a, u);
    }
  }
}
