/** api_rbtree.c: the pointer code itself, proved against the shapes of `RbShape`. */
module RbTree {
  import opened RbShape

  function ColorOf(n: RbNode?): Color
    reads n
  {
    if n == null then Black else n.color
  }

  /** The tree after turning its root down to side `s`. */
  ghost function Rotated(s: Side, t: Tree): (r: Tree)
    requires t.Node? && Child(s.Other(), t).Node?
  {
    var y := Child(s.Other(), t);
    Join(s, Join(s, Child(s, t), t.node, t.color, Child(s, y)), y.node, y.color, Child(s.Other(), y))
  }

  lemma RotatedContents(s: Side, t: Tree)
    requires t.Node? && Child(s.Other(), t).Node?
    ensures SameContents(Rotated(s, t), t)
    ensures Distinct(t) ==> Distinct(Rotated(s, t))
  {
    var y := Child(s.Other(), t);
    assert Distinct(t) ==> Distinct(y) && Distinct(Child(s, y));
  }

  lemma RotatedLinksIn(s: Side, t: Tree, p: RbNode?, n: RbNode)
    requires t.Node? && Child(s.Other(), t).Node? && Distinct(t) && n in Nodes(t)
    requires n in Nodes(Rotated(s, t))
    ensures var y := Child(s.Other(), t); var z := RootNode(Child(s, y)); var was := LinksIn(t, p, n);
      LinksIn(Rotated(s, t), p, n) ==
        if n == t.node then WithChild(s.Other(), was, z).(parent := y.node)
        else if n == y.node then WithChild(s, was, t.node).(parent := p)
        else if n == z then was.(parent := t.node)
        else was
  {
    var x, y := t.node, Child(s.Other(), t);
    var z := Child(s, y);
    assert Distinct(y) && Distinct(z);
    var r := Rotated(s, t);
    if n in Nodes(z) {
      LinksInParent(z, y.node, x, n);
      assert LinksIn(t, p, n) == LinksIn(y, x, n) == LinksIn(z, y.node, n);
      assert LinksIn(r, p, n) == LinksIn(Child(s, r), y.node, n) == LinksIn(z, x, n);
    } else if n in Nodes(Child(s, t)) || n == x {
      assert LinksIn(r, p, n) == LinksIn(Child(s, r), y.node, n);
    } else {
      assert LinksIn(t, p, n) == LinksIn(y, x, n);
    }
  }

  /** What a rotation does to the fields, node by node, in the whole tree. */
  lemma RotatedLinks(s: Side, k: Path, t: Tree, n: RbNode)
    requires t.Node? && Child(s.Other(), t).Node? && Distinct(Plug(k, t)) && n in Nodes(Plug(k, t))
    ensures Nodes(Plug(k, Rotated(s, t))) == Nodes(Plug(k, t)) && Distinct(Plug(k, Rotated(s, t)))
    ensures var y := Child(s.Other(), t); var z := RootNode(Child(s, y)); var was := LinksIn(Plug(k, t), null, n);
      LinksIn(Plug(k, Rotated(s, t)), null, n) ==
        if n == t.node then WithChild(s.Other(), was, z).(parent := y.node)
        else if n == y.node then WithChild(s, was, t.node).(parent := Parent(k))
        else if n == z then was.(parent := t.node)
        else if n == Parent(k) then Redirected(was, t.node, y.node)
        else was
  {
    PlugNodes(k, t);
    RotatedContents(s, t);
    PlugNodes(k, Rotated(s, t));
    PlugLinks(k, t, n);
    PlugLinks(k, Rotated(s, t), n);
    if n in Nodes(t) {
      RotatedLinksIn(s, t, Parent(k), n);
    } else {
      LinksAboveHole(k, t.node, Child(s.Other(), t).node, n);
    }
  }

  function Compare(a: RbNode, b: RbNode): int {
    if a.key < b.key then -1 else if a.key > b.key then 1 else 0
  }

  /** Exchanging `a` and `b` wherever they are named. */
  ghost function Other(a: RbNode, b: RbNode, n: RbNode?): RbNode? {
    if n == a then b else if n == b then a else n
  }

  ghost function Twin(a: RbNode, b: RbNode, n: RbNode): RbNode {
    if n == a then b else if n == b then a else n
  }

  ghost function Exchanged(a: RbNode, b: RbNode, c: Links): Links {
    Links(Other(a, b, c.parent), Other(a, b, c.left), Other(a, b, c.right), c.color)
  }

  /** Every child knows its parent, and every parent its child. */
  ghost predicate WellLinked(s: set<RbNode>)
    reads s
  {
    forall n | n in s ::
      && (n.left != null ==> n.left in s && n.left.parent == n)
      && (n.right != null ==> n.right in s && n.right.parent == n && n.right != n.left)
      && (n.parent != null ==> n.parent in s && (n.parent.left == n || n.parent.right == n))
      && n.parent != n
  }

  /** The children of a node are those that have it as their parent. */
  lemma Family(s: set<RbNode>, a: RbNode)
    requires WellLinked(s) && a in s
    ensures forall n <- s :: n.parent == a <==> n == a.left || n == a.right
    ensures (a.left != null ==> a.left in s) && (a.right != null ==> a.right in s && a.right != a.left)
  {
  }

  class RbTree {
    var root: RbNode?
    ghost var shape: Tree

    ghost predicate Valid()
      reads this, Nodes(shape)
    {
      && Holds(shape, root) && Ghosts(shape) == {}
      && RedBlack(shape) && !IsRed(shape)
      && Sorted(InOrder(shape))
    }

    constructor ()
      ensures Valid() && InOrder(shape) == []
    {
      root, shape := null, Leaf;
    }

    /** Records the shape that the objects now have. */
    ghost method Record(s: Tree)
      requires Holds(s, root) && Ghosts(s) == {}
      requires RedBlack(s) && !IsRed(s) && Sorted(InOrder(s))
      modifies this`shape
      ensures Valid() && shape == s
    {
      hide InOrder, Nodes, Ghosts, RedBlack, Sorted;
      shape := s;
    }

    method Insert(node: RbNode) returns (ghost before: seq<RbNode>, ghost after: seq<RbNode>)
      requires Valid() && node !in Nodes(shape)
      modifies this, Nodes(shape), node
      ensures Valid()
      ensures old(InOrder(shape)) == before + after && InOrder(shape) == before + [node] + after
      ensures forall x | x in before :: x.key <= node.key
      ensures forall x | x in after :: node.key < x.key
      ensures Nodes(shape) == old(Nodes(shape)) + {node}
    {
      var parent;
      ghost var k;
      parent, k := Descend(node);
      before, after := Before(k), After(k);
      HoleFits(k, node);
      Inserted(k, node);
      assert forall x | x in before :: x.key <= node.key;
      assert forall x | x in after :: node.key < x.key;
      hide InOrder, Nodes, Ghosts, RedBlack, Before, After, Plug, Sorted, Holds, PathRedBlack, Between, RedHole;
      Attach(node, parent, k);
      ghost var s := InsertBal(node, k, Node(Leaf, node, Red, Leaf));
      Record(s);
    }

    /** The first loop of the insertion: where `node` belongs. */
    method Descend(node: RbNode) returns (parent: RbNode?, ghost k: Path)
      requires Valid()
      ensures Plug(k, Leaf) == shape && parent == Parent(k) && Between(k, node)
      ensures Holds(Plug(k, Leaf), root)
    {
      var current := root;
      parent := null;
      ghost var t := shape;
      k := Top;
      while current != null
        invariant Valid() && shape == old(shape)
        invariant Plug(k, t) == shape && current == RootNode(t) && parent == Parent(k)
        invariant Ghosts(t) == {} && Between(k, node)
        decreases t
      {
        Seen(k, t, root);
        Narrow(k, t, node);
        parent := current;

        if Compare(node, current) < 0 {
          k, t := Above(k, Left, t.node, t.color, t.right), t.left;
          current := current.left;
        } else {
          k, t := Above(k, Right, t.node, t.color, t.left), t.right;
          current := current.right;
        }
      }
    }

    /** Hangs `node` into the hole of `k`. */
    method Attach(node: RbNode, parent: RbNode?, ghost k: Path)
      requires Holds(Plug(k, Leaf), root) && node !in Nodes(Plug(k, Leaf)) && parent == Parent(k)
      requires k.Above? ==> (k.side.Left? <==> node.key < k.node.key)
      modifies this`root, Nodes(Plug(k, Leaf)), node
      ensures Holds(Plug(k, Node(Leaf, node, Red, Leaf)), root)
    {
      forall n | n in Nodes(Plug(k, Leaf)) + {node} { AttachedLinks(k, node, n); }
      PlugNodes(k, Leaf);
      AttachedLinks(k, node, node);
      ghost var T := Plug(k, Leaf);
      assert allocated(Nodes(T));
      hide LinksIn, LinksAbove, Nodes, PathNodes, Distinct, PathDistinct, Plug, TopNode;

      node.parent := null;
      node.left := null;
      node.right := null;
      node.color := Red;

      if root == null {
        root := node;
      } else {
        node.parent := parent;

        if Compare(node, parent) < 0 {
          parent.left := node;
        } else {
          parent.right := node;
        }
      }
    }

    /** Whatever pointed down at `was` points at `now`. */
    method Relink(parent: RbNode?, was: RbNode, now: RbNode?)
      modifies this`root
      modifies if parent == null then {} else {parent}
      ensures if parent == null then root == now else root == old(root)
      ensures parent != null ==> parent.Cell() == Redirected(old(parent.Cell()), was, now)
    {
      if parent != null {
        if was == parent.left {
          parent.left := now;
        } else {
          parent.right := now;
        }
      } else {
        root := now;
      }
    }

    /** The links that a left rotation moves. */
    method TurnLeft(node: RbNode, ghost right: RbNode, ghost inner: RbNode?, ghost parent: RbNode?)
      requires right == node.right && inner == right.left && parent == node.parent
      requires right != node && inner != node && inner != right
      requires parent != node && parent != right && (parent == null || parent != inner)
      modifies this`root, node, right
      modifies if inner == null then {} else {inner}
      modifies if parent == null then {} else {parent}
      ensures node.Cell() == old(node.Cell()).(right := inner, parent := right)
      ensures right.Cell() == old(right.Cell()).(left := node, parent := parent)
      ensures inner != null ==> inner.Cell() == old(inner.Cell()).(parent := node)
      ensures if parent == null then root == right else root == old(root)
      ensures parent != null ==> parent.Cell() == Redirected(old(parent.Cell()), node, right)
    {
      var right := node.right;

      node.right := right.left;
      if node.right != null {
        right.left.parent := node;
      }

      right.parent := node.parent;
      Relink(right.parent, node, right);

      right.left := node;
      node.parent := right;
    }

    method RotateLeft(node: RbNode, ghost k: Path, ghost t: Tree)
      requires Holds(Plug(k, t), root)
      requires t.Node? && t.right.Node? && t.node == node
      modifies this`root, Nodes(Plug(k, t))
      ensures Holds(Plug(k, Rotated(Left, t)), root)
      ensures Nodes(Plug(k, Rotated(Left, t))) == Nodes(Plug(k, t))
    {
      ghost var T, y, z, p := Plug(k, t), t.right.node, RootNode(t.right.left), Parent(k);
      Around(Left, k, t);
      forall n | n in Nodes(T) { RotatedLinks(Left, k, t, n); }
      assert allocated(Nodes(T));
      hide LinksIn, LinksAbove, Nodes, PathNodes, Distinct, PathDistinct, Plug;
      TurnLeft(node, y, z, p);
    }

    /** The links that a right rotation moves. */
    method TurnRight(node: RbNode, ghost left: RbNode, ghost inner: RbNode?, ghost parent: RbNode?)
      requires left == node.left && inner == left.right && parent == node.parent
      requires left != node && inner != node && inner != left
      requires parent != node && parent != left && (parent == null || parent != inner)
      modifies this`root, node, left
      modifies if inner == null then {} else {inner}
      modifies if parent == null then {} else {parent}
      ensures node.Cell() == old(node.Cell()).(left := inner, parent := left)
      ensures left.Cell() == old(left.Cell()).(right := node, parent := parent)
      ensures inner != null ==> inner.Cell() == old(inner.Cell()).(parent := node)
      ensures if parent == null then root == left else root == old(root)
      ensures parent != null ==> parent.Cell() == Redirected(old(parent.Cell()), node, left)
    {
      var left := node.left;

      node.left := left.right;
      if node.left != null {
        left.right.parent := node;
      }

      left.parent := node.parent;
      Relink(left.parent, node, left);

      left.right := node;
      node.parent := left;
    }

    method RotateRight(node: RbNode, ghost k: Path, ghost t: Tree)
      requires Holds(Plug(k, t), root)
      requires t.Node? && t.left.Node? && t.node == node
      modifies this`root, Nodes(Plug(k, t))
      ensures Holds(Plug(k, Rotated(Right, t)), root)
      ensures Nodes(Plug(k, Rotated(Right, t))) == Nodes(Plug(k, t))
    {
      ghost var T, y, z, p := Plug(k, t), t.left.node, RootNode(t.left.right), Parent(k);
      Around(Right, k, t);
      forall n | n in Nodes(T) { RotatedLinks(Right, k, t, n); }
      assert allocated(Nodes(T));
      hide LinksIn, LinksAbove, Nodes, PathNodes, Distinct, PathDistinct, Plug;
      TurnRight(node, y, z, p);
    }

    method SwapParents(node1: RbNode, node2: RbNode, ghost s: set<RbNode>)
      requires WellLinked(s) && node1 in s && node2 in s && node1 != node2
      requires node1.parent != node2 && node1.parent != node2.parent
      modifies s
      ensures forall n | n in s ::
        n.Cell() == Links(
          if n == node1 then old(node2.parent) else if n == node2 then old(node1.parent) else old(n.parent),
          Other(node1, node2, old(n.left)), Other(node1, node2, old(n.right)), old(n.color))
    {
      var temp := node1.parent;
      node1.parent := node2.parent;
      node2.parent := temp;

      if node1.parent != null {
        if node1.parent.left == node2 {
          node1.parent.left := node1;
        } else {
          node1.parent.right := node1;
        }
      }

      if node2.parent != null {
        if node2.parent.left == node1 {
          node2.parent.left := node2;
        } else {
          node2.parent.right := node2;
        }
      }
    }

    method SwapLefts(node1: RbNode, node2: RbNode, ghost s: set<RbNode>)
      requires node1 in s && node2 in s && node1 != node2
      requires node1.left != null ==> node1.left in s && node1.left != node2.left
      requires node2.left != null ==> node2.left in s
      modifies s
      ensures forall n | n in s ::
        n.Cell() == Links(
          if n == old(node1.left) then node2 else if n == old(node2.left) then node1 else old(n.parent),
          if n == node1 then old(node2.left) else if n == node2 then old(node1.left) else old(n.left),
          old(n.right), old(n.color))
    {
      var temp := node1.left;
      node1.left := node2.left;
      if node1.left != null {
        node1.left.parent := node1;
      }

      node2.left := temp;
      if node2.left != null {
        node2.left.parent := node2;
      }
    }

    method SwapRights(node1: RbNode, node2: RbNode, ghost s: set<RbNode>)
      requires node1 in s && node2 in s && node1 != node2
      requires node1.right != null ==> node1.right in s && node1.right != node2.right
      requires node2.right != null ==> node2.right in s
      modifies s
      ensures forall n | n in s ::
        n.Cell() == Links(
          if n == old(node1.right) then node2 else if n == old(node2.right) then node1 else old(n.parent),
          old(n.left),
          if n == node1 then old(node2.right) else if n == node2 then old(node1.right) else old(n.right),
          old(n.color))
    {
      var temp := node1.right;
      node1.right := node2.right;
      if node1.right != null {
        node1.right.parent := node1;
      }

      node2.right := temp;
      if node2.right != null {
        node2.right.parent := node2;
      }
    }

    /** The children on both sides, and the colours. */
    method SwapChildren(node1: RbNode, node2: RbNode, ghost s: set<RbNode>)
      requires node1 in s && node2 in s && node1 != node2
      requires node1.left != null ==> node1.left in s && node1.left != node2.left
      requires node2.left != null ==> node2.left in s
      requires node1.right != null ==> node1.right in s && node1.right != node2.right
      requires node2.right != null ==> node2.right in s
      modifies s
      ensures node1.left == old(node2.left) && node1.right == old(node2.right) && node1.color == old(node2.color)
      ensures node2.left == old(node1.left) && node2.right == old(node1.right) && node2.color == old(node1.color)
      ensures forall n | n in s && n != node1 && n != node2 :: n.Cell() == old(n.Cell()).(parent := n.parent)
      ensures forall n | n in s :: (n.parent ==
        if n == old(node1.right) then node2
        else if n == old(node2.right) then node1
        else if n == old(node1.left) then node2
        else if n == old(node2.left) then node1 else old(n.parent))
    {
      SwapLefts(node1, node2, s);
      SwapRights(node1, node2, s);
      var color := node1.color;
      node1.color := node2.color;
      node2.color := color;
    }

    /** Exchanges the places of two nodes that are no siblings, the first no child of the second. */
    method Swap(node1: RbNode, node2: RbNode, ghost s: set<RbNode>)
      requires WellLinked(s) && node1 in s && node2 in s && node1 != node2
      requires node1.parent != node2 && node1.parent != node2.parent
      modifies s
      ensures node1.Cell() == Exchanged(node1, node2, old(node2.Cell()))
      ensures node2.Cell() == Exchanged(node1, node2, old(node1.Cell()))
      ensures forall n | n in s && n != node1 && n != node2 :: n.Cell() == Exchanged(node1, node2, old(n.Cell()))
    {
      hide WellLinked;
      Family(s, node1);
      Family(s, node2);
      SwapParents(node1, node2, s);
      SwapChildren(node1, node2, s);
    }

    function Sibling(node: RbNode): RbNode?
      requires node.parent != null
      reads node, node.parent
    {
      if node == node.parent.left then node.parent.right else node.parent.left
    }

    /** Restores the rules when every way through `node`, the root of `t`, lacks one black node. */
    method RemoveBal(node: RbNode, ghost k0: Path, ghost t: Tree) returns (ghost shape: Tree)
      requires Holds(Plug(k0, t), root) && !t.Leaf? && t.node == node
      requires ShortHole(k0, t)
      modifies this`root, Nodes(Plug(k0, t))
      ensures Holds(shape, root) && RedBlack(shape) && !IsRed(shape)
      ensures SameContents(shape, Plug(k0, t))
      decreases k0
    {
      hide InOrder, Distinct, LinksIn, Before, After;
      Seen(k0, t, root);
      if node.parent == null {
        shape := t;
        return;
      }
      SiblingSeen(k0, t, root);
      var sibling := Sibling(node);
      ghost var k := k0;

      if ColorOf(sibling) == Red {
        LiftSibling(node, sibling, k0, t);
        k := Lifted(k0);
        LiftedFits(k0, t);
        Seen(k, t, root);
        SiblingSeen(k, t, root);
        sibling := Sibling(node);
      }

      if ColorOf(node.parent) == Black && ColorOf(sibling) == Black &&
         ColorOf(sibling.left) == Black && ColorOf(sibling.right) == Black
      {
        ShortUp(k, t);
        PaintSibling(sibling, Red, k, t);
        shape := RemoveBal(node.parent, k.up, Join(k.side, t, k.node, Black, k.far.(color := Red)));
        return;
      }

      if ColorOf(node.parent) == Red && ColorOf(sibling) == Black &&
         ColorOf(sibling.left) == Black && ColorOf(sibling.right) == Black
      {
        ShortPaid(k, t);
        PaintSibling(sibling, Red, k, t);
        Paint(node.parent, Black, k.up, Join(k.side, t, k.node, k.color, k.far.(color := Red)));
        shape := Plug(k.up, Join(k.side, t, k.node, Black, k.far.(color := Red)));
      } else {
        shape := BorrowFromNephew(node, sibling, k, t);
      }
    }

    method PaintSibling(sibling: RbNode, color: Color, ghost k: Path, ghost t: Tree)
      requires Holds(Plug(k, t), root) && k.Above? && k.far.Node? && k.far.node == sibling
      modifies sibling`color
      ensures Holds(Plug(k.up, Join(k.side, t, k.node, k.color, k.far.(color := color))), root)
      ensures Nodes(Plug(k.up, Join(k.side, t, k.node, k.color, k.far.(color := color)))) == Nodes(Plug(k, t))
    {
      Flip(k.up, k.side, t, k.node, k.color, k.far);
      Flip(k.up, k.side, t, k.node, k.color, k.far.(color := color));
      hide Holds, Plug, Nodes;
      Paint(sibling, color, Above(k.up, k.side.Other(), k.node, k.color, t), k.far);
    }

    /** The branch with a black sibling that has a red child. */
    method BorrowFromNephew(node: RbNode, sibling: RbNode, ghost k: Path, ghost t: Tree) returns (ghost shape: Tree)
      requires Holds(Plug(k, t), root) && !t.Leaf? && t.node == node
      requires k.Above? && ShortHole(k, t) && k.far.Node? && k.far.color.Black? && k.far.node == sibling
      requires IsRed(k.far.left) || IsRed(k.far.right)
      modifies this`root, Nodes(Plug(k, t))
      ensures Holds(shape, root) && RedBlack(shape) && !IsRed(shape)
      ensures SameContents(shape, Plug(k, t))
    {
      ghost var k' := k;
      SiblingSeen(k, t, root);
      Seen(k, t, root);
      if IsRed(Child(k.side.Other(), k.far)) { ReadyFar(k, t); } else { StraightReady(k, t); }

      if node.parent.left == node && ColorOf(sibling.right) == Black && ColorOf(sibling.left) == Red {
        StraightenLeft(sibling, k, t);
        k' := Straight(k, Red, Black);
      } else if node.parent.right == node && ColorOf(sibling.left) == Black && ColorOf(sibling.right) == Red {
        StraightenRight(sibling, k, t);
        k' := Straight(k, Black, Red);
      }
      shape := TurnFarNephew(node, k', t);
    }

    method StraightenLeft(sibling: RbNode, ghost k: Path, ghost t: Tree)
      requires Holds(Plug(k, t), root) && k.Above? && k.side.Left?
      requires k.far.Node? && k.far.node == sibling && k.far.left.Node?
      modifies this`root, Nodes(Plug(k, t))
      ensures Holds(Plug(Straight(k, Red, Black), t), root)
    {
      ghost var kS, S := Above(k.up, Right, k.node, k.color, t), k.far;
      ghost var S1 := S.(color := Red);
      ghost var S2 := S1.(left := S.left.(color := Black));
      Flip(k.up, Left, t, k.node, k.color, S);
      Flip(k.up, Left, t, k.node, k.color, Rotated(Right, S2));
      PlugNodes(kS, S);
      Seen(kS, S, root);
      ChildIn(Left, kS, S);
      hide Holds, Nodes;
      Paint(sibling, Red, kS, S);
      Paint(sibling.left, Black, Above(kS, Left, S.node, Red, S.right), S.left);
      RotateRight(sibling, kS, S2);
    }

    method StraightenRight(sibling: RbNode, ghost k: Path, ghost t: Tree)
      requires Holds(Plug(k, t), root) && k.Above? && k.side.Right?
      requires k.far.Node? && k.far.node == sibling && k.far.right.Node? && k.far.right.color.Red?
      modifies this`root, Nodes(Plug(k, t))
      ensures Holds(Plug(Straight(k, Black, Red), t), root)
    {
      ghost var kS, S := Above(k.up, Left, k.node, k.color, t), k.far;
      Flip(k.up, Right, t, k.node, k.color, S);
      Flip(k.up, Right, t, k.node, k.color, Rotated(Left, S.(color := Black)));
      PlugNodes(kS, S);
      hide Holds, Nodes;
      Paint(sibling, Black, kS, S);
      RotateLeft(sibling, kS, S.(color := Black));
    }

    /** The end of the removal: the far child of the sibling pays. */
    method TurnFarNephew(node: RbNode, ghost k: Path, ghost t: Tree) returns (ghost shape: Tree)
      requires Holds(Plug(k, t), root) && !t.Leaf? && t.node == node && FarReady(k, t)
      modifies this`root, Nodes(Plug(k, t))
      ensures Holds(shape, root) && RedBlack(shape) && !IsRed(shape)
      ensures SameContents(shape, Plug(k, t))
    {
      ghost var s, S, c := k.side, k.far, k.color;
      ghost var o := s.Other();
      ghost var F := Child(o, S);
      ghost var S' := Join(s, Child(s, S), S.node, c, F.(color := Black));
      NephewSeen(k, t, root);
      FarPaid(k, t);
      var sibling := Sibling(node);
      var parent := node.parent;
      hide Holds, Nodes, RedBlack, PathRedBlack, SameContents;
      PaintSibling(sibling, ColorOf(parent), k, t);
      ghost var S1 := S.(color := c);
      Paint(parent, Black, k.up, Join(s, t, k.node, c, S1));
      ghost var kF := Above(Above(k.up, o, k.node, Black, t), o, S.node, c, Child(s, S));
      if parent.left == node {
        Paint(sibling.right, Black, kF, F);
        RotateLeft(parent, k.up, Join(s, t, k.node, Black, S'));
      } else {
        Paint(sibling.left, Black, kF, F);
        RotateRight(parent, k.up, Join(s, t, k.node, Black, S'));
      }
      shape := Plug(k.up, Rotated(s, Join(s, t, k.node, Black, S')));
    }

    /** The branch with a red sibling. */
    method LiftSibling(node: RbNode, sibling: RbNode, ghost k: Path, ghost t: Tree)
      requires Holds(Plug(k, t), root) && !t.Leaf? && t.node == node
      requires k.Above? && k.color.Black? && IsRed(k.far) && k.far.node == sibling && node.parent == k.node
      requires (node == node.parent.left) == k.side.Left?
      modifies this`root, Nodes(Plug(k, t))
      ensures Holds(Plug(Lifted(k), t), root)
    {
      ghost var p, S := k.node, k.far;
      PlugNodes(k, t);
      Flip(k.up, k.side, t, p, Black, S);
      Flip(k.up, k.side, t, p, Red, S.(color := Black));
      var parent := node.parent;
      Paint(parent, Red, k.up, Join(k.side, t, p, Black, S));
      Flip(k.up, k.side, t, p, Red, S);
      Paint(sibling, Black, Above(k.up, k.side.Other(), p, Red, t), S);

      if node == parent.left {
        RotateLeft(parent, k.up, Join(Left, t, p, Red, S.(color := Black)));
      } else {
        RotateRight(parent, k.up, Join(Right, t, p, Red, S.(color := Black)));
      }
    }

    /** Takes `node` out of the tree. */
    method Remove(node: RbNode)
      requires Valid() && node in Nodes(shape)
      modifies this, Nodes(shape)
      ensures Valid()
      ensures InOrder(shape) == Without(old(InOrder(shape)), node)
      ensures Nodes(shape) == old(Nodes(shape)) - {node}
      ensures node.parent == null && node.left == null && node.right == null
    {
      ghost var T := shape;
      assert allocated(Nodes(T));
      var phantom := new RbNode(node.key);
      ghost var s := MoveDown(node);
      s := TakeOut(node, phantom, s);
      SortedWithout(InOrder(T), node);
      Record(s);
    }

    /** Unlinks a node with at most one child and repairs the rules. */
    method TakeOut(node: RbNode, phantom: RbNode, ghost s: Tree) returns (ghost s': Tree)
      requires Holds(s, root) && RedBlack(s) && !IsRed(s) && Ghosts(s) == {} && node in Nodes(s)
      requires node.left == null || node.right == null
      requires phantom !in Nodes(s) && phantom.Cell() == Links(null, null, null, Black)
      modifies this`root, Nodes(s), phantom
      ensures Holds(s', root) && RedBlack(s') && !IsRed(s') && Ghosts(s') == {}
      ensures InOrder(s') == Without(InOrder(s), node) && Nodes(s') == Nodes(s) - {node}
      ensures node.parent == null && node.left == null && node.right == null
    {
      ghost var (k, t) := PathTo(s, node, Top);
      assert Plug(k, t) == s;
      hide Nodes, PathNodes, Ghosts, RedBlack, InOrder, PathRedBlack, Plug, Distinct, HoldsCells, Without, Fits,
        ShortHole, PathTo;
      AtMostOneChild(k, t, root);
      RemovalRulesHold(k, t, phantom);
      StandContents(k, t, phantom);
      StandNodes(k, t, phantom);
      var child;
      ghost var t';
      child, t' := Splice(node, phantom, k, t);

      s' := Repair(node, child, k, t, t');
      if phantom == child {
        s' := DropPhantom(phantom, s');
      }
    }

    /** The repair, once `child` has taken the place of `node`. */
    method Repair(node: RbNode, child: RbNode, ghost k: Path, ghost t: Tree, ghost t': Tree) returns (ghost s': Tree)
      requires Holds(Plug(k, t'), root) && t.Node? && RemovalRules(k, t, t') && !t'.Leaf? && child == t'.node
      requires node.color == t.color && child.color == (if t'.Phantom? then Black else Red)
      modifies this`root, Nodes(Plug(k, t'))
      ensures Holds(s', root) && RedBlack(s') && !IsRed(s') && SameContents(s', Plug(k, t'))
    {
      PlugNodes(k, t');
      assert child in Nodes(Plug(k, t'));
      hide Nodes, Ghosts, RedBlack, InOrder, PathRedBlack, Plug, Distinct, HoldsCells;
      s' := Plug(k, t');
      if ColorOf(node) == Black {
        if ColorOf(child) == Red {
          Paint(child, Black, k, t');
          s' := Plug(k, t'.(color := Black));
        } else {
          s' := RemoveBal(child, k, t');
        }
      }
    }

    method DropPhantom(phantom: RbNode, ghost s: Tree) returns (ghost s': Tree)
      requires Holds(s, root) && RedBlack(s) && !IsRed(s) && Ghosts(s) == {phantom}
      modifies this`root, Nodes(s)
      ensures Holds(s', root) && RedBlack(s') && !IsRed(s') && Ghosts(s') == {}
      ensures InOrder(s') == InOrder(s) && Nodes(s') == Nodes(s) - {phantom}
    {
      GhostsIn(s);
      ghost var (k, t) := PathTo(s, phantom, Top);
      PhantomFits(k, t, phantom);
      PhantomSeen(k, phantom, root);
      s' := Plug(k, Leaf);
      hide LinksIn, Nodes, Distinct, HoldsCells, Ghosts, RedBlack, InOrder, Plug;
      DropLink(phantom, Parent(k), s');
    }

    method DropLink(phantom: RbNode, ghost parent: RbNode?, ghost T': Tree)
      requires phantom.parent == parent && (parent == null <==> root == phantom)
      requires parent != null ==> parent in Nodes(T')
      requires forall n | n in Nodes(T') ::
        (LinksIn(T', null, n) == if n == parent then Redirected(n.Cell(), phantom, null) else n.Cell())
      modifies this`root
      modifies if parent == null then {} else {parent}
      ensures HoldsCells(T') && root == if parent == null then null else old(root)
    {
      assert allocated(Nodes(T'));
      hide LinksIn, Nodes;
      Relink(phantom.parent, phantom, null);
    }

    /** Puts the only child of `node`, or else the phantom, in its place. */
    method Splice(node: RbNode, phantom: RbNode, ghost k: Path, ghost t: Tree) returns (child: RbNode, ghost t': Tree)
      requires Holds(Plug(k, t), root) && t.Node? && t.node == node && Ghosts(t) == {} && RedBlack(t)
      requires node.left == null || node.right == null
      requires phantom !in Nodes(Plug(k, t)) && phantom.Cell() == Links(null, null, null, Black)
      modifies this`root, Nodes(Plug(k, t)), phantom
      ensures t' == Stand(t, phantom) && child == t'.node
      ensures Holds(Plug(k, t'), root)
      ensures node.Cell() == Links(null, null, null, t.color)
      ensures child.color == if t'.Phantom? then Black else Red
    {
      Seen(k, t, root);
      OneChild(t);
      t' := Stand(t, phantom);
      StandFits(k, t, phantom);
      StandSeen(k, t, phantom, root);
      if node.left != null {
        child := node.left;
      } else if node.right != null {
        child := node.right;
      } else {
        child := phantom;
      }
      hide LinksIn, Nodes, Distinct, HoldsCells, Ghosts, RedBlack;
      SpliceLinks(node, child, Parent(k), Plug(k, t'));
    }

    /** The links that take `node` out and put `child` in. */
    method SpliceLinks(node: RbNode, child: RbNode, ghost parent: RbNode?, ghost T': Tree)
      requires node.parent == parent && node != child && parent != node && parent != child
      requires child == node.left || child == node.right || (node.left == null && node.right == null)
      requires node.left == null || node.right == null
      requires child.left == null && child.right == null && node !in Nodes(T')
      requires parent != null ==> parent in Nodes(T')
      requires child in Nodes(T') && LinksIn(T', null, child) == Links(parent, null, null, child.color)
      requires forall n | n in Nodes(T') && n != child ::
        (LinksIn(T', null, n) == if n == parent then Redirected(n.Cell(), node, child) else n.Cell())
      modifies this`root, node, child
      modifies if parent == null then {} else {parent}
      ensures HoldsCells(T') && root == if parent == null then child else old(root)
      ensures node.Cell() == Links(null, null, null, old(node.color)) && child.color == old(child.color)
    {
      assert allocated(Nodes(T'));
      hide LinksIn, Nodes;
      Relink(node.parent, node, child);

      if child != node.left {
        child.left := node.left;
      }
      if child != node.right {
        child.right := node.right;
      }

      child.parent := node.parent;
      node.left := null;
      node.right := null;
      node.parent := null;
    }

    /** Exchanges a node that has two children with its predecessor. */
    method MoveDown(node: RbNode) returns (ghost s: Tree)
      requires Valid() && node in Nodes(shape)
      modifies this`root, Nodes(shape)
      ensures Holds(s, root) && RedBlack(s) && !IsRed(s) && Ghosts(s) == {}
      ensures Nodes(s) == Nodes(shape) && Without(InOrder(s), node) == Without(InOrder(shape), node)
      ensures node.left == null || node.right == null
    {
      s := shape;
      ghost var (k, t) := PathTo(shape, node, Top);
      Seen(k, t, root);
      PlugNodes(k, t);
      if node.left != null && node.right != null {
        var prev;
        ghost var kk, tt;
        assert allocated(Nodes(shape));
        prev, kk, tt := Predecessor(node, k, t);
        SwapWithout(k, t, kk, tt);
        ParentOutside(k, t);
        s := Renamed(node, prev, shape);
        RenamedWhole(node, prev, shape);
        RenamedRedBlack(node, prev, shape);
        SwapNodes(node, prev, shape);
      }
    }

    /** The exchange itself, told of the whole tree. */
    method SwapNodes(node: RbNode, prev: RbNode, ghost T: Tree)
      requires Holds(T, root) && Ghosts(T) == {} && node in Nodes(T) && prev in Nodes(T) && node != prev
      requires node.parent != prev && node.parent != prev.parent
      modifies this`root, Nodes(T)
      ensures HoldsCells(Renamed(node, prev, T)) && root == RootNode(Renamed(node, prev, T))
      ensures Nodes(Renamed(node, prev, T)) == Nodes(T)
      ensures node.right == Other(node, prev, old(prev.right))
    {
      ghost var T' := Renamed(node, prev, T);
      hide LinksIn, Nodes, Distinct, Ghosts, WellLinked, Renamed, Holds, HoldsCells, Exchanged, Other, Twin;
      SwapReady(node, prev, T, root);
      assert allocated(Nodes(T));
      SwapAll(node, prev, T, T');
      MoveRoot(node, prev, T');
    }

    method MoveRoot(node: RbNode, prev: RbNode, ghost T': Tree)
      requires HoldsCells(T') && node != prev
      modifies this`root
      ensures HoldsCells(T') && root == Other(node, prev, old(root))
    {
      hide LinksIn, Nodes;
      if root == prev {
        root := node;
      } else if root == node {
        root := prev;
      }
    }

    method SwapAll(node: RbNode, prev: RbNode, ghost T: Tree, ghost T': Tree)
      requires WellLinked(Nodes(T)) && node in Nodes(T) && prev in Nodes(T) && node != prev
      requires node.parent != prev && node.parent != prev.parent && Nodes(T') == Nodes(T)
      requires LinksIn(T', null, node) == Exchanged(node, prev, prev.Cell())
      requires LinksIn(T', null, prev) == Exchanged(node, prev, node.Cell())
      requires forall n | n in Nodes(T) && n != node
        && n != prev :: LinksIn(T', null, n) == Exchanged(node, prev, n.Cell())
      modifies Nodes(T)
      ensures HoldsCells(T') && node.right == Other(node, prev, old(prev.right))
    {
      hide LinksIn, Nodes, WellLinked, Other;
      Swap(node, prev, Nodes(T));
    }

    method Predecessor(node: RbNode, ghost k: Path, ghost t: Tree)
      returns (prev: RbNode, ghost kk: Path, ghost tt: Tree)
      requires Holds(Plug(k, t), root) && t.Node? && t.node == node && t.left.Node? && Ghosts(t) == {}
      ensures Plug(kk, tt) == Plug(k, t) && tt.Node? && tt.node == prev && tt.right.Leaf?
      ensures prev in Nodes(t.left) && Parent(kk) != null && Parent(kk) in Nodes(t)
      ensures After(kk) == [node] + InOrder(t.right) + After(k)
      ensures prev.right == null && prev.parent == Parent(kk)
    {
      Seen(k, t, root);
      kk, tt := Above(k, Left, node, t.color, t.right), t.left;
      prev := node.left;
      Seen(kk, tt, root);
      while prev.right != null
        invariant Holds(Plug(k, t), root) && Plug(kk, tt) == Plug(k, t)
        invariant tt.Node? && tt.node == prev && Ghosts(tt) == {} && prev.right == RootNode(tt.right)
        invariant prev.parent == Parent(kk)
        invariant Nodes(tt) <= Nodes(t.left) && Parent(kk) != null && Parent(kk) in Nodes(t)
        invariant After(kk) == [node] + InOrder(t.right) + After(k)
        decreases tt
      {
        kk, tt := Above(kk, Right, tt.node, tt.color, tt.left), tt.right;
        prev := prev.right;
        Seen(kk, tt, root);
      }
    }

    /** A node whose key equals that of the probe, in logarithmically many steps. */
    method Search(value: RbNode) returns (found: RbNode?, ghost steps: nat)
      requires Valid()
      ensures found != null ==> found in InOrder(shape) && found.key == value.key
      ensures found == null ==> forall x | x in InOrder(shape) :: x.key != value.key
      ensures Pow2((steps + 1) / 2) <= |InOrder(shape)| + 1
    {
      found := root;
      steps := 0;
      ghost var k, t := Top, shape;
      while found != null
        invariant Valid() && shape == old(shape)
        invariant Plug(k, t) == shape && found == RootNode(t) && Ghosts(t) == {}
        invariant steps + Height(t) <= Height(shape)
        invariant Misses(k, value)
        decreases t
      {
        Seen(k, t, root);
        SearchStep(k, t, value);
        steps := steps + 1;
        var comparision := Compare(value, found);

        if comparision == 0 {
          StepsBound(shape, steps);
          return;
        }

        if comparision < 0 {
          k, t := Above(k, Left, t.node, t.color, t.right), t.left;
          found := found.left;
        } else {
          k, t := Above(k, Right, t.node, t.color, t.left), t.right;
          found := found.right;
        }
      }
      PlugInOrder(k, t);
      StepsBound(shape, steps);
    }

    /** Down to the leftmost node below `node`. */
    method Leftmost(node: RbNode, ghost k: Path, ghost t: Tree) returns (first: RbNode)
      requires Holds(Plug(k, t), root) && t.Node? && t.node == node && Ghosts(t) == {}
      ensures InOrder(t) != [] && first == InOrder(t)[0]
    {
      first := node;
      ghost var k', t' := k, t;
      Seen(k, t, root);
      while first.left != null
        invariant Holds(Plug(k, t), root) && Plug(k', t') == Plug(k, t)
        invariant t'.Node? && t'.node == first && first.left == RootNode(t'.left) && Ghosts(t') == {}
        invariant InOrder(t) != [] && InOrder(t)[0] == InOrder(t')[0]
        decreases t'
      {
        k', t' := Above(k', Left, t'.node, t'.color, t'.right), t'.left;
        first := first.left;
        Seen(k', t', root);
      }
    }

    method First() returns (first: RbNode?)
      requires Valid()
      ensures first == Head(shape)
    {
      first := root;
      if first != null {
        first := Leftmost(first, Top, shape);
      }
    }

    /** The step of the walks: onwards in the order, but not always to the very next node. */
    method Next(node: RbNode) returns (next: RbNode?, ghost before: seq<RbNode>, ghost after: seq<RbNode>)
      requires Valid() && node in Nodes(shape)
      ensures InOrder(shape) == before + [node] + after
      ensures next != null ==> next in after
      ensures next == Onward(shape, node)
      ensures next == (if after == [] then null else after[0]) <==> node.right != null || after == []
    {
      ghost var (k, t) := PathTo(shape, node, Top);
      Seen(k, t, root);
      AroundNode(k, t);
      if k.Above? { AboveLeft(k, t); }
      before, after := Before(k) + InOrder(t.left), InOrder(t.right) + After(k);
      hide InOrder, Before, After, Nodes, Plug, Holds, RedBlack, Ghosts;
      next := null;
      if node.right != null {
        next := Leftmost(node.right, Above(k, Right, node, t.color, t.left), t.right);
      } else if node.parent != null {
        if node != node.parent.right {
          next := node.parent.right;
          if next != null {
            next := Leftmost(next, Above(k.up, Right, k.node, k.color, t), k.far);
          }
        }
      }
    }

    /** The objects around a rotation. */
    lemma Around(s: Side, k: Path, t: Tree)
      requires Distinct(Plug(k, t)) && t.Node? && Child(s.Other(), t).Node?
      ensures var T := Plug(k, t);
        var x, y, z, p := t.node, Child(s.Other(), t).node, RootNode(Child(s, Child(s.Other(), t))), Parent(k);
        && x in Nodes(T) && y in Nodes(T) && (z != null ==> z in Nodes(T)) && (p != null ==> p in Nodes(T))
        && x != y && z != x && z != y && p != x && p != y && (p == null || p != z)
        && (var c := LinksIn(T, null, x); (if s.Left? then c.right else c.left) == y && c.parent == p)
        && (var c := LinksIn(T, null, y); (if s.Left? then c.left else c.right) == z)
        && RootNode(Plug(k, Rotated(s, t))) == (if k.Top? then y else RootNode(T))
    {
      var x, y := t.node, Child(s.Other(), t);
      PlugNodes(k, t);
      PlugLinks(k, t, x);
      PlugLinks(k, t, y.node);
      RotatedContents(s, t);
      PlugNodes(k, Rotated(s, t));
      PlugLinks(k, Rotated(s, t), x);
      assert Distinct(y) && LinksIn(t, Parent(k), y.node) == LinksIn(y, x, y.node);
    }

    /** Recolouring one node. */
    method Paint(node: RbNode, color: Color, ghost k: Path, ghost t: Tree)
      requires Holds(Plug(k, t), root)
      requires t.Node? && t.node == node
      modifies node`color
      ensures Holds(Plug(k, t.(color := color)), root)
      ensures Nodes(Plug(k, t.(color := color))) == Nodes(Plug(k, t))
    {
      ghost var T, T' := Plug(k, t), Plug(k, t.(color := color));
      forall n | n in Nodes(T) { PaintedLinks(k, t, color, n); }
      PlugNodes(k, t);
      PaintedLinks(k, t, color, node);
      hide LinksIn, LinksAbove, Nodes, PathNodes, Distinct, PathDistinct, Plug;
      node.color := color;
    }

    function Grandparent(node: RbNode): RbNode?
      reads node, node.parent
    {
      if node.parent != null then node.parent.parent else null
    }

    function Uncle(node: RbNode): RbNode?
      reads node, node.parent, Grandparent(node)
    {
      var grandparent := Grandparent(node);
      if grandparent == null then null
      else if node.parent == grandparent.left then grandparent.right
      else grandparent.left
    }

    /** Restores the rules after `node`, the root of `t`, has become red. */
    method InsertBal(node: RbNode, ghost k: Path, ghost t: Tree) returns (ghost shape: Tree)
      requires Holds(Plug(k, t), root) && t.Node? && t.node == node && RedHole(k, t)
      modifies this`root, Nodes(Plug(k, t))
      ensures Holds(shape, root) && RedBlack(shape) && !IsRed(shape)
      ensures SameContents(shape, Plug(k, t))
      decreases k
    {
      Seen(k, t, root);
      if root == node {
        Paint(node, Black, k, t);
        shape := t.(color := Black);
      } else if ColorOf(node.parent) == Red {
        SeenUncle(k, t, root);
        var uncle := Uncle(node);
        var grandparent := Grandparent(node);

        if uncle != null && uncle.color == Red {
          PushRedUp(node, uncle, grandparent, k, t);
          PushedUp(k, t);
          shape := InsertBal(grandparent, k.up.up, RedUp(k, t));
        } else {
          shape := TurnRedOut(node, grandparent, k, t);
        }
      } else {
        shape := Plug(k, t);
        PlugRedBlack(k, t);
      }
    }

    /** The branch with a red uncle, up to the recursive call. */
    method PushRedUp(node: RbNode, uncle: RbNode, grandparent: RbNode, ghost k: Path, ghost t: Tree)
      requires Holds(Plug(k, t), root) && t.Node? && RedHole(k, t) && PathRed(k) && IsRed(k.up.far)
      requires t.node == node && k.node == node.parent && k.up.node == grandparent && k.up.far.node == uncle
      modifies Nodes(Plug(k, t))
      ensures Holds(Plug(k.up.up, RedUp(k, t)), root)
    {
      ghost var k2, s, P, U := k.up.up, k.up.side, Join(k.side, t, k.node, Black, k.far), k.up.far;
      Around2(k, t);
      hide RedBlack, PathRedBlack, Nodes, Holds;
      Paint(node.parent, Black, k.up, Join(k.side, t, k.node, k.color, k.far));
      Paint(uncle, Black, Above(k2, s.Other(), grandparent, k.up.color, P), U);
      Paint(grandparent, Red, k2, Join(s, P, grandparent, k.up.color, U.(color := Black)));
    }

    /** The branch without a red uncle: one or two rotations. */
    method TurnRedOut(node: RbNode, grandparent: RbNode, ghost k: Path, ghost t: Tree) returns (ghost shape: Tree)
      requires Holds(Plug(k, t), root) && t.Node? && RedHole(k, t) && PathRed(k) && !IsRed(k.up.far)
      requires t.node == node && k.node == node.parent && k.up.node == grandparent
      modifies this`root, Nodes(Plug(k, t))
      ensures Holds(shape, root) && RedBlack(shape) && !IsRed(shape)
      ensures SameContents(shape, Plug(k, t))
    {
      SeenUncle(k, t, root);
      Seen(k, t, root);
      var node := node;
      ghost var k', t' := k, t;
      if node == node.parent.right && node.parent == grandparent.left {
        StraightenFits(k, t);
        RotateLeft(node.parent, k.up, Join(Right, t, k.node, Red, k.far));
        k', t' := Straighter(k, t), Join(Left, k.far, k.node, Red, t.left);
        Seen(k', t', root);
        node := node.left;
      } else if node == node.parent.left && node.parent == grandparent.right {
        StraightenFits(k, t);
        RotateRight(node.parent, k.up, Join(Left, t, k.node, Red, k.far));
        k', t' := Straighter(k, t), Join(Right, k.far, k.node, Red, t.right);
        Seen(k', t', root);
        node := node.right;
      }
      shape := TurnOuterRed(node, k', t');
    }

    method TurnOuterRed(node: RbNode, ghost k: Path, ghost t: Tree) returns (ghost shape: Tree)
      requires Holds(Plug(k, t), root) && t.Node? && RedHole(k, t) && PathRed(k) && !IsRed(k.up.far)
      requires t.node == node && k.side == k.up.side
      modifies this`root, Nodes(Plug(k, t))
      ensures Holds(shape, root) && RedBlack(shape) && !IsRed(shape)
      ensures SameContents(shape, Plug(k, t))
    {
      ghost var k1, s, U := k.up, k.side, k.up.far;
      ghost var P := Join(s, t, k.node, Black, k.far);
      ghost var G := Join(s, P, k1.node, Red, U);
      SeenUncle(k, t, root);
      Seen(k, t, root);
      Around2(k, t);
      OuterRed(k, t);
      hide RedBlack, PathRedBlack, Nodes, Holds, SameContents, Rotated;
      var grandparent := Grandparent(node);
      Paint(node.parent, Black, k1, Join(s, t, k.node, k.color, k.far));
      Paint(grandparent, Red, k1.up, Join(s, P, k1.node, k1.color, U));

      if node == node.parent.left && node.parent == grandparent.left {
        RotateRight(grandparent, k1.up, G);
      } else {
        RotateLeft(grandparent, k1.up, G);
      }
      shape := Plug(k1.up, Outer(k, t));
    }
  }

  /** The subtree of the grandparent after its recolouring and rotation. */
  ghost function Outer(k: Path, t: Tree): Tree
    requires k.Above? && k.up.Above? && k.side == k.up.side
  {
    Rotated(k.side.Other(), Join(k.side, Join(k.side, t, k.node, Black, k.far), k.up.node, Red, k.up.far))
  }

  lemma OuterRedFits(k: Path, t: Tree)
    requires RedHole(k, t) && PathRed(k) && !IsRed(k.up.far) && k.side == k.up.side
    ensures Fits(k.up.up, Outer(k, t))
  {
    var s := k.side.Other();
    var h := BlackHeight(t);
    assert PathRedBlack(k.up, h) && PathRedBlack(k.up.up, h + 1);
    assert RedBlack(k.far) && RedBlack(k.up.far) && BlackHeight(k.far) == h == BlackHeight(k.up.far);
    assert RedBlack(Join(s, k.up.far, k.up.node, Red, k.far));
    assert Outer(k, t) == Join(s, Join(s, k.up.far, k.up.node, Red, k.far), k.node, Black, t);
  }

  lemma OuterRed(k: Path, t: Tree)
    requires RedHole(k, t) && PathRed(k) && !IsRed(k.up.far) && k.side == k.up.side
    ensures var T := Plug(k.up.up, Outer(k, t)); RedBlack(T) && !IsRed(T) && SameContents(T, Plug(k, t))
    ensures Nodes(Plug(k.up.up, Join(k.side, Join(k.side, t, k.node, Black, k.far), k.up.node, Red, k.up.far)))
      == Nodes(Plug(k, t))
  {
    var s := k.side;
    var G := Join(s, Join(s, t, k.node, Black, k.far), k.up.node, Red, k.up.far);
    RotatedContents(s.Other(), G);
    OuterRedFits(k, t);
    PlugRedBlack(k.up.up, Outer(k, t));
    hide RedBlack, PathRedBlack, Rotated;
    var G0 := Join(s, Join(s, t, k.node, Red, k.far), k.up.node, Black, k.up.far);
    SameJoin(s, Join(s, t, k.node, Red, k.far), Join(s, t, k.node, Black, k.far), k.up.node, Black, Red, k.up.far,
             k.up.far);
    SameInside(k.up.up, G0, G);
    SameInside(k.up.up, G, Outer(k, t));
  }

  /** The path to the old parent, once it has been turned below `t`. */
  ghost function Straighter(k: Path, t: Tree): Path
    requires k.Above? && t.Node?
  {
    Above(k.up, k.side.Other(), t.node, Red, Child(k.side, t))
  }

  lemma StraightenFits(k: Path, t: Tree)
    requires RedHole(k, t) && PathRed(k) && k.side != k.up.side
    ensures var s := k.side.Other(); var P := Join(k.side, t, k.node, Red, k.far);
      var k', t' := Straighter(k, t), Join(s, k.far, k.node, Red, Child(s, t));
      && Plug(k', t') == Plug(k.up, Rotated(s, P)) && Plug(k, t) == Plug(k.up, P)
      && RedHole(k', t') && SameContents(Plug(k', t'), Plug(k, t))
  {
    var s := k.side.Other();
    var P := Join(k.side, t, k.node, Red, k.far);
    RotatedContents(s, P);
    SameInside(k.up, Rotated(s, P), P);
  }

  /** `node` belongs into the hole of `k`, after whatever equals it. */
  ghost predicate Between(k: Path, node: RbNode) {
    && (forall x | x in Before(k) :: x.key <= node.key)
    && (forall x | x in After(k) :: node.key < x.key)
    && (k.Above? ==> (k.side.Left? <==> node.key < k.node.key))
  }

  lemma Narrow(k: Path, t: Tree, node: RbNode)
    requires t.Node? && Sorted(InOrder(Plug(k, t))) && Between(k, node)
    ensures if node.key < t.node.key then Between(Above(k, Left, t.node, t.color, t.right), node)
            else Between(Above(k, Right, t.node, t.color, t.left), node)
  {
    SortedSplit(k, t);
  }

  lemma SortedSplit(k: Path, t: Tree)
    requires t.Node? && Sorted(InOrder(Plug(k, t)))
    ensures forall x | x in InOrder(t.left) :: x.key <= t.node.key
    ensures forall x | x in InOrder(t.right) :: t.node.key <= x.key
  {
    var a, b := InOrder(t.left), InOrder(t.right);
    PlugInOrder(k, t);
    SortedConcat(Before(k) + InOrder(t), After(k));
    SortedConcat(Before(k), InOrder(t));
    SortedConcat(a + [t.node], b);
    SortedConcat(a, [t.node]);
  }

  lemma HoleFits(k: Path, x: RbNode)
    requires RedBlack(Plug(k, Leaf)) && !IsRed(Plug(k, Leaf)) && x !in Nodes(Plug(k, Leaf))
    ensures RedHole(k, Node(Leaf, x, Red, Leaf))
    ensures Nodes(Plug(k, Node(Leaf, x, Red, Leaf))) == Nodes(Plug(k, Leaf)) + {x}
    ensures Ghosts(Plug(k, Node(Leaf, x, Red, Leaf))) == Ghosts(Plug(k, Leaf))
  {
    PlugRedBlack(k, Leaf);
    PlugNodes(k, Leaf);
    PlugNodes(k, Node(Leaf, x, Red, Leaf));
  }

  lemma Inserted(k: Path, x: RbNode)
    requires Sorted(InOrder(Plug(k, Leaf))) && Between(k, x)
    ensures InOrder(Plug(k, Leaf)) == Before(k) + After(k)
    ensures InOrder(Plug(k, Node(Leaf, x, Red, Leaf))) == Before(k) + [x] + After(k)
    ensures Sorted(InOrder(Plug(k, Node(Leaf, x, Red, Leaf))))
  {
    PlugInOrder(k, Leaf);
    PlugInOrder(k, Node(Leaf, x, Red, Leaf));
    assert InOrder(Node(Leaf, x, Red, Leaf)) == [x];
    hide InOrder, Before, After, Plug;
    SortedConcat(Before(k), After(k));
    hide Sorted;
    SortedConcat(Before(k), [x]);
    SortedConcat(Before(k) + [x], After(k));
  }

  lemma AttachedLinks(k: Path, x: RbNode, n: RbNode)
    requires Distinct(Plug(k, Leaf)) && x !in Nodes(Plug(k, Leaf)) && n in Nodes(Plug(k, Leaf)) + {x}
    ensures var T, T' := Plug(k, Leaf), Plug(k, Node(Leaf, x, Red, Leaf));
      && Nodes(T') == Nodes(T) + {x} && Distinct(T')
      && RootNode(T') == (if k.Top? then x else RootNode(T))
      && (k.Top? <==> RootNode(T) == null)
      && (k.Above? ==> k.node in Nodes(T))
      && LinksIn(T', null, n) ==
           if n == x then Links(Parent(k), null, null, Red)
           else if n == Parent(k) then WithChild(k.side, LinksIn(T, null, n), x)
           else LinksIn(T, null, n)
  {
    var t := Node(Leaf, x, Red, Leaf);
    PlugNodes(k, Leaf);
    PlugNodes(k, t);
    PlugLinks(k, Leaf, n);
    PlugLinks(k, t, n);
    if n != x { LinksAboveHole(k, null, x, n); }
    if k.Above? { TopNodeAbove(k, null); }
  }

  /** All is well except that the red root of `t` may have a red parent. */
  ghost predicate RedHole(k: Path, t: Tree) {
    RedBlack(t) && IsRed(t) && PathRedBlack(k, BlackHeight(t))
  }

  ghost predicate SameContents(a: Tree, b: Tree) {
    InOrder(a) == InOrder(b) && Nodes(a) == Nodes(b) && Ghosts(a) == Ghosts(b)
  }

  lemma SeenUncle(k: Path, t: Tree, root: RbNode?)
    requires Holds(Plug(k, t), root) && t.Node? && PathRed(k) && k.up.Above?
    ensures t.node.parent == k.node
    ensures var U := k.up.far; var uncle := RootNode(U);
      && k.node.parent == k.up.node && k.up.node.Cell() == Linked(Parent(k.up.up), k.up.side, k.node, uncle, k.up.color)
      && k.node != uncle
      && (IsRed(U) <==> uncle != null && uncle.color == Red)
  {
    var P := Join(k.side, t, k.node, k.color, k.far);
    Seen(k, t, root);
    Seen(k.up, P, root);
    Flip(k.up.up, k.up.side, P, k.up.node, k.up.color, k.up.far);
    if !k.up.far.Leaf? {
      Seen(Above(k.up.up, k.up.side.Other(), k.up.node, k.up.color, P), k.up.far, root);
    }
  }

  /** The focus may move between siblings. */
  lemma Flip(k: Path, s: Side, a: Tree, x: RbNode, c: Color, b: Tree)
    ensures Plug(Above(k, s, x, c, b), a) == Plug(k, Join(s, a, x, c, b)) == Plug(Above(k, s.Other(), x, c, a), b)
  {
  }

  lemma Around2(k: Path, t: Tree)
    requires t.Node? && k.Above? && k.up.Above?
    ensures {t.node, k.node, k.up.node} <= Nodes(Plug(k, t))
    ensures k.up.far.Node? ==> k.up.far.node in Nodes(Plug(k, t))
  {
    PlugNodes(k, t);
  }

  /** Grandparent red, parent and uncle black. */
  ghost function RedUp(k: Path, t: Tree): Tree
    requires k.Above? && k.up.Above? && k.up.far.Node?
  {
    Join(k.up.side, Join(k.side, t, k.node, Black, k.far), k.up.node, Red, k.up.far.(color := Black))
  }

  lemma PushedUp(k: Path, t: Tree)
    requires RedHole(k, t) && PathRed(k) && IsRed(k.up.far)
    ensures RedHole(k.up.up, RedUp(k, t)) && SameContents(Plug(k.up.up, RedUp(k, t)), Plug(k, t))
  {
    var P := Join(k.side, t, k.node, Red, k.far);
    var h := BlackHeight(t);
    assert PathRedBlack(k.up, h) && PathRedBlack(k.up.up, h + 1);
    assert RedBlack(Join(k.side, t, k.node, Black, k.far)) && RedBlack(k.up.far.(color := Black));
    SameJoin(k.up.side, P, Join(k.side, t, k.node, Black, k.far), k.up.node, Black, Red, k.up.far,
             k.up.far.(color := Black));
    SameInside(k.up.up, RedUp(k, t), Join(k.up.side, P, k.up.node, k.up.color, k.up.far));
  }

  /** Colours do not matter to the contents. */
  lemma SameJoin(s: Side, near: Tree, near': Tree, x: RbNode, c: Color, c': Color, far: Tree, far': Tree)
    requires SameContents(near, near') && SameContents(far, far')
    ensures SameContents(Join(s, near, x, c, far), Join(s, near', x, c', far'))
  {
  }

  lemma SameInside(k: Path, a: Tree, b: Tree)
    requires SameContents(a, b)
    ensures SameContents(Plug(k, a), Plug(k, b))
  {
    PlugInOrder(k, a);
    PlugInOrder(k, b);
    PlugNodes(k, a);
    PlugNodes(k, b);
  }

  lemma PaintedLinks(k: Path, t: Tree, c: Color, n: RbNode)
    requires Distinct(Plug(k, t)) && t.Node? && n in Nodes(Plug(k, t))
    ensures var T, T' := Plug(k, t), Plug(k, t.(color := c));
      && Nodes(T') == Nodes(T) && Distinct(T') && RootNode(T') == RootNode(T)
      && LinksIn(T', null, n) == if n == t.node then LinksIn(T, null, n).(color := c) else LinksIn(T, null, n)
  {
    PlugNodes(k, t);
    PlugNodes(k, t.(color := c));
    PlugLinks(k, t, n);
    PlugLinks(k, t.(color := c), n);
  }

  /** All is well except that the ways through `t` lack one black node. */
  ghost predicate ShortHole(k: Path, t: Tree) {
    RedBlack(t) && !IsRed(t) && PathRedBlack(k, BlackHeight(t) + 1)
  }

  lemma SiblingSeen(k: Path, t: Tree, root: RbNode?)
    requires Holds(Plug(k, t), root) && !t.Leaf? && k.Above? && ShortHole(k, t)
    ensures k.far.Node? && k.node != k.far.node && t.node != k.far.node
    ensures (t.node == k.node.left) == k.side.Left?
    ensures k.node.Cell() == Linked(Parent(k.up), k.side, t.node, k.far.node, k.color)
    ensures k.far.node.Cell() == Links(k.node, RootNode(k.far.left), RootNode(k.far.right), k.far.color)
    ensures IsRed(k.far.left) <==> k.far.node.left != null && k.far.node.left.color == Red
    ensures IsRed(k.far.right) <==> k.far.node.right != null && k.far.node.right.color == Red
    ensures {k.node, k.far.node} <= Nodes(Plug(k, t))
  {
    Seen(k, t, root);
    Flip(k.up, k.side, t, k.node, k.color, k.far);
    var k' := Above(k.up, k.side.Other(), k.node, k.color, t);
    var S := k.far;
    Seen(k', S, root);
    ChildSeen(Left, k', S, root);
    ChildSeen(Right, k', S, root);
    PlugNodes(k, t);
  }

  /** The far child of the sibling can take the place of the missing black node. */
  ghost predicate FarReady(k: Path, t: Tree) {
    && RedBlack(t) && !IsRed(t) && k.Above? && k.far.Node?
    && (var near, far := Child(k.side, k.far), Child(k.side.Other(), k.far);
        && RedBlack(near) && BlackHeight(near) == BlackHeight(t)
        && far.Node? && RedBlack(far.(color := Black)) && BlackHeight(far.(color := Black)) == BlackHeight(t) + 1)
    && PathRedBlack(k.up, BlackHeight(t) + 1 + Weight(k.color))
    && (k.color.Red? ==> k.up.Above? && !PathRed(k.up))
  }

  lemma ReadyFar(k: Path, t: Tree)
    requires k.Above? && ShortHole(k, t) && k.far.Node? && k.far.color.Black?
    requires IsRed(Child(k.side.Other(), k.far))
    ensures FarReady(k, t)
  {
    var F := Child(k.side.Other(), k.far);
    assert RedBlack(k.far) && RedBlack(F) && RedBlack(F.left) && RedBlack(F.right);
    assert PathRedBlack(k.up, BlackHeight(t) + 1 + Weight(k.color));
  }

  /** The path after the sibling has been turned below its near child. */
  ghost function Straight(k: Path, low: Color, high: Color): Path
    requires k.Above? && k.far.Node? && Child(k.side, k.far).Node?
  {
    var s, S, N := k.side, k.far, Child(k.side, k.far);
    k.(far := Join(s, Child(s, N), N.node, high,
                   Join(s, Child(s.Other(), N), S.node, low, Child(s.Other(), S))))
  }

  lemma StraightReady(k: Path, t: Tree)
    requires k.Above? && ShortHole(k, t) && k.far.Node? && k.far.color.Black?
    requires IsRed(Child(k.side, k.far)) && !IsRed(Child(k.side.Other(), k.far))
    ensures FarReady(Straight(k, Red, Black), t) && SameContents(Plug(Straight(k, Red, Black), t), Plug(k, t))
    ensures FarReady(Straight(k, Black, Red), t) && SameContents(Plug(Straight(k, Black, Red), t), Plug(k, t))
  {
    StraightFarReady(k, t, Red, Black);
    StraightFarReady(k, t, Black, Red);
    StraightContents(k, t, Red, Black);
    StraightContents(k, t, Black, Red);
  }

  lemma StraightFarReady(k: Path, t: Tree, low: Color, high: Color)
    requires k.Above? && ShortHole(k, t) && k.far.Node? && k.far.color.Black?
    requires IsRed(Child(k.side, k.far)) && !IsRed(Child(k.side.Other(), k.far))
    ensures FarReady(Straight(k, low, high), t)
  {
    var s, S, N := k.side, k.far, Child(k.side, k.far);
    assert RedBlack(S) && RedBlack(N);
    assert RedBlack(Join(s, Child(s.Other(), N), S.node, Black, Child(s.Other(), S)));
  }

  lemma StraightContents(k: Path, t: Tree, low: Color, high: Color)
    requires k.Above? && k.far.Node? && Child(k.side, k.far).Node?
    ensures SameContents(Plug(Straight(k, low, high), t), Plug(k, t))
  {
    var s, S, N := k.side, k.far, Child(k.side, k.far);
    var S' := Join(s, N.(color := high), S.node, low, Child(s.Other(), S));
    SameJoin(s, N, N.(color := high), S.node, S.color, low, Child(s.Other(), S), Child(s.Other(), S));
    RotatedContents(s.Other(), S');
    SameJoin(s, t, t, k.node, k.color, k.color, S, Rotated(s.Other(), S'));
    SameInside(k.up, Join(s, t, k.node, k.color, Rotated(s.Other(), S')), Join(s, t, k.node, k.color, S));
  }

  /** The subtree of the parent after the last rotation of a removal. */
  ghost function Paid(k: Path, t: Tree): Tree
    requires k.Above? && k.far.Node? && Child(k.side.Other(), k.far).Node?
  {
    var s, S := k.side, k.far;
    Rotated(s, Join(s, t, k.node, Black, Join(s, Child(s, S), S.node, k.color, Child(s.Other(), S).(color := Black))))
  }

  lemma FarPaid(k: Path, t: Tree)
    requires FarReady(k, t)
    ensures var T := Plug(k.up, Paid(k, t)); RedBlack(T) && !IsRed(T) && SameContents(T, Plug(k, t))
    ensures Child(k.side.Other(), k.far).node in Nodes(Plug(k, t))
  {
    FarPaidFits(k, t);
    PlugRedBlack(k.up, Paid(k, t));
    FarPaidContents(k, t);
    PlugNodes(k, t);
    var F := Child(k.side.Other(), k.far);
    assert F.node in Nodes(F) && Nodes(F) <= Nodes(k.far);
  }

  lemma FarPaidFits(k: Path, t: Tree)
    requires FarReady(k, t)
    ensures Fits(k.up, Paid(k, t))
  {
    var s, S := k.side, k.far;
    assert RedBlack(Join(s, t, k.node, Black, Child(s, S)));
    assert Paid(k, t)
      == Join(s, Join(s, t, k.node, Black, Child(s, S)), S.node, k.color, Child(s.Other(), S).(color := Black));
  }

  lemma FarPaidContents(k: Path, t: Tree)
    requires k.Above? && k.far.Node? && Child(k.side.Other(), k.far).Node?
    ensures SameContents(Plug(k.up, Paid(k, t)), Plug(k, t))
  {
    var s, S, F := k.side, k.far, Child(k.side.Other(), k.far);
    var S' := Join(s, Child(s, S), S.node, k.color, F.(color := Black));
    SameJoin(s, Child(s, S), Child(s, S), S.node, S.color, k.color, F, F.(color := Black));
    SameJoin(s, t, t, k.node, k.color, Black, S, S');
    RotatedContents(s, Join(s, t, k.node, Black, S'));
    SameInside(k.up, Paid(k, t), Join(s, t, k.node, k.color, S));
  }

  lemma ChildIn(s: Side, k: Path, t: Tree)
    requires t.Node?
    ensures !Child(s, t).Leaf? ==> Child(s, t).node in Nodes(Plug(k, t))
  {
    PlugNodes(k, t);
  }

  lemma NephewSeen(k: Path, t: Tree, root: RbNode?)
    requires Holds(Plug(k, t), root) && !t.Leaf? && FarReady(k, t)
    ensures t.node.parent == k.node && k.node.color == k.color && (k.node.left == t.node) == k.side.Left?
    ensures k.node.Cell() == Linked(Parent(k.up), k.side, t.node, k.far.node, k.color)
    ensures k.far.node.Cell() == Links(k.node, RootNode(k.far.left), RootNode(k.far.right), k.far.color)
    ensures {k.node, k.far.node} <= Nodes(Plug(k, t))
  {
    Seen(k, t, root);
    Flip(k.up, k.side, t, k.node, k.color, k.far);
    Seen(Above(k.up, k.side.Other(), k.node, k.color, t), k.far, root);
    PlugNodes(k, t);
  }

  lemma ChildSeen(s: Side, k: Path, t: Tree, root: RbNode?)
    requires Holds(Plug(k, t), root) && t.Node?
    ensures IsRed(Child(s, t)) <==> RootNode(Child(s, t)) != null && RootNode(Child(s, t)).color == Red
  {
    if !Child(s, t).Leaf? {
      Seen(Above(k, s, t.node, t.color, Child(s.Other(), t)), Child(s, t), root);
    }
  }

  /** The path once the red sibling has been lifted over the parent. */
  ghost function Lifted(k: Path): Path
    requires k.Above? && k.far.Node?
  {
    var s := k.side;
    Above(Above(k.up, s, k.far.node, Black, Child(s.Other(), k.far)), s, k.node, Red, Child(s, k.far))
  }

  lemma LiftedFits(k: Path, t: Tree)
    requires k.Above? && ShortHole(k, t) && IsRed(k.far)
    ensures k.color.Black? && ShortHole(Lifted(k), t) && !IsRed(Lifted(k).far)
    ensures SameContents(Plug(Lifted(k), t), Plug(k, t))
  {
    var s, P := k.side, Join(k.side, t, k.node, Red, k.far.(color := Black));
    var P0 := Join(s, t, k.node, Black, k.far);
    SameJoin(s, t, t, k.node, Black, Red, k.far, k.far.(color := Black));
    RotatedContents(s, P);
    SameInside(k.up, Rotated(s, P), P0);
    assert Plug(Lifted(k), t) == Plug(k.up, Rotated(s, P));
  }

  lemma ShortPaid(k: Path, t: Tree)
    requires k.Above? && ShortHole(k, t) && k.color.Red?
    requires k.far.Node? && k.far.color.Black? && !IsRed(k.far.left) && !IsRed(k.far.right)
    ensures var T := Plug(k.up, Join(k.side, t, k.node, Black, k.far.(color := Red)));
      RedBlack(T) && !IsRed(T) && SameContents(T, Plug(k, t))
  {
    SameJoin(k.side, t, t, k.node, Black, Red, k.far.(color := Red), k.far);
    SameInside(k.up, Join(k.side, t, k.node, Black, k.far.(color := Red)), Join(k.side, t, k.node, Red, k.far));
    assert PathRedBlack(k.up, BlackHeight(t) + 1) && RedBlack(k.far);
    assert BlackHeight(k.far.(color := Red)) == BlackHeight(t);
    assert BlackHeight(Join(k.side, t, k.node, Black, k.far.(color := Red))) == BlackHeight(t) + 1;
    assert Fits(k.up, Join(k.side, t, k.node, Black, k.far.(color := Red)));
    PlugRedBlack(k.up, Join(k.side, t, k.node, Black, k.far.(color := Red)));
  }

  lemma ShortUp(k: Path, t: Tree)
    requires k.Above? && ShortHole(k, t) && k.color.Black?
    requires k.far.Node? && k.far.color.Black? && !IsRed(k.far.left) && !IsRed(k.far.right)
    ensures var t' := Join(k.side, t, k.node, Black, k.far.(color := Red));
      ShortHole(k.up, t') && SameContents(Plug(k.up, t'), Plug(k, t))
  {
    SameJoin(k.side, t, t, k.node, Black, Black, k.far, k.far.(color := Red));
    SameInside(k.up, Join(k.side, t, k.node, Black, k.far.(color := Red)), Join(k.side, t, k.node, Black, k.far));
  }

  /** The tree in which `a` and `b` have changed places. */
  ghost function Renamed(a: RbNode, b: RbNode, t: Tree): Tree {
    match t
    case Leaf => Leaf
    case Phantom(x) => Phantom(Other(a, b, x))
    case Node(l, x, c, r) => Node(Renamed(a, b, l), Other(a, b, x), c, Renamed(a, b, r))
  }

  ghost function RenamedSeq(a: RbNode, b: RbNode, s: seq<RbNode>): seq<RbNode> {
    seq(|s|, i requires 0 <= i < |s| => Other(a, b, s[i]))
  }

  lemma {:induction false} RenamedNodes(a: RbNode, b: RbNode, t: Tree, n: RbNode)
    ensures n in Nodes(Renamed(a, b, t)) <==> Other(a, b, n) in Nodes(t)
  {
    if t.Node? {
      RenamedNodes(a, b, t.left, n);
      RenamedNodes(a, b, t.right, n);
    }
  }

  lemma {:induction false} RenamedDistinct(a: RbNode, b: RbNode, t: Tree)
    requires Distinct(t)
    ensures Distinct(Renamed(a, b, t))
  {
    if t.Node? {
      RenamedDistinct(a, b, t.left);
      RenamedDistinct(a, b, t.right);
      var l, x, r := Renamed(a, b, t.left), Other(a, b, t.node), Renamed(a, b, t.right);
      RenamedNodes(a, b, t.left, x);
      RenamedNodes(a, b, t.right, x);
      forall n | n in Nodes(l) ensures n !in Nodes(r) {
        RenamedNodes(a, b, t.left, n);
        RenamedNodes(a, b, t.right, n);
      }
    }
  }

  lemma {:induction false} RenamedInOrder(a: RbNode, b: RbNode, t: Tree)
    ensures InOrder(Renamed(a, b, t)) == RenamedSeq(a, b, InOrder(t))
    ensures Ghosts(t) == {} ==> Ghosts(Renamed(a, b, t)) == {}
  {
    if t.Node? {
      RenamedInOrder(a, b, t.left);
      RenamedInOrder(a, b, t.right);
    }
  }

  lemma {:induction false} RenamedRedBlack(a: RbNode, b: RbNode, t: Tree)
    ensures RedBlack(Renamed(a, b, t)) == RedBlack(t) && IsRed(Renamed(a, b, t)) == IsRed(t)
    ensures BlackHeight(Renamed(a, b, t)) == BlackHeight(t)
  {
    if t.Node? {
      RenamedRedBlack(a, b, t.left);
      RenamedRedBlack(a, b, t.right);
    }
  }

  lemma {:induction false} RenamedLinks(a: RbNode, b: RbNode, t: Tree, p: RbNode?, n: RbNode)
    requires Distinct(t) && n in Nodes(t)
    ensures Other(a, b, n) in Nodes(Renamed(a, b, t))
    ensures LinksIn(Renamed(a, b, t), Other(a, b, p), Other(a, b, n)) == Exchanged(a, b, LinksIn(t, p, n))
  {
    RenamedNodes(a, b, t, Other(a, b, n));
    if t.Node? {
      RenamedNodes(a, b, t.left, Other(a, b, n));
      if n in Nodes(t.left) {
        RenamedLinks(a, b, t.left, t.node, n);
      } else if n in Nodes(t.right) {
        RenamedLinks(a, b, t.right, t.node, n);
      }
    }
  }

  /** The elements of `s` other than `x`. */
  ghost function Without(s: seq<RbNode>, x: RbNode): seq<RbNode> {
    if s == [] then [] else (if s[0] == x then [] else [s[0]]) + Without(s[1..], x)
  }

  lemma {:induction false} WithoutConcat(a: seq<RbNode>, b: seq<RbNode>, x: RbNode)
    ensures Without(a + b, x) == Without(a, x) + Without(b, x)
  {
    if a == [] {
      assert a + b == b;
    } else {
      WithoutConcat(a[1..], b, x);
      assert (a + b)[0] == a[0] && (a + b)[1..] == a[1..] + b;
      var h := if a[0] == x then [] else [a[0]];
      assert Without(a + b, x) == h + Without(a[1..] + b, x);
      assert h + (Without(a[1..], x) + Without(b, x)) == (h + Without(a[1..], x)) + Without(b, x);
    }
  }

  lemma {:induction false} WithoutAbsent(a: seq<RbNode>, x: RbNode)
    requires x !in a
    ensures Without(a, x) == a
  {
    if a != [] { WithoutAbsent(a[1..], x); }
  }

  lemma {:induction false} SortedWithout(a: seq<RbNode>, x: RbNode)
    requires Sorted(a)
    ensures Sorted(Without(a, x)) && forall y | y in Without(a, x) :: y in a
  {
    if a != [] {
      SortedWithout(a[1..], x);
      assert a == [a[0]] + a[1..];
      SortedConcat([a[0]], a[1..]);
      SortedConcat([a[0]], Without(a[1..], x));
    }
  }

  lemma RenamedSameNodes(a: RbNode, b: RbNode, t: Tree)
    requires a in Nodes(t) && b in Nodes(t)
    ensures Nodes(Renamed(a, b, t)) == Nodes(t)
  {
    var A, B := Nodes(Renamed(a, b, t)), Nodes(t);
    forall n | n in A ensures n in B {
      RenamedNodes(a, b, t, n);
    }
    forall n | n in B ensures n in A {
      RenamedNodes(a, b, t, n);
    }
  }

  lemma RenamedWhole(a: RbNode, b: RbNode, t: Tree)
    requires Distinct(t) && a in Nodes(t) && b in Nodes(t) && Ghosts(t) == {}
    ensures var t' := Renamed(a, b, t);
      Distinct(t') && Nodes(t') == Nodes(t) && Ghosts(t') == {} && RootNode(t') == Other(a, b, RootNode(t))
  {
    RenamedDistinct(a, b, t);
    RenamedInOrder(a, b, t);
    RenamedSameNodes(a, b, t);
  }

  lemma RenamedCells(a: RbNode, b: RbNode, t: Tree)
    requires Distinct(t) && a in Nodes(t) && b in Nodes(t) && Nodes(Renamed(a, b, t)) == Nodes(t)
    ensures forall n | n in Nodes(t) ::
      (Twin(a, b, n) in Nodes(t)
        && LinksIn(Renamed(a, b, t), null, n) == Exchanged(a, b, LinksIn(t, null, Twin(a, b, n))))
  {
    forall n | n in Nodes(t)
      ensures Twin(a, b, n) in Nodes(t) &&
        LinksIn(Renamed(a, b, t), null, n) == Exchanged(a, b, LinksIn(t, null, Twin(a, b, n)))
    {
      RenamedLinks(a, b, t, null, Twin(a, b, n));
    }
  }

  lemma {:induction false} LinkedUp(t: Tree, p: RbNode?, n: RbNode)
    requires Distinct(t) && n in Nodes(t) && (p == null || p !in Nodes(t))
    ensures var c := LinksIn(t, p, n);
      && (c.left != null ==> c.left in Nodes(t) && LinksIn(t, p, c.left).parent == n)
      && (c.right != null ==> c.right in Nodes(t) && LinksIn(t, p, c.right).parent == n && c.right != c.left)
      && (c.parent == p
            || (c.parent in Nodes(t) && (LinksIn(t, p, c.parent).left == n || LinksIn(t, p, c.parent).right == n)))
      && (c.parent == p <==> n == RootNode(t)) && c.parent != n
  {
    if t.Node? {
      if n in Nodes(t.left) {
        LinkedUp(t.left, t.node, n);
      } else if n in Nodes(t.right) {
        LinkedUp(t.right, t.node, n);
      }
    }
  }

  lemma SwapReady(node: RbNode, prev: RbNode, t: Tree, root: RbNode?)
    requires Holds(t, root) && Ghosts(t) == {} && node in Nodes(t) && prev in Nodes(t) && node != prev
    ensures var t' := Renamed(node, prev, t);
      && WellLinked(Nodes(t)) && HoldsCells(t) && Nodes(t') == Nodes(t) && RootNode(t') == Other(node, prev, root)
      && LinksIn(t', null, node) == Exchanged(node, prev, prev.Cell())
      && LinksIn(t', null, prev) == Exchanged(node, prev, node.Cell())
      && (forall n | n in Nodes(t) && n != node && n != prev :: LinksIn(t', null, n) == Exchanged(node, prev, n.Cell()))
  {
    HeldWellLinked(t, root);
    RenamedWhole(node, prev, t);
    RenamedCells(node, prev, t);
  }

  lemma HeldWellLinked(t: Tree, root: RbNode?)
    requires Holds(t, root)
    ensures WellLinked(Nodes(t))
  {
    forall n | n in Nodes(t)
      ensures n.left != null ==> n.left in Nodes(t) && n.left.parent == n
      ensures n.right != null ==> n.right in Nodes(t) && n.right.parent == n && n.right != n.left
      ensures n.parent != null ==> n.parent in Nodes(t) && (n.parent.left == n || n.parent.right == n)
      ensures n.parent != n
    {
      LinkedUp(t, null, n);
      assert n.Cell() == LinksIn(t, null, n);
    }
  }

  lemma ParentOutside(k: Path, t: Tree)
    requires Distinct(Plug(k, t))
    ensures Parent(k) == null || Parent(k) !in Nodes(t)
  {
    PlugNodes(k, t);
  }

  lemma {:induction false} ElementsIn(t: Tree)
    ensures forall x | x in InOrder(t) :: x in Nodes(t)
  {
    if t.Node? {
      ElementsIn(t.left);
      ElementsIn(t.right);
    }
  }

  lemma {:induction false} ElementsAround(k: Path)
    ensures forall x | x in Before(k) + After(k) :: x in PathNodes(k)
  {
    if k.Above? {
      ElementsAround(k.up);
      ElementsIn(k.far);
    }
  }

  /** Exchanging neighbours changes nothing once one of them is taken out. */
  lemma SwapWithoutSeq(a: seq<RbNode>, prev: RbNode, node: RbNode, b: seq<RbNode>)
    requires node != prev && node !in a && prev !in a && node !in b && prev !in b
    ensures Without(RenamedSeq(node, prev, a + [prev] + [node] + b), node) == a + [prev] + b
    ensures Without(a + [prev] + [node] + b, node) == a + [prev] + b
  {
    RenamedNeighbours(a, prev, node, b);
    WithoutFirst(a, node, prev, b);
    hide Without, RenamedSeq;
    WithoutOne(a + [prev], node, b);
  }

  lemma WithoutFirst(a: seq<RbNode>, x: RbNode, y: RbNode, b: seq<RbNode>)
    requires x != y && x !in a && x !in b
    ensures Without(a + [x] + [y] + b, x) == a + [y] + b
  {
    hide Without;
    var b' := [y] + b;
    WithoutOne(a, x, b');
    assert a + [x] + [y] + b == a + [x] + b';
    assert a + b' == a + [y] + b;
  }

  lemma RenamedNeighbours(a: seq<RbNode>, prev: RbNode, node: RbNode, b: seq<RbNode>)
    requires node != prev && node !in a && prev !in a && node !in b && prev !in b
    ensures RenamedSeq(node, prev, a + [prev] + [node] + b) == a + [node] + [prev] + b
  {
  }

  lemma WithoutOne(a: seq<RbNode>, x: RbNode, b: seq<RbNode>)
    requires x !in a && x !in b
    ensures Without(a + [x] + b, x) == a + b
  {
    WithoutAbsent(a, x);
    WithoutAbsent(b, x);
    assert Without([x], x) == [];
    hide Without;
    WithoutConcat(a, [x], x);
    WithoutConcat(a + [x], b, x);
    assert a + [] == a;
  }

  /** The neighbours, and what lies around them. */
  lemma Neighbours(k: Path, t: Tree, kk: Path, tt: Tree)
    requires t.Node? && tt.Node? && tt.right.Leaf? && Plug(kk, tt) == Plug(k, t)
    requires After(kk) == [t.node] + InOrder(t.right) + After(k)
    ensures var a, b := Before(kk) + InOrder(tt.left), InOrder(t.right) + After(k);
      && InOrder(Plug(k, t)) == a + [tt.node] + [t.node] + b
      && a + [tt.node] == Before(k) + InOrder(t.left)
  {
    var a, b := Before(kk) + InOrder(tt.left), InOrder(t.right) + After(k);
    PlugInOrder(k, t);
    PlugInOrder(kk, tt);
    assert InOrder(t) == InOrder(t.left) + [t.node] + InOrder(t.right);
    assert InOrder(tt) == InOrder(tt.left) + [tt.node];
    NeighbourSeqs(Before(k), InOrder(t.left), t.node, InOrder(t.right), After(k), Before(kk), InOrder(tt.left),
                  tt.node, InOrder(Plug(k, t)));
  }

  lemma NeighbourSeqs(a: seq<RbNode>, l: seq<RbNode>, n: RbNode, r: seq<RbNode>, b: seq<RbNode>,
                      aa: seq<RbNode>, ll: seq<RbNode>, p: RbNode, s: seq<RbNode>)
    requires s == a + (l + [n] + r) + b
    requires s == aa + (ll + [p]) + ([n] + r + b)
    ensures s == (aa + ll) + [p] + [n] + (r + b)
    ensures (aa + ll) + [p] == a + l
  {
    var c := [n] + (r + b);
    assert [n] + r + b == c;
    assert s == (a + l) + c;
    assert s == (aa + ll + [p]) + c;
    Cancel(a + l, aa + ll + [p], c);
  }

  lemma Cancel(a: seq<RbNode>, b: seq<RbNode>, c: seq<RbNode>)
    requires a + c == b + c
    ensures a == b
  {
    assert |a| == |b|;
    assert a == (a + c)[..|a|] && b == (b + c)[..|b|];
  }

  lemma Apart(k: Path, t: Tree)
    requires t.Node? && Distinct(Plug(k, t))
    ensures t.node !in Before(k) + InOrder(t.left) && t.node !in InOrder(t.right) + After(k)
    ensures forall x | x in InOrder(t.right) + After(k) :: x !in Nodes(t.left)
  {
    PlugNodes(k, t);
    ElementsAround(k);
    ElementsIn(t.left);
    ElementsIn(t.right);
  }

  lemma SwapWithout(k: Path, t: Tree, kk: Path, tt: Tree)
    requires t.Node? && tt.Node? && tt.right.Leaf? && Plug(kk, tt) == Plug(k, t) && Distinct(Plug(k, t))
    requires tt.node in Nodes(t.left) && After(kk) == [t.node] + InOrder(t.right) + After(k)
    ensures Without(InOrder(Renamed(t.node, tt.node, Plug(k, t))), t.node) == Without(InOrder(Plug(k, t)), t.node)
  {
    var a, b := Before(kk) + InOrder(tt.left), InOrder(t.right) + After(k);
    Neighbours(k, t, kk, tt);
    Apart(k, t);
    Apart(kk, tt);
    RenamedInOrder(t.node, tt.node, Plug(k, t));
    hide InOrder, Before, After, Plug, Without, Renamed;
    assert forall x | x in a :: x in a + [tt.node];
    SwapWithoutSeq(a, tt.node, t.node, b);
  }

  /** What stands in for the root of `t` once it is taken out. */
  ghost function Stand(t: Tree, phantom: RbNode): Tree
    requires t.Node?
  {
    if t.left.Node? then t.left else if t.right.Node? then t.right else Phantom(phantom)
  }

  /** A node with one child is black, and that child is a red leaf. */
  lemma OneChild(t: Tree)
    requires t.Node? && RedBlack(t) && Ghosts(t) == {} && (t.left.Leaf? || t.right.Leaf?)
    ensures !t.left.Leaf? ==> t.color.Black? && t.left == Node(Leaf, t.left.node, Red, Leaf)
    ensures !t.right.Leaf? ==> t.color.Black? && t.right == Node(Leaf, t.right.node, Red, Leaf)
  {
    if t.left.Node? { RedLeaf(t.left); }
    if t.right.Node? { RedLeaf(t.right); }
  }

  lemma RedLeaf(t: Tree)
    requires t.Node? && RedBlack(t) && Ghosts(t) == {} && BlackHeight(t) == 0
    ensures t == Node(Leaf, t.node, Red, Leaf)
  {
  }

  lemma StandContents(k: Path, t: Tree, phantom: RbNode)
    requires t.Node? && Distinct(Plug(k, t)) && Ghosts(Plug(k, t)) == {} && (t.left.Leaf? || t.right.Leaf?)
    ensures InOrder(Plug(k, Stand(t, phantom))) == Without(InOrder(Plug(k, t)), t.node)
    ensures Ghosts(Plug(k, Stand(t, phantom))) == (if Stand(t, phantom).Phantom? then {phantom} else {})
  {
    var t' := Stand(t, phantom);
    PlugNodes(k, t);
    PlugNodes(k, t');
    PlugInOrder(k, t);
    PlugInOrder(k, t');
    Apart(k, t);
    StandSeqs(Before(k), InOrder(t.left), t.node, InOrder(t.right), After(k));
  }

  lemma StandSeqs(a: seq<RbNode>, l: seq<RbNode>, x: RbNode, r: seq<RbNode>, b: seq<RbNode>)
    requires x !in a + l && x !in r + b
    ensures Without(a + (l + [x] + r) + b, x) == a + (l + r) + b
    ensures l + [] == l && [] + r == r
  {
    WithoutOne(a + l, x, r + b);
    assert a + (l + [x] + r) + b == (a + l) + [x] + (r + b);
    assert a + (l + r) + b == (a + l) + (r + b);
  }

  /** What remains to be repaired after the removal. */
  lemma RemovalFits(k: Path, t: Tree, phantom: RbNode)
    requires Fits(k, t) && t.Node? && Ghosts(t) == {} && (t.left.Leaf? || t.right.Leaf?)
    ensures var t' := Stand(t, phantom);
      if t.color.Red? then t'.Phantom? && Fits(k, t')
      else if t'.Phantom? then ShortHole(k, t')
      else t'.Node? && t'.color.Red? && Fits(k, t'.(color := Black))
  {
    OneChild(t);
  }

  lemma AtMostOneChild(k: Path, t: Tree, root: RbNode?)
    requires var s := Plug(k, t); Holds(s, root) && RedBlack(s) && !IsRed(s) && Ghosts(s) == {} && !t.Leaf?
    requires t.node.left == null || t.node.right == null
    ensures t.Node? && Ghosts(t) == {} && (t.left.Leaf? || t.right.Leaf?) && Fits(k, t)
  {
    PlugNodes(k, t);
    GhostsIn(t);
    Seen(k, t, root);
    PlugRedBlack(k, t);
  }

  ghost predicate RemovalRules(k: Path, t: Tree, t': Tree)
    requires t.Node?
  {
    var s' := Plug(k, t');
    if t.color.Red? then t'.Phantom? && RedBlack(s') && !IsRed(s')
    else if t'.Phantom? then ShortHole(k, t')
    else
      && t'.Node? && t'.color.Red?
      && var T := Plug(k, t'.(color := Black)); RedBlack(T) && !IsRed(T) && SameContents(T, s')
  }

  lemma RemovalRulesHold(k: Path, t: Tree, phantom: RbNode)
    requires Fits(k, t) && t.Node? && Ghosts(t) == {} && (t.left.Leaf? || t.right.Leaf?)
    ensures RemovalRules(k, t, Stand(t, phantom))
  {
    var t' := Stand(t, phantom);
    RemovalFits(k, t, phantom);
    PlugRedBlack(k, t');
    if t'.Node? {
      PlugRedBlack(k, t'.(color := Black));
      SameInside(k, t'.(color := Black), t');
    }
  }

  lemma PhantomFits(k: Path, t: Tree, phantom: RbNode)
    requires var s := Plug(k, t); Distinct(s) && RedBlack(s) && !IsRed(s) && Ghosts(s) == {phantom}
    requires !t.Leaf? && t.node == phantom
    ensures t == Phantom(phantom)
    ensures var s, s' := Plug(k, t), Plug(k, Leaf);
      && Distinct(s') && RedBlack(s') && !IsRed(s') && Ghosts(s') == {}
      && InOrder(s') == InOrder(s) && Nodes(s') == Nodes(s) - {phantom}
  {
    PlugNodes(k, t);
    PlugNodes(k, Leaf);
    PlugInOrder(k, t);
    PlugInOrder(k, Leaf);
    PlugRedBlack(k, t);
    GhostsAround(k);
    if t.Node? {
      GhostsIn(t.left);
      GhostsIn(t.right);
    }
    PlugRedBlack(k, Leaf);
  }

  lemma {:induction false} GhostsIn(t: Tree)
    ensures Ghosts(t) <= Nodes(t)
  {
    if t.Node? {
      GhostsIn(t.left);
      GhostsIn(t.right);
    }
  }

  lemma {:induction false} GhostsAround(k: Path)
    ensures PathGhosts(k) <= PathNodes(k)
  {
    if k.Above? {
      GhostsAround(k.up);
      GhostsIn(k.far);
    }
  }

  lemma PhantomSeen(k: Path, phantom: RbNode, root: RbNode?)
    requires Holds(Plug(k, Phantom(phantom)), root) && Distinct(Plug(k, Leaf))
    ensures var T' := Plug(k, Leaf);
      && phantom.parent == Parent(k) && (Parent(k) == null <==> root == phantom)
      && (k.Above? ==> k.node in Nodes(T') && k.node != phantom)
      && RootNode(T') == (if k.Top? then null else root)
      && (forall n | n in Nodes(T') ::
        (LinksIn(T', null, n) == if n == Parent(k) then Redirected(n.Cell(), phantom, null) else n.Cell()))
      && phantom in Nodes(Plug(k, Phantom(phantom))) && Nodes(T') <= Nodes(Plug(k, Phantom(phantom)))
  {
    var t := Phantom(phantom);
    Seen(k, t, root);
    PlugNodes(k, t);
    PlugNodes(k, Leaf);
    PlugLinks(k, t, phantom);
    PlugLinks(k, Leaf, phantom);
    if k.Above? { TopNodeAbove(k, phantom); TopNodeAbove(k, null); }
    forall n | n in PathNodes(k) { Refilled(k, t, Leaf, n); }
  }

  lemma StandFits(k: Path, t: Tree, phantom: RbNode)
    requires t.Node? && RedBlack(t) && Ghosts(t) == {} && (t.left.Leaf? || t.right.Leaf?)
    requires Distinct(Plug(k, t)) && phantom !in Nodes(Plug(k, t))
    ensures var t' := Stand(t, phantom);
      && (t' == Phantom(phantom) || t' == Node(Leaf, t'.node, Red, Leaf))
      && t'.node != t.node && t'.node !in PathNodes(k) && t.node !in PathNodes(k)
      && Distinct(Plug(k, t')) && Nodes(Plug(k, t')) == PathNodes(k) + {t'.node}
      && Nodes(Plug(k, t)) == PathNodes(k) + {t.node} + (if t'.Phantom? then {} else {t'.node})
  {
    OneChild(t);
    PlugNodes(k, t);
    PlugNodes(k, Stand(t, phantom));
  }

  lemma StandNodes(k: Path, t: Tree, phantom: RbNode)
    requires t.Node? && RedBlack(t) && Ghosts(t) == {} && (t.left.Leaf? || t.right.Leaf?)
    requires Distinct(Plug(k, t)) && phantom !in Nodes(Plug(k, t))
    ensures var t' := Stand(t, phantom); var was, now := Nodes(Plug(k, t)), Nodes(Plug(k, t'));
      && t.node !in now && t'.node in now && (t'.Phantom? <==> t'.node == phantom) && !t'.Leaf?
      && (if t'.Phantom? then now - {phantom} == was - {t.node} else now == was - {t.node})
      && now <= was + {phantom}
  {
    StandFits(k, t, phantom);
  }

  /** Putting another tree into the hole changes one child link of the path. */
  lemma Refilled(k: Path, t: Tree, t': Tree, n: RbNode)
    requires Distinct(Plug(k, t)) && Distinct(Plug(k, t')) && !t.Leaf? && n in PathNodes(k)
    ensures n in Nodes(Plug(k, t)) && n in Nodes(Plug(k, t'))
    ensures LinksIn(Plug(k, t'), null, n) ==
      if n == Parent(k) then Redirected(LinksIn(Plug(k, t), null, n), t.node, RootNode(t'))
        else LinksIn(Plug(k, t), null, n)
  {
    PlugNodes(k, t);
    PlugNodes(k, t');
    PlugLinks(k, t, n);
    PlugLinks(k, t', n);
    LinksAboveHole(k, t.node, RootNode(t'), n);
  }

  lemma StandSeen(k: Path, t: Tree, phantom: RbNode, root: RbNode?)
    requires Holds(Plug(k, t), root) && t.Node? && RedBlack(t) && Ghosts(t) == {} && (t.left.Leaf? || t.right.Leaf?)
    requires phantom !in Nodes(Plug(k, t)) && phantom.Cell() == Links(null, null, null, Black)
    ensures var t' := Stand(t, phantom); var T' := Plug(k, t'); var child := t'.node;
      && child.left == null && child.right == null && t.node !in Nodes(T') && child in Nodes(T')
      && (k.Above? ==> k.node in Nodes(T') && k.node != t.node && k.node != child)
      && LinksIn(T', null, child) == Links(Parent(k), null, null, child.color)
      && child.color == (if t'.Phantom? then Black else Red)
      && RootNode(T') == (if k.Top? then child else root)
      && (forall n | n in Nodes(T') && n != child ::
        (LinksIn(T', null, n) == if n == Parent(k) then Redirected(n.Cell(), t.node, child) else n.Cell()))
  {
    var t' := Stand(t, phantom);
    OneChild(t);
    StandFits(k, t, phantom);
    Seen(k, t, root);
    if !t.left.Leaf? { Seen(Above(k, Left, t.node, t.color, t.right), t.left, root); }
    if !t.right.Leaf? { Seen(Above(k, Right, t.node, t.color, t.left), t.right, root); }
    PlugLinks(k, t', t'.node);
    PlugLinks(k, t, t.node);
    if k.Above? { TopNodeAbove(k, t.node); }
    forall n | n in PathNodes(k) { Refilled(k, t, t', n); }
  }

  /** No node beside the path has the wanted key. */
  ghost predicate Misses(k: Path, value: RbNode) {
    forall x | x in Before(k) + After(k) :: x.key != value.key
  }

  lemma SearchStep(k: Path, t: Tree, value: RbNode)
    requires t.Node? && Sorted(InOrder(Plug(k, t))) && Misses(k, value)
    ensures value.key < t.node.key ==> Misses(Above(k, Left, t.node, t.color, t.right), value)
    ensures value.key > t.node.key ==> Misses(Above(k, Right, t.node, t.color, t.left), value)
    ensures t.node in InOrder(Plug(k, t))
  {
    SortedSplit(k, t);
    PlugInOrder(k, t);
  }

  /** What follows a node, seen from it. */
  lemma AroundNode(k: Path, t: Tree)
    requires !t.Leaf? && Ghosts(Plug(k, t)) == {} && Distinct(Plug(k, t))
    ensures t.Node? && Ghosts(t.right) == {} && (t.right.Leaf? ==> InOrder(t.right) == [])
    ensures InOrder(Plug(k, t)) == Before(k) + InOrder(t.left) + [t.node] + (InOrder(t.right) + After(k))
    ensures k.Top? ==> After(k) == []
    ensures k.Above? ==>
      Ghosts(k.far) == {} && Plug(Above(k.up, k.side.Other(), k.node, k.color, t), k.far) == Plug(k, t)
  {
    hide InOrder, Before, After, Distinct, Nodes;
    PlugNodes(k, t);
    NodeOrder(k, t);
    if k.Above? { Flip(k.up, k.side, t, k.node, k.color, k.far); }
  }

  lemma NodeOrder(k: Path, t: Tree)
    requires t.Node?
    ensures InOrder(Plug(k, t)) == Before(k) + InOrder(t.left) + [t.node] + (InOrder(t.right) + After(k))
    ensures (t.right.Leaf? ==> InOrder(t.right) == []) && (k.Top? ==> After(k) == [])
  {
    hide Plug;
    PlugInOrder(k, t);
    Regrouped(Before(k), InOrder(t.left), [t.node], InOrder(t.right), After(k));
  }

  lemma Regrouped(a: seq<RbNode>, b: seq<RbNode>, x: seq<RbNode>, c: seq<RbNode>, d: seq<RbNode>)
    ensures a + (b + x + c) + d == a + b + x + (c + d)
  {
  }

  lemma AboveLeft(k: Path, t: Tree)
    requires k.Above? && Distinct(Plug(k, t))
    ensures k.side.Left? ==> After(k) == [k.node] + (InOrder(k.far) + After(k.up)) && k.node !in InOrder(k.far)
    ensures k.side.Right? ==> After(k) == After(k.up)
  {
    PlugNodes(k, t);
    ElementsIn(k.far);
  }

  lemma StepsBound(t: Tree, steps: nat)
    requires RedBlack(t) && !IsRed(t) && steps <= Height(t)
    ensures Pow2((steps + 1) / 2) <= |InOrder(t)| + 1
  {
    HeightBound(t);
    Pow2Monotone((steps + 1) / 2, (Height(t) + 1) / 2);
  }
}
