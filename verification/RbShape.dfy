/** The shape of the intrusive red-black tree of api_rbtree.c, as values.

    A `Tree` names the node objects it is built from, so that the pointer code can be
    proved against it; a `Path` is a tree with a hole, seen from the hole upwards, which is
    how the balancing code walks.  `Phantom` is the stand-in node that removal puts where
    a removed leaf was: it is linked like a node but counts as a leaf. */
module RbShape {

  datatype Color = Black | Red

  datatype Links = Links(parent: RbNode?, left: RbNode?, right: RbNode?, color: Color)

  class RbNode {
    const key: int  // what the compare callback orders by
    var parent: RbNode?
    var left: RbNode?
    var right: RbNode?
    var color: Color

    /** The mutable fields, as one value. */
    ghost function Cell(): Links
      reads this
    {
      Links(parent, left, right, color)
    }

    constructor (key: int)
      ensures this.key == key && Cell() == Links(null, null, null, Black)
    {
      this.key := key;
      parent, left, right, color := null, null, null, Black;
    }
  }

  datatype Side = Left | Right {
    function Other(): Side { if Left? then Right else Left }
  }

  datatype Tree =
    | Leaf
    | Phantom(node: RbNode)
    | Node(left: Tree, node: RbNode, color: Color, right: Tree)

  datatype Path =
    | Top
    | Above(up: Path, side: Side, node: RbNode, color: Color, far: Tree)

  /** A tree from its child on side `s` and its other child. */
  ghost function Join(s: Side, near: Tree, x: RbNode, c: Color, far: Tree): (t: Tree) {
    if s.Left? then Node(near, x, c, far) else Node(far, x, c, near)
  }

  ghost function Child(s: Side, t: Tree): Tree
    requires t.Node?
  {
    if s.Left? then t.left else t.right
  }

  // ---------- contents ----------

  ghost function Nodes(t: Tree): set<RbNode> {
    match t
    case Leaf => {}
    case Phantom(x) => {x}
    case Node(l, x, _, r) => Nodes(l) + {x} + Nodes(r)
  }

  ghost function InOrder(t: Tree): seq<RbNode> {
    match t
    case Leaf => []
    case Phantom(_) => []
    case Node(l, x, _, r) => InOrder(l) + [x] + InOrder(r)
  }

  ghost predicate Distinct(t: Tree) {
    t.Node? ==>
      && Distinct(t.left) && Distinct(t.right)
      && t.node !in Nodes(t.left) && t.node !in Nodes(t.right)
      && Nodes(t.left) !! Nodes(t.right)
  }

  /** The stand-ins among the nodes. */
  ghost function Ghosts(t: Tree): set<RbNode> {
    match t
    case Leaf => {}
    case Phantom(x) => {x}
    case Node(l, _, _, r) => Ghosts(l) + Ghosts(r)
  }

  ghost function PathNodes(k: Path): set<RbNode> {
    match k
    case Top => {}
    case Above(up, _, x, _, far) => PathNodes(up) + {x} + Nodes(far)
  }

  ghost predicate PathDistinct(k: Path) {
    match k
    case Top => true
    case Above(up, _, x, _, far) =>
      && PathDistinct(up) && Distinct(far)
      && x !in PathNodes(up) && x !in Nodes(far) && PathNodes(up) !! Nodes(far)
  }

  ghost function PathGhosts(k: Path): set<RbNode> {
    if k.Top? then {} else PathGhosts(k.up) + Ghosts(k.far)
  }

  /** The nodes that precede, and those that follow, the hole. */
  ghost function Before(k: Path): seq<RbNode> {
    match k
    case Top => []
    case Above(up, Left, _, _, _) => Before(up)
    case Above(up, Right, x, _, l) => Before(up) + InOrder(l) + [x]
  }

  ghost function After(k: Path): seq<RbNode> {
    match k
    case Top => []
    case Above(up, Left, x, _, r) => [x] + InOrder(r) + After(up)
    case Above(up, Right, _, _, _) => After(up)
  }

  /** The whole tree: the path with its hole filled. */
  ghost function Plug(k: Path, t: Tree): Tree {
    match k
    case Top => t
    case Above(up, s, x, c, far) => Plug(up, Join(s, t, x, c, far))
  }

  lemma {:induction false} PlugInOrder(k: Path, t: Tree)
    ensures InOrder(Plug(k, t)) == Before(k) + InOrder(t) + After(k)
  {
    if k.Above? { PlugInOrder(k.up, Join(k.side, t, k.node, k.color, k.far)); }
  }

  lemma {:induction false} PlugNodes(k: Path, t: Tree)
    ensures Nodes(Plug(k, t)) == PathNodes(k) + Nodes(t)
    ensures Distinct(Plug(k, t)) <==> PathDistinct(k) && Distinct(t) && PathNodes(k) !! Nodes(t)
    ensures Ghosts(Plug(k, t)) == PathGhosts(k) + Ghosts(t)
  {
    if k.Above? { PlugNodes(k.up, Join(k.side, t, k.node, k.color, k.far)); }
  }

  lemma {:induction false} InOrderNodes(t: Tree)
    requires Ghosts(t) == {}
    ensures forall x :: x in InOrder(t) <==> x in Nodes(t)
  {
    if t.Node? {
      InOrderNodes(t.left);
      InOrderNodes(t.right);
    }
  }

  /** Where a node of the tree sits. */
  ghost function PathTo(t: Tree, x: RbNode, k: Path): (r: (Path, Tree))
    requires x in Nodes(t)
    ensures Plug(r.0, r.1) == Plug(k, t)
    ensures !r.1.Leaf? && r.1.node == x
  {
    if t.node == x then (k, t)
    else if x in Nodes(t.left) then PathTo(t.left, x, Above(k, Left, t.node, t.color, t.right))
    else PathTo(t.right, x, Above(k, Right, t.node, t.color, t.left))
  }

  // ---------- the walk ----------

  /** The first node in order. */
  ghost function Head(t: Tree): RbNode? { if InOrder(t) == [] then null else InOrder(t)[0] }

  /** Where the walk goes on from a node: to the first node of its right subtree, or without one
      to the first of its right sibling's. */
  ghost function Onward(t: Tree, x: RbNode): RbNode?
    requires x in Nodes(t)
  {
    var (k, at) := PathTo(t, x, Top);
    if !at.Node? then null
    else if !at.right.Leaf? then Head(at.right)
    else if k.Above? && k.side.Left? then Head(k.far)
    else null
  }

  // ---------- the red-black rules ----------

  ghost predicate IsRed(t: Tree) { t.Node? && t.color.Red? }

  ghost function Weight(c: Color): nat { if c.Black? then 1 else 0 }

  ghost function BlackHeight(t: Tree): nat {
    if t.Node? then BlackHeight(t.left) + Weight(t.color) else 0
  }

  /** No red node has a red child, and every way down meets as many black nodes. */
  ghost predicate RedBlack(t: Tree) {
    t.Node? ==>
      && RedBlack(t.left) && RedBlack(t.right)
      && BlackHeight(t.left) == BlackHeight(t.right)
      && (t.color.Red? ==> !IsRed(t.left) && !IsRed(t.right))
  }

  ghost predicate PathRed(k: Path) { k.Above? && k.color.Red? }

  /** Filling the hole with a black-rooted red-black tree of black height `h` gives a
      red-black tree with a black root. */
  ghost predicate PathRedBlack(k: Path, h: nat) {
    match k
    case Top => true
    case Above(up, _, _, c, far) =>
      && RedBlack(far) && BlackHeight(far) == h
      && (c.Red? ==> !IsRed(far) && up.Above? && !PathRed(up))
      && PathRedBlack(up, h + Weight(c))
  }

  ghost predicate Fits(k: Path, t: Tree) {
    && RedBlack(t) && PathRedBlack(k, BlackHeight(t))
    && (IsRed(t) ==> k.Above? && !PathRed(k))
  }

  lemma {:induction false} PlugRedBlack(k: Path, t: Tree)
    ensures Fits(k, t) <==> RedBlack(Plug(k, t)) && !IsRed(Plug(k, t))
  {
    if k.Above? { PlugRedBlack(k.up, Join(k.side, t, k.node, k.color, k.far)); }
  }

  // ---------- height ----------

  ghost function Height(t: Tree): nat {
    if t.Node? then 1 + Max(Height(t.left), Height(t.right)) else 0
  }

  ghost function Max(a: nat, b: nat): nat { if a < b then b else a }

  ghost function Pow2(n: nat): nat { if n == 0 then 1 else 2 * Pow2(n - 1) }

  lemma {:induction false} Pow2Monotone(a: nat, b: nat)
    requires a <= b
    ensures Pow2(a) <= Pow2(b)
  {
    if a < b { Pow2Monotone(a, b - 1); }
  }

  lemma {:induction false} BlackHeightBounds(t: Tree)
    requires RedBlack(t)
    ensures |InOrder(t)| + 1 >= Pow2(BlackHeight(t))
    ensures Height(t) <= 2 * BlackHeight(t) + (if IsRed(t) then 1 else 0)
  {
    if t.Node? {
      BlackHeightBounds(t.left);
      BlackHeightBounds(t.right);
    }
  }

  /** A red-black tree of height h with a black root holds at least 2^(h/2) - 1 nodes. */
  lemma {:induction false} HeightBound(t: Tree)
    requires RedBlack(t) && !IsRed(t)
    ensures |InOrder(t)| + 1 >= Pow2((Height(t) + 1) / 2)
  {
    BlackHeightBounds(t);
    Pow2Monotone((Height(t) + 1) / 2, BlackHeight(t));
  }

  ghost predicate Sorted(s: seq<RbNode>) {
    forall i, j :: 0 <= i < j < |s| ==> s[i].key <= s[j].key
  }

  lemma SortedConcat(a: seq<RbNode>, b: seq<RbNode>)
    ensures Sorted(a + b) <==>
      Sorted(a) && Sorted(b) && forall x, y | x in a && y in b :: x.key <= y.key
  {
    var s := a + b;
    if Sorted(s) {
      assert a == s[..|a|] && b == s[|a|..];
      forall x, y | x in a && y in b ensures x.key <= y.key {
        var i :| 0 <= i < |a| && a[i] == x;
        var j :| 0 <= j < |b| && b[j] == y;
        assert s[i].key <= s[|a| + j].key;
      }
    }
  }

  // ---------- the fields that this shape prescribes ----------

  ghost function RootNode(t: Tree): RbNode? { if t.Leaf? then null else t.node }

  ghost function Parent(k: Path): RbNode? { if k.Top? then null else k.node }

  /** Child links by side. */
  ghost function Linked(parent: RbNode?, s: Side, near: RbNode?, far: RbNode?, c: Color): Links {
    if s.Left? then Links(parent, near, far, c) else Links(parent, far, near, c)
  }

  /** The fields of node `n` of a tree hung below `parent`. */
  ghost function LinksIn(t: Tree, parent: RbNode?, n: RbNode): Links
    requires n in Nodes(t)
  {
    match t
    case Phantom(_) => Links(parent, null, null, Black)
    case Node(l, x, c, r) =>
      if n == x then Links(parent, RootNode(l), RootNode(r), c)
      else if n in Nodes(l) then LinksIn(l, x, n)
      else LinksIn(r, x, n)
  }

  /** The fields of node `n` of a path with `at` in its hole. */
  ghost function LinksAbove(k: Path, at: RbNode?, n: RbNode): Links
    requires n in PathNodes(k)
  {
    var Above(up, s, x, c, far) := k;
    if n == x then Linked(Parent(up), s, at, RootNode(far), c)
    else if n in Nodes(far) then LinksIn(far, x, n)
    else LinksAbove(up, x, n)
  }

  ghost function TopNode(k: Path, at: RbNode?): RbNode? {
    if k.Top? then at else TopNode(k.up, k.node)
  }

  /** The objects hold the tree `t`, and `root` leads to it. */
  ghost predicate Holds(t: Tree, root: RbNode?)
    reads Nodes(t)
  {
    Distinct(t) && root == RootNode(t) && HoldsCells(t)
  }

  ghost predicate HoldsCells(t: Tree)
    reads Nodes(t)
  {
    forall n | n in Nodes(t) :: n.Cell() == LinksIn(t, null, n)
  }

  /** The fields of a whole tree, told from the hole of a path. */
  lemma {:induction false} PlugLinks(k: Path, t: Tree, n: RbNode)
    requires Distinct(Plug(k, t))
    ensures RootNode(Plug(k, t)) == TopNode(k, RootNode(t))
    ensures n in Nodes(t) ==>
      n in Nodes(Plug(k, t)) && LinksIn(Plug(k, t), null, n) == LinksIn(t, Parent(k), n)
    ensures n in PathNodes(k) ==>
      n in Nodes(Plug(k, t)) && LinksIn(Plug(k, t), null, n) == LinksAbove(k, RootNode(t), n)
  {
    PlugNodes(k, t);
    if k.Above? {
      var t' := Join(k.side, t, k.node, k.color, k.far);
      PlugLinks(k.up, t', n);
      PlugNodes(k.up, t');
    }
  }

  /** What the code sees when it looks at a node and at its parent. */
  lemma Seen(k: Path, t: Tree, root: RbNode?)
    requires Holds(Plug(k, t), root) && !t.Leaf?
    ensures t.node in Nodes(Plug(k, t)) && root != null
    ensures t.Node? ==> t.node.Cell() == Links(Parent(k), RootNode(t.left), RootNode(t.right), t.color)
    ensures t.Phantom? ==> t.node.Cell() == Links(Parent(k), null, null, Black)
    ensures k.Top? <==> t.node == root
    ensures k.Above? ==> k.node != t.node && k.node in Nodes(Plug(k, t)) && t.node != RootNode(k.far)
    ensures k.Above? ==> k.node.Cell() == Linked(Parent(k.up), k.side, t.node, RootNode(k.far), k.color)
  {
    PlugNodes(k, t);
    PlugLinks(k, t, t.node);
    if k.Above? {
      PlugLinks(k, t, k.node);
      TopNodeAbove(k, t.node);
    }
  }

  lemma {:induction false} TopNodeAbove(k: Path, at: RbNode?)
    requires k.Above?
    ensures TopNode(k, at) in PathNodes(k)
  {
    if k.up.Above? { TopNodeAbove(k.up, k.node); }
  }

  /** Hanging a tree elsewhere changes one field of its root. */
  lemma LinksInParent(t: Tree, p: RbNode?, q: RbNode?, n: RbNode)
    requires n in Nodes(t)
    ensures LinksIn(t, q, n) == if n == RootNode(t) then LinksIn(t, p, n).(parent := q) else LinksIn(t, p, n)
  {
  }

  ghost function WithChild(s: Side, c: Links, x: RbNode?): Links {
    if s.Left? then c.(left := x) else c.(right := x)
  }

  /** A parent's fields once its child link to `was` leads to `now`. */
  ghost function Redirected(c: Links, was: RbNode?, now: RbNode?): Links {
    if c.left == was then c.(left := now) else c.(right := now)
  }

  /** Refilling the hole changes one child link. */
  lemma LinksAboveHole(k: Path, was: RbNode?, now: RbNode?, n: RbNode)
    requires n in PathNodes(k) && PathDistinct(k)
    requires was != null ==> was !in PathNodes(k)
    ensures n != Parent(k) ==> LinksAbove(k, now, n) == LinksAbove(k, was, n)
    ensures n == Parent(k) ==> LinksAbove(k, now, n) == WithChild(k.side, LinksAbove(k, was, n), now)
    ensures n == Parent(k) && was != null ==> LinksAbove(k, now, n) == Redirected(LinksAbove(k, was, n), was, now)
  {
  }
}
