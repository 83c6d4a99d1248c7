/** Which nodes the walk of api_rbtree.c comes to: from the first by next, and no further. */
module RbWalk {
  import opened RbShape

  // ---------- the walk, step by step ----------

  /** From its `i`th node the walk goes on to the one after it, and in the end to `next`. */
  ghost predicate GoesOn(t: Tree, walk: seq<RbNode>, next: RbNode?, i: nat)
    requires i < |walk|
  {
    walk[i] in Nodes(t) && Onward(t, walk[i]) == (if i + 1 < |walk| then walk[i + 1] else next)
  }

  ghost predicate Follows(t: Tree, walk: seq<RbNode>, next: RbNode?) {
    forall i: nat | i < |walk| :: GoesOn(t, walk, next, i)
  }

  /** A walk from the first node to where it ends. */
  ghost predicate IsWalk(t: Tree, walk: seq<RbNode>) {
    (if walk == [] then null else walk[0]) == Head(t) && Follows(t, walk, null)
  }

  lemma FollowsMore(t: Tree, x: RbNode, walk: seq<RbNode>, next: RbNode?)
    requires x in Nodes(t) && Onward(t, x) == (if walk == [] then next else walk[0]) && Follows(t, walk, next)
    ensures Follows(t, [x] + walk, next)
  {
    hide Nodes, Onward;
    var w := [x] + walk;
    forall i: nat | i < |w| ensures GoesOn(t, w, next, i) {
      if i > 0 { assert GoesOn(t, walk, next, i - 1); }
    }
  }

  lemma {:induction false} PathToPlug(k: Path, t: Tree, x: RbNode)
    requires Distinct(Plug(k, t)) && x in Nodes(t)
    ensures x in Nodes(Plug(k, t)) && PathTo(Plug(k, t), x, Top) == PathTo(t, x, k)
  {
    if k.Above? {
      PlugNodes(k, t);
      PathToPlug(k.up, Join(k.side, t, k.node, k.color, k.far), x);
    }
  }

  lemma OnwardAt(k: Path, t: Tree)
    requires Distinct(Plug(k, t)) && t.Node?
    ensures t.node in Nodes(Plug(k, t)) && Onward(Plug(k, t), t.node) ==
      (if !t.right.Leaf? then Head(t.right) else if k.Above? && k.side.Left? then Head(k.far) else null)
  {
    PathToPlug(k, t, t.node);
    hide Plug, Distinct, Head;
  }

  // ---------- the walk, as a whole ----------

  ghost predicate IsSingle(t: Tree) { t.Node? && t.left.Leaf? && t.right.Leaf? }

  /** The nodes that the walk comes to, in order. */
  ghost function WalkOf(t: Tree): seq<RbNode> {
    if !t.Node? then []
    else if t.left.Leaf? then [t.node] + WalkOf(t.right)
    else if IsSingle(t.left) then [t.left.node] + WalkOf(t.right)
    else WalkOf(t.left)
  }

  lemma HeadIs(t: Tree)
    requires t.Node? && Ghosts(t) == {}
    ensures Head(t) == if t.left.Leaf? then t.node else Head(t.left)
  {
    if !t.left.Leaf? { NotEmpty(t.left); }
  }

  /** Inside a tree, the walk over a part of it leaves the part only from a single node on the
      left, to the other side. */
  lemma {:induction false} PartWalk(k: Path, t: Tree)
    requires Distinct(Plug(k, t)) && Ghosts(Plug(k, t)) == {}
    ensures (if WalkOf(t) == [] then null else WalkOf(t)[0]) == Head(t)
    ensures Follows(Plug(k, t), WalkOf(t), if IsSingle(t) && k.Above? && k.side.Left? then Head(k.far) else null)
    decreases t
  {
    PlugNodes(k, t);
    if t.Node? {
      var T, left, right := Plug(k, t), Above(k, Left, t.node, t.color, t.right),
        Above(k, Right, t.node, t.color, t.left);
      hide Onward, Nodes, Distinct, InOrder, Follows;
      HeadIs(t);
      if t.left.Leaf? {
        PartWalk(right, t.right);
        OnwardAt(k, t);
        FollowsMore(T, t.node, WalkOf(t.right), if IsSingle(t) && k.Above? && k.side.Left? then Head(k.far) else null);
      } else if IsSingle(t.left) {
        PartWalk(right, t.right);
        HeadIs(t.left);
        OnwardAt(left, t.left);
        FollowsMore(T, t.left.node, WalkOf(t.right), null);
      } else {
        PartWalk(left, t.left);
      }
    }
  }

  /** `WalkOf` is a walk from the first node to the end. */
  lemma WalkIs(t: Tree)
    requires Distinct(t) && Ghosts(t) == {}
    ensures IsWalk(t, WalkOf(t))
  {
    PartWalk(Top, t);
  }

  lemma {:induction false} SameWalk(t: Tree, a: seq<RbNode>, b: seq<RbNode>)
    requires Follows(t, a, null) && Follows(t, b, null)
    requires (if a == [] then null else a[0]) == (if b == [] then null else b[0])
    ensures a == b
    decreases |a|
  {
    if a != [] && b != [] {
      assert GoesOn(t, a, null, 0) && GoesOn(t, b, null, 0);
      forall i: nat | i < |a| - 1 ensures GoesOn(t, a[1..], null, i) { assert GoesOn(t, a, null, i + 1); }
      forall i: nat | i < |b| - 1 ensures GoesOn(t, b[1..], null, i) { assert GoesOn(t, b, null, i + 1); }
      hide Onward, Nodes;
      SameWalk(t, a[1..], b[1..]);
      assert a == [a[0]] + a[1..] && b == [b[0]] + b[1..];
    }
  }

  /** Every walk from the first node to the end is `WalkOf`. */
  lemma WalkUnique(t: Tree, walk: seq<RbNode>)
    requires Distinct(t) && Ghosts(t) == {}
    ensures IsWalk(t, walk) <==> walk == WalkOf(t)
  {
    hide Onward, Nodes, Head, Distinct;
    WalkIs(t);
    if IsWalk(t, walk) { SameWalk(t, walk, WalkOf(t)); }
  }

  // ---------- the nodes passed over ----------

  /** The node has a left child. */
  ghost predicate HasLeft(t: Tree, x: RbNode)
    requires x in Nodes(t)
  {
    t.Node? &&
      if t.node == x then !t.left.Leaf?
      else if x in Nodes(t.left) then HasLeft(t.left, x)
      else HasLeft(t.right, x)
  }

  lemma {:induction false} PluggedLeft(k: Path, t: Tree, x: RbNode)
    requires Distinct(Plug(k, t)) && x in Nodes(t)
    ensures x in Nodes(Plug(k, t)) && HasLeft(Plug(k, t), x) == HasLeft(t, x)
  {
    if k.Above? {
      PlugNodes(k, t);
      PluggedLeft(k.up, Join(k.side, t, k.node, k.color, k.far), x);
    }
  }

  lemma {:induction false} HeadHasNoLeft(t: Tree)
    requires Distinct(t) && Ghosts(t) == {}
    ensures Head(t) != null ==> Head(t) in Nodes(t) && !HasLeft(t, Head(t))
  {
    if t.Node? && !t.left.Leaf? {
      HeadHasNoLeft(t.left);
      assert Head(t) == Head(t.left);
    }
  }

  /** The walk never comes to a node with a left child. */
  lemma PassedOver(t: Tree, x: RbNode, y: RbNode)
    requires Distinct(t) && Ghosts(t) == {} && x in Nodes(t) && HasLeft(t, x) && y in Nodes(t)
    ensures Head(t) != x && Onward(t, y) != x
  {
    HeadHasNoLeft(t);
    var (k, at) := PathTo(t, y, Top);
    PlugNodes(k, at);
    if at.Node? {
      if !at.right.Leaf? {
        HeadHasNoLeft(at.right);
        if Head(at.right) == x { PluggedLeft(Above(k, Right, y, at.color, at.left), at.right, x); }
      } else if k.Above? && k.side.Left? {
        HeadHasNoLeft(k.far);
        if Head(k.far) == x { PluggedLeft(Above(k.up, Right, k.node, k.color, at), k.far, x); }
      }
    }
  }

  lemma NotWalked(t: Tree, x: RbNode)
    requires Distinct(t) && Ghosts(t) == {} && x in Nodes(t) && HasLeft(t, x)
    ensures x !in WalkOf(t)
  {
    hide Onward, Head, HasLeft, Nodes, Distinct, WalkOf;
    WalkIs(t);
    var walk := WalkOf(t);
    forall i: nat | i < |walk| ensures walk[i] != x {
      if i == 0 {
        assert GoesOn(t, walk, null, 0);
        PassedOver(t, x, walk[0]);
      } else {
        assert GoesOn(t, walk, null, i - 1);
        PassedOver(t, x, walk[i - 1]);
      }
    }
  }

  lemma {:induction false} AllWalked(t: Tree)
    requires Distinct(t) && Ghosts(t) == {} && forall x <- Nodes(t) :: !HasLeft(t, x)
    ensures forall x <- Nodes(t) :: x in WalkOf(t)
  {
    if t.Node? {
      assert !HasLeft(t, t.node);
      forall x <- Nodes(t.right) ensures !HasLeft(t.right, x) { assert !HasLeft(t, x); }
      AllWalked(t.right);
    }
  }

  /** Every node is visited exactly when no node has a left child. */
  lemma AllVisited(t: Tree)
    requires Distinct(t) && Ghosts(t) == {}
    ensures (forall x <- Nodes(t) :: x in WalkOf(t)) <==> (forall x <- Nodes(t) :: !HasLeft(t, x))
  {
    hide Distinct, HasLeft, WalkOf;
    if forall x <- Nodes(t) :: !HasLeft(t, x) { AllWalked(t); }
    forall x <- Nodes(t) | HasLeft(t, x) ensures x !in WalkOf(t) { NotWalked(t, x); }
  }

  /** In a red-black tree that means at most two nodes. */
  lemma AllOfTwo(t: Tree)
    requires Distinct(t) && Ghosts(t) == {} && RedBlack(t) && forall x <- Nodes(t) :: x in WalkOf(t)
    ensures |InOrder(t)| <= 2
  {
    AllVisited(t);
    if t.Node? {
      assert !HasLeft(t, t.node);
      Flat(t.right);
      assert |InOrder(t.left)| == 0;
    }
  }

  /** A red-black tree without black nodes. */
  lemma Flat(t: Tree)
    requires RedBlack(t) && BlackHeight(t) == 0 && Ghosts(t) == {}
    ensures t.Leaf? || IsSingle(t)
    ensures |InOrder(t)| <= 1 && |WalkOf(t)| <= 1
  {
    if t.Node? {
      assert !IsRed(t.left) && !IsRed(t.right);
      assert BlackHeight(t.left) == 0 && BlackHeight(t.right) == 0;
    }
  }

  lemma LowWalk(t: Tree)
    requires RedBlack(t) && Ghosts(t) == {} && BlackHeight(t) == 1
    ensures |WalkOf(t)| <= if IsRed(t) then 3 else 2
  {
    if t.color.Black? {
      Flat(t.left);
      Flat(t.right);
    } else {
      BlackLow(t.left);
      BlackLow(t.right);
    }
  }

  lemma BlackLow(t: Tree)
    requires RedBlack(t) && Ghosts(t) == {} && BlackHeight(t) == 1 && !IsRed(t)
    ensures |WalkOf(t)| <= 2
  {
    Flat(t.left);
    Flat(t.right);
  }

  /** However many nodes a red-black tree has, the walk comes to at most four. */
  lemma {:induction false} AtMostFour(t: Tree)
    requires RedBlack(t) && Ghosts(t) == {}
    ensures |WalkOf(t)| <= 4
  {
    if t.Node? {
      if t.left.Leaf? {
        Flat(t.right);
      } else if IsSingle(t.left) {
        if BlackHeight(t.right) == 0 { Flat(t.right); } else { LowWalk(t.right); }
      } else {
        AtMostFour(t.left);
      }
    }
  }

  /** Of three nodes, the walk comes to the first and the third. */
  lemma FirstAndThird(t: Tree)
    requires RedBlack(t) && Ghosts(t) == {} && |InOrder(t)| == 3
    ensures WalkOf(t) == [InOrder(t)[0], InOrder(t)[2]]
  {
    ThreeNodes(t);
    var a, b := t.left, t.right;
    assert InOrder(a) == [a.node] && InOrder(b) == [b.node];
    assert InOrder(t) == [a.node, t.node, b.node];
    assert WalkOf(b) == [b.node];
  }

  lemma ThreeNodes(t: Tree)
    requires RedBlack(t) && Ghosts(t) == {} && |InOrder(t)| == 3
    ensures t.Node? && IsSingle(t.left) && IsSingle(t.right)
  {
    if BlackHeight(t.left) == 0 {
      Flat(t.left);
      Flat(t.right);
    } else {
      Taller(t.left);
      Taller(t.right);
      OneNode(t.left);
      OneNode(t.right);
    }
  }

  lemma Taller(t: Tree)
    requires RedBlack(t) && BlackHeight(t) > 0 && Ghosts(t) == {}
    ensures |InOrder(t)| >= 1
  {
  }

  lemma {:induction false} OneNode(t: Tree)
    requires |InOrder(t)| == 1 && Ghosts(t) == {}
    ensures IsSingle(t)
  {
    if !t.left.Leaf? { NotEmpty(t.left); }
    if !t.right.Leaf? { NotEmpty(t.right); }
  }

  lemma NotEmpty(t: Tree)
    requires !t.Leaf? && Ghosts(t) == {}
    ensures |InOrder(t)| >= 1
  {
  }
}
