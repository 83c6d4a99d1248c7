/** api_list.h: an intrusive doubly linked list with a head and a tail. */
module List {

  class Node {
    var next: Node?
    var prev: Node?
  }

  /** The node at a place, none outside the list. */
  function At(s: seq<Node>, i: int): Node? { if 0 <= i < |s| then s[i] else null }

  predicate Distinct(s: seq<Node>) { forall i, j | 0 <= i < j < |s| :: s[i] != s[j] }

  /** The links of the node at a place lead to its neighbours. */
  ghost predicate LinkedAt(s: seq<Node>, i: nat)
    requires i < |s|
    reads s
  {
    s[i].prev == At(s, i - 1) && s[i].next == At(s, i + 1)
  }

  /** The list without the node at place `i`. */
  function Without(s: seq<Node>, i: nat): seq<Node>
    requires i < |s|
  {
    s[..i] + s[i + 1..]
  }

  lemma WithoutAt(s: seq<Node>, i: nat)
    requires i < |s| && Distinct(s)
    ensures var r := Without(s, i);
      && |r| == |s| - 1 && Distinct(r)
      && (forall k | 0 <= k < |r| :: r[k] == s[if k < i then k else k + 1])
      && (0 < i ==> At(r, 0) == s[0]) && (i < |s| - 1 ==> At(r, |r| - 1) == s[|s| - 1])
  {
  }

  class List {
    var head: Node?
    var tail: Node?
    ghost var nodes: seq<Node>

    ghost predicate Valid()
      reads this, nodes
    {
      && Distinct(nodes)
      && head == At(nodes, 0) && tail == At(nodes, |nodes| - 1)
      && forall i: nat | i < |nodes| :: LinkedAt(nodes, i)
    }

    constructor ()
      ensures Valid() && nodes == []
    {
      head, tail, nodes := null, null, [];
    }

    method PushHead(node: Node)
      requires Valid() && node !in nodes
      modifies this, node, nodes
      ensures Valid() && nodes == [node] + old(nodes)
    {
      node.prev := null;
      node.next := null;
      if head == null {
        head := node;
        tail := node;
      } else {
        assert LinkedAt(nodes, 0);
        node.next := head;
        head.prev := node;
        head := node;
      }
      ghost var s := nodes;
      nodes := [node] + s;
      forall i: nat | i < |nodes| ensures LinkedAt(nodes, i) {
        if i > 0 { assert old(LinkedAt(s, i - 1)); }
      }
    }

    method PushTail(node: Node)
      requires Valid() && node !in nodes
      modifies this, node, nodes
      ensures Valid() && nodes == old(nodes) + [node]
    {
      node.prev := null;
      node.next := null;
      if tail == null {
        head := node;
        tail := node;
      } else {
        node.prev := tail;
        tail.next := node;
        tail := node;
      }
      ghost var s := nodes;
      nodes := s + [node];
      forall i: nat | i < |nodes| ensures LinkedAt(nodes, i) {
        if i < |s| { assert old(LinkedAt(s, i)); }
      }
    }

    /** The first node; its own links stay as they were. */
    method PopHead() returns (node: Node?)
      requires Valid()
      modifies this, nodes
      ensures Valid()
      ensures if old(nodes) == [] then node == null && nodes == []
        else node == old(nodes)[0] && nodes == old(nodes)[1..]
    {
      if head == null { return null; }
      node := head;
      assert LinkedAt(nodes, 0);
      head := head.next;
      if tail == node { tail := null; } else { head.prev := null; }
      ghost var s := nodes;
      nodes := s[1..];
      forall i: nat | i < |nodes| ensures LinkedAt(nodes, i) { assert old(LinkedAt(s, i + 1)); }
    }

    method PopTail() returns (node: Node?)
      requires Valid()
      modifies this, nodes
      ensures Valid()
      ensures if old(nodes) == [] then node == null && nodes == []
        else node == old(nodes)[|old(nodes)| - 1] && nodes == old(nodes)[..|old(nodes)| - 1]
    {
      if tail == null { return null; }
      node := tail;
      assert LinkedAt(nodes, |nodes| - 1);
      tail := tail.prev;
      if head == node { head := null; } else { tail.next := null; }
      ghost var s := nodes;
      nodes := s[..|s| - 1];
      forall i: nat | i < |nodes| ensures LinkedAt(nodes, i) { assert old(LinkedAt(s, i)); }
    }

    /** Removes a node of the list, whether it is the first, the last, or between others. */
    method Remove(node: Node, ghost at: nat) returns (removed: Node?)
      requires Valid() && at < |nodes| && nodes[at] == node
      modifies this, nodes
      ensures Valid() && removed == node && nodes == Without(old(nodes), at)
    {
      if node == head {
        removed := PopHead();
        return;
      }
      if node == tail {
        removed := PopTail();
        return;
      }
      Unlink(node, at);
      return node;
    }

    /** A node between two others. */
    method Unlink(node: Node, ghost at: nat)
      requires Valid() && 0 < at < |nodes| - 1 && nodes[at] == node
      modifies this, nodes
      ensures Valid() && nodes == Without(old(nodes), at)
    {
      hide Without;
      ghost var s := nodes;
      WithoutAt(s, at);
      assert LinkedAt(s, at);
      node.prev.next := node.next;
      node.next.prev := node.prev;
      nodes := Without(s, at);
      forall i: nat | i < |nodes| ensures LinkedAt(nodes, i) { assert old(LinkedAt(s, if i < at then i else i + 1)); }
    }
  }

  /** Removing keeps the order of the others. */
  lemma WithoutOthers(s: seq<Node>, i: nat)
    requires i < |s| && Distinct(s)
    ensures Distinct(Without(s, i)) && (forall x :: x in Without(s, i) <==> x in s && x != s[i])
  {
    var r := Without(s, i);
    forall x ensures x in r <==> x in s && x != s[i] {
      if x in s && x != s[i] {
        var k :| 0 <= k < |s| && s[k] == x;
        assert r[if k < i then k else k - 1] == x;
      }
    }
  }
}
