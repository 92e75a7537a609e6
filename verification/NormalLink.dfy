/** The doubly linked list of heap nodes that holds the unacknowledged messages. */
module NormalLinks {

  import opened Common

  class Node<T> {
    const data: T
    var next: Node?<T>
    var prev: Node?<T>

    constructor (data: T)
      ensures this.data == data
    {
      this.data := data;
      next, prev := null, null;
    }
  }

  /** The node at a place, or null before the first and after the last. */
  ghost function At<T>(s: seq<Node<T>>, i: int): Node?<T> {
    if 0 <= i < |s| then s[i] else null
  }

  /** The links of the i-th node are those of the sequence. */
  ghost predicate Linked<T>(s: seq<Node<T>>, i: nat)
    requires i < |s|
    reads s[i]
  {
    s[i].prev == At(s, i - 1) && s[i].next == At(s, i + 1)
  }

  class NormalLink<T> {
    var head: Node?<T>
    var tail: Node?<T>
    ghost var nodes: seq<Node<T>>

    ghost predicate Valid()
      reads this, nodes
    {
      && Distinct(nodes) && head == At(nodes, 0) && tail == At(nodes, |nodes| - 1)
      && forall i | 0 <= i < |nodes| :: Linked(nodes, i)
    }

    lemma Ends()
      requires Valid()
      ensures head == At(nodes, 0) && tail == At(nodes, |nodes| - 1)
    {
    }

    constructor ()
      ensures Valid() && nodes == []
    {
      head, tail, nodes := null, null, [];
    }

    method PushBack(node: Node<T>)
      requires Valid() && node !in nodes
      modifies this, nodes, node
      ensures Valid() && nodes == old(nodes) + [node]
    {
      ghost var s := nodes;
      Alone(s, |s| - 1);
      if head != null {
        assert tail == s[|s| - 1];
        node.next := null;
        node.prev := tail;
        tail.next := node;
        tail := node;
      } else {
        node.next := null;
        node.prev := null;
        head := node;
        tail := node;
      }
      nodes := nodes + [node];
      forall i | 0 <= i < |s|
        ensures Linked(nodes, i)
      {
        assert nodes[i] == s[i] && old(Linked(s, i));
      }
      assert Linked(nodes, |s|);
    }

    method PopFront() returns (node: Node?<T>)
      requires Valid()
      modifies this, nodes
      ensures Valid() && (node == null <==> old(nodes) == [])
      ensures node == null ==> nodes == []
      ensures node != null ==> old(nodes) == [node] + nodes && node.next == null && node.prev == null
    {
      if head == null {
        return null;
      }
      node := head;
      ghost var s := nodes;
      assert Linked(s, 0);
      Alone(s, 0);
      Alone(s, 1);
      head := head.next;
      if head != null {
        assert head == s[1];
        head.prev := null;
      } else {
        tail := null;
      }
      node.next := null;
      node.prev := null;
      nodes := nodes[1..];
      forall i | 0 <= i < |nodes|
        ensures Linked(nodes, i)
      {
        assert nodes[i] == s[i + 1] && old(Linked(s, i + 1));
      }
    }

    /** The node is unlinked, wherever it is; k is its place. */
    method Erase(node: Node<T>, ghost k: nat)
      requires Valid() && k < |nodes| && nodes[k] == node
      modifies this, nodes
      ensures Valid() && nodes == Without(old(nodes), k)
    {
      ghost var s := nodes;
      Alone(s, k - 1);
      Alone(s, k);
      Alone(s, k + 1);
      assert Linked(s, k);
      var prev := node.prev;
      var next := node.next;
      if prev != null {
        assert prev == s[k - 1];
        prev.next := next;
      }
      if next != null {
        assert next == s[k + 1];
        next.prev := prev;
      }
      if head == node {
        head := next;
      }
      if tail == node {
        tail := prev;
      }
      nodes := Without(nodes, k);
      Removed(s, k);
      forall i | 0 <= i < |nodes|
        ensures Linked(nodes, i)
      {
        var j := if i < k then i else i + 1;
        assert nodes[i] == s[j] && old(Linked(s, j));
      }
    }

    /** Everything up to and including the node goes. */
    method EraseTo(node: Node<T>, ghost k: nat)
      requires Valid() && k < |nodes| && nodes[k] == node
      modifies this, nodes
      ensures Valid() && nodes == old(nodes)[k + 1..]
    {
      ghost var s := nodes;
      var tmpNode := head;
      ghost var i := 0;
      Alone(s, k);
      while tmpNode != node
        invariant i <= k && tmpNode == s[i]
        decreases k - i
      {
        assert Linked(s, i);
        tmpNode := tmpNode.next;
        i := i + 1;
      }
      assert Linked(s, k);
      Alone(s, k + 1);
      head := node.next;
      if head != null {
        assert head == s[k + 1];
        head.prev := null;
      } else {
        tail := null;
      }
      nodes := nodes[k + 1..];
      forall i | 0 <= i < |nodes|
        ensures Linked(nodes, i)
      {
        assert nodes[i] == s[k + 1 + i] && old(Linked(s, k + 1 + i));
      }
    }

    method Clear()
      requires Valid()
      modifies this
      ensures Valid() && nodes == []
    {
      head, tail, nodes := null, null, [];
    }
  }
}
