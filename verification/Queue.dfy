/** lib/queue.c: the linked queue between the reading and the processing thread. */
module Queue {

  class Node<T> {
    const data: T
    ghost const id: int  // its number in order of arrival
    var prev: Node?<T>
    var next: Node?<T>

    constructor (data: T, ghost id: int)
      ensures this.data == data && this.id == id && prev == null && next == null
    {
      this.data, prev, next := data, null, null;
      this.id := id;
    }
  }

  function After<T>(spine: seq<Node<T>>, i: nat): Node?<T>
    requires i < |spine|
  {
    if i + 1 < |spine| then spine[i + 1] else null
  }

  function Before<T>(spine: seq<Node<T>>, i: nat): Node?<T>
    requires i < |spine|
  {
    if i > 0 then spine[i - 1] else null
  }

  ghost function Values<T>(spine: seq<Node<T>>): (vs: seq<T>)
    ensures |vs| == |spine|
  {
    if spine == [] then [] else [spine[0].data] + Values(spine[1..])
  }

  lemma {:induction false} ValuesAppend<T>(spine: seq<Node<T>>, node: Node<T>)
    ensures Values(spine + [node]) == Values(spine) + [node.data]
  {
    if spine == [] {
      assert spine + [node] == [node];
    } else {
      ValuesAppend(spine[1..], node);
      assert (spine + [node])[1..] == spine[1..] + [node];
    }
  }

  class Queue<T> {
    var front: Node?<T>
    var back: Node?<T>
    var size: nat
    ghost var spine: seq<Node<T>>
    ghost var head: int  // the number of the front node

    /** The nodes from front to back are `spine`, linked both ways. After the last pop `back` is stale. */
    ghost predicate Valid()
      reads this, spine
    {
      && size == |spine|
      && (forall i :: 0 <= i < |spine| ==> spine[i].id == head + i)
      && (forall i :: 0 <= i < |spine| ==> spine[i].next == After(spine, i) && spine[i].prev == Before(spine, i))
      && (spine == [] ==> front == null)
      && (spine != [] ==> front == spine[0] && back == spine[|spine| - 1])
    }

    /** The queued values, first to leave first. */
    ghost function Contents(): seq<T>
      reads this
    {
      Values(spine)
    }

    /** queue_init */
    constructor ()
      ensures Valid() && Contents() == []
    {
      front, back, size, spine, head := null, null, 0, [], 0;
    }

    method IsEmpty() returns (empty: bool)
      requires Valid()
      ensures empty <==> Contents() == []
    {
      empty := size == 0;
    }

    /** Hangs a new node behind the last one. */
    method Attach(node: Node<T>)
      requires Valid() && node !in spine && node.id == head + |spine| && node.next == null && node.prev == null
      modifies this, spine, node
      ensures Valid() && spine == old(spine) + [node]
    {
      if size == 0 {
        front := node;
        back := node;
      } else {
        back.next := node;
        node.prev := back;
        back := node;
      }
      size := size + 1;
      ghost var was := spine;
      spine := spine + [node];
      forall i | 0 <= i < |was|
        ensures spine[i].next == After(spine, i) && spine[i].prev == Before(spine, i)
      {
        assert spine[i] == was[i] && old(was[i].next) == After(was, i) && old(was[i].prev) == Before(was, i);
      }
    }

    /** push_back */
    method PushBack(data: T)
      requires Valid()
      modifies this, spine
      ensures Valid() && Contents() == old(Contents()) + [data]
      ensures spine[..|spine| - 1] == old(spine) && fresh(spine[|spine| - 1])
    {
      var node := new Node(data, head + |spine|);
      ValuesAppend(spine, node);
      hide Values, After, Before;
      Attach(node);
    }

    /** pop_front_unsafe, called with a nonempty queue */
    method PopFront() returns (node: Node<T>)
      requires Valid() && Contents() != []
      modifies this, spine
      ensures Valid() && node.data == old(Contents())[0] && Contents() == old(Contents())[1..]
      ensures node == old(spine)[0] && spine == old(spine)[1..]
    {
      ghost var was := spine;
      assert forall i :: 0 <= i < |was| - 1 ==> was[i + 1] == was[1..][i];
      assert was[0].next == After(was, 0);
      node := front;
      front := node.next;
      if front != null {
        front.prev := null;
      }
      size := size - 1;
      spine, head := spine[1..], head + 1;
    }
  }
}
