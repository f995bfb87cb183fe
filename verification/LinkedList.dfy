/** The doubly linked list inside a queue level (src/priority_queue.c:5-35). */
module LinkedList {
  import opened Common

  class Node<T> {
    var prev: Node?<T>
    var next: Node?<T>
    var item: T

    constructor (item: T)
      ensures this.item == item && prev == null && next == null
    {
      this.item := item;
      prev, next := null, null;
    }
  }

  class List<T> {
    var head: Node?<T>
    var tail: Node?<T>
    var count: int
    /** The nodes from head to tail. */
    ghost var nodes: seq<Node<T>>

    ghost predicate Valid()
      reads this, nodes
    {
      && count == |nodes|
      && (nodes == [] ==> head == null && tail == null)
      && (nodes != [] ==> head == nodes[0] && tail == nodes[|nodes| - 1]
                          && nodes[0].prev == null && nodes[|nodes| - 1].next == null)
      && (forall i {:trigger nodes[i].next} :: 0 <= i < |nodes| - 1 ==> nodes[i].next == nodes[i + 1])
      && (forall i {:trigger nodes[i].prev} :: 0 < i < |nodes| ==> nodes[i].prev == nodes[i - 1])
      && (forall i, j :: 0 <= i < j < |nodes| ==> nodes[i] != nodes[j])
    }

    ghost function Items(): (s: seq<T>)
      reads this, nodes
      ensures |s| == |nodes|
    {
      seq(|nodes|, i requires 0 <= i < |nodes| reads this, nodes => nodes[i].item)
    }

    /** A list none of whose parts changed is still the same list. */
    twostate lemma Kept()
      requires old(Valid()) && unchanged(this)
      requires forall k :: 0 <= k < |nodes| ==> unchanged(nodes[k])
      ensures Valid() && Items() == old(Items())
    {
    }

    constructor ()
      ensures Valid() && nodes == []
    {
      head, tail, count, nodes := null, null, 0, [];
    }

    /** list_push_back */
    method PushBack(n: Node<T>)
      requires Valid() && n !in nodes
      modifies this, n`prev, n`next, nodes`next
      ensures Valid() && nodes == old(nodes) + [n]
      ensures Items() == old(Items()) + [n.item]
    {
      n.prev := tail;
      n.next := null;
      if tail != null {
        tail.next := n;
      } else {
        head := n;
      }
      tail := n;
      count := count + 1;
      nodes := nodes + [n];
    }

    /** list_pop_front */
    method PopFront() returns (n: Node?<T>)
      requires Valid()
      modifies this, nodes`prev
      ensures Valid()
      ensures old(nodes) == [] <==> n == null
      ensures n == null ==> nodes == old(nodes) && Items() == old(Items())
      ensures n != null ==> n == old(nodes)[0] && nodes == old(nodes)[1..]
                            && n.item == old(Items())[0] && Items() == old(Items())[1..]
    {
      n := head;
      if n == null {
        return;
      }
      head := n.next;
      if head != null {
        head.prev := null;
      } else {
        tail := null;
      }
      count := count - 1;
      nodes := nodes[1..];
    }

    twostate lemma ItemsWithout(k: nat)
      requires k < |old(nodes)| && nodes == RemoveAt(old(nodes), k)
      requires forall n :: n in old(nodes) ==> n.item == old(n.item)
      ensures Items() == RemoveAt(old(Items()), k)
    {
      forall i | 0 <= i < |nodes| ensures Items()[i] == RemoveAt(old(Items()), k)[i] {
        assert nodes[i] == old(nodes)[if i < k then i else i + 1];
      }
    }

    /** list_remove_node */
    method RemoveNode(n: Node<T>, ghost k: nat)
      requires Valid() && k < |nodes| && nodes[k] == n
      modifies this, nodes`prev, nodes`next
      ensures Valid() && nodes == RemoveAt(old(nodes), k)
      ensures Items() == RemoveAt(old(Items()), k)
    {
      if n.prev != null {
        assert k > 0 && n.prev == nodes[k - 1];
        n.prev.next := n.next;
      } else {
        assert k == 0;
        head := n.next;
      }
      if n.next != null {
        assert k < |nodes| - 1 && n.next == nodes[k + 1];
        n.next.prev := n.prev;
      } else {
        assert k == |nodes| - 1;
        tail := n.prev;
      }
      count := count - 1;
      nodes := RemoveAt(nodes, k);
      ItemsWithout(k);
    }

    /** The walk of pq_map over one list. */
    method MapItems(fn: T -> T)
      requires Valid()
      modifies nodes`item
      ensures Valid() && Items() == Map(old(Items()), fn)
    {
      var n := head;
      ghost var k := 0;
      while n != null
        invariant 0 <= k <= |nodes|
        invariant n == if k < |nodes| then nodes[k] else null
        invariant Valid()
        invariant forall j {:trigger nodes[j].item} :: 0 <= j < |nodes| ==>
                    nodes[j].item == if j < k then fn(old(nodes[j].item)) else old(nodes[j].item)
        decreases |nodes| - k
      {
        n.item := fn(n.item);
        n := n.next;
        k := k + 1;
      }
      assert forall j :: 0 <= j < |nodes| ==> Items()[j] == fn(old(Items())[j]);
    }
  }
}
