/** The mutable priority queue of src/priority_queue.c: one linked list per level.

  Every operation is proved against QueueSpec.  The mutex makes each of them one
  atomic step; sleeping on the condition and the signals are modelled in QueueHandshake.dfy. */
module PriorityQueue {
  import opened Common
  import opened LinkedList
  import opened QueueSpec

  /** The zeroed lists of a new queue. */
  method NewLists<T>(levels: nat) returns (ls: seq<List<T>>)
    ensures |ls| == levels && fresh(ls)
    ensures forall j :: 0 <= j < levels ==> ls[j].Valid() && ls[j].nodes == []
    ensures forall j, k :: 0 <= j < k < levels ==> ls[j] != ls[k]
  {
    ls := [];
    for i := 0 to levels
      invariant i == |ls|
      invariant fresh(ls)
      invariant forall j :: 0 <= j < i ==> ls[j].Valid() && ls[j].nodes == []
      invariant forall j, k :: 0 <= j < k < i ==> ls[j] != ls[k]
    {
      var l := new List<T>();
      ls := ls + [l];
    }
  }

  class Queue<T> {
    const lists: seq<List<T>>
    var size: int
    var closed: bool
    /** The queue as QueueSpec sees it. */
    ghost var contents: Levels<T>
    /** Every node the lists hold or held. */
    ghost var owned: set<Node<T>>
    /** The queue, its lists and their nodes: what its methods may change. */
    ghost var Repr: set<object>

    ghost predicate Owns()
      reads this`owned, lists
    {
      forall i, n :: 0 <= i < |lists| && n in lists[i].nodes ==> n in owned
    }

    ghost predicate Separate()
      reads lists
    {
      && (forall i, j :: 0 <= i < j < |lists| ==> lists[i] != lists[j])
      && (forall i, j, n :: 0 <= i < j < |lists| && n in lists[i].nodes ==> n !in lists[j].nodes)
    }

    /** The lists are well formed, apart from each other, and hold the contents. */
    ghost predicate Sound()
      reads this`owned, this`contents, lists, owned
    {
      && |lists| > 0 && |contents| == |lists|
      && Owns()
      && Separate()
      && (forall i :: 0 <= i < |lists| ==> lists[i].Valid() && contents[i] == lists[i].Items())
    }

    ghost predicate Valid()
      reads this, Repr
      ensures Valid() ==> this in Repr
    {
      && this in Repr
      && (forall l :: l in lists ==> l in Repr)
      && (forall n :: n in owned ==> n in Repr)
      && Sound()
      && size == |Order(contents)|
    }

    /** pq_create; a server has at least one level. */
    constructor (levels: nat)
      requires levels > 0
      ensures Valid() && fresh(Repr)
      ensures !closed && contents == Empty(levels)
    {
      var ls := NewLists<T>(levels);
      lists := ls;
      size, closed := 0, false;
      owned, contents := {}, Empty(levels);
      Repr := {this};
      new;
      Repr := Repr + set l: object | l in ls;
      EmptyOrder<T>(levels);
    }

    /** pq_close */
    method Close()
      requires Valid()
      modifies Repr
      ensures Valid() && closed && contents == old(contents) && Repr == old(Repr)
    {
      closed := true;
    }

    /** Only the list at level l, its nodes and new nodes changed: the other lists stand. */
    twostate lemma OneListChanged(l: nat)
      requires old(Sound()) && l < |lists| && lists[l].Valid() && Owns()
      requires contents == old(contents)[l := lists[l].Items()]
      requires forall i :: 0 <= i < |lists| && i != l ==> unchanged(lists[i])
      requires forall n :: n in old(owned) && n !in old(lists[l].nodes) ==> unchanged(n)
      requires forall n :: n in lists[l].nodes ==> n in old(lists[l].nodes) || n !in old(owned)
      ensures Sound()
    {
      forall i | 0 <= i < |lists| && i != l
        ensures lists[i].Valid() && lists[i].Items() == old(lists[i].Items())
      {
        forall k | 0 <= k < |lists[i].nodes| ensures unchanged(lists[i].nodes[k]) {
          assert lists[i].nodes[k] in old(lists[i].nodes);
        }
        lists[i].Kept();
      }
    }

    method Append(l: nat, n: Node<T>)
      requires Sound() && l < |lists| && n !in owned
      modifies this`size, this`Repr, this`owned, this`contents, lists[l], lists[l].nodes`next, n`prev, n`next
      ensures Sound() && owned == old(owned) + {n} && Repr == old(Repr) + {n} && size == old(size) + 1
      ensures contents == old(contents)[l := old(contents)[l] + [n.item]]
    {
      lists[l].PushBack(n);
      size := size + 1;
      owned, Repr := owned + {n}, Repr + {n};
      contents := contents[l := contents[l] + [n.item]];
      OneListChanged(l);
    }

    method Store(item: T, l: nat)
      requires Valid() && l < |lists|
      modifies Repr
      ensures Valid() && fresh(Repr - old(Repr)) && closed == old(closed)
      ensures contents == QueueSpec.Push(old(contents), item, l)
    {
      PushSize(contents, item, l);
      var n := new Node(item);
      Append(l, n);
    }

    /** pq_push: a closed queue ignores the push, any other clamps the level. */
    method Push(item: T, level: int)
      requires Valid()
      modifies Repr
      ensures Valid() && fresh(Repr - old(Repr)) && closed == old(closed)
      ensures contents == if closed then old(contents) else QueueSpec.Push(old(contents), item, level)
      ensures |contents| == |old(contents)|
      ensures !closed ==>
                forall l :: 0 <= l < |contents| && TakesLevel(|contents|, l, level) ==>
                  contents == old(contents)[l := old(contents)[l] + [item]]
    {
      if closed {
        return;
      }
      var l := level;
      if l >= |lists| {
        l := |lists| - 1;
      }
      if l < 0 {
        l := 0;
      }
      Store(item, l);
    }

    /** list_pop_front on one level. */
    method PopLevel(l: nat) returns (n: Node?<T>)
      requires Sound() && l < |lists|
      modifies this`contents, lists[l], lists[l].nodes`prev
      ensures Sound()
      ensures n == null <==> old(contents)[l] == []
      ensures n == null ==> contents == old(contents)
      ensures n != null ==> n.item == old(contents)[l][0] && contents == Take(old(contents), At(l, 0))
    {
      n := lists[l].PopFront();
      if n != null {
        assert RemoveAt(contents[l], 0) == contents[l][1..];
        contents := Take(contents, At(l, 0));
      }
      OneListChanged(l);
    }

    /** The scan shared by pq_pop and pq_try_pop: from the top level down to the first item. */
    method PopTop() returns (n: Node<T>)
      requires Sound() && exists j :: 0 <= j < |contents| && contents[j] != []
      modifies this`contents, lists, owned
      ensures Sound() && QueueSpec.Pop(old(contents)) == Some((n.item, contents))
    {
      ghost var q := contents;
      var i := |lists| - 1;
      while true
        invariant 0 <= i < |lists|
        invariant Sound() && contents == q && owned == old(owned)
        invariant forall j :: i < j < |q| ==> q[j] == []
        decreases i
      {
        var m := PopLevel(i);
        if m != null {
          TopFound(q, |q|, i);
          return m;
        }
        assert contents == q;
        i := i - 1;
      }
    }

    method TakeTop() returns (item: T)
      requires Valid() && size > 0
      modifies Repr
      ensures Valid() && Repr == old(Repr) && closed == old(closed)
      ensures QueueSpec.Pop(old(contents)) == Some((item, contents))
    {
      hide QueueSpec.Pop, Order;
      PopIsHead(contents);
      SomeLevel(contents);
      var n := PopTop();
      size := size - 1;
      item := n.item;
    }

    /** pq_try_pop: None exactly on an empty queue. */
    method TryPop() returns (item: Option<T>)
      requires Valid()
      modifies Repr
      ensures Valid() && Repr == old(Repr) && closed == old(closed)
      ensures match QueueSpec.Pop(old(contents))
              case None => item == None && contents == old(contents)
              case Some((x, rest)) => item == Some(x) && contents == rest
    {
      PopIsHead(contents);
      if size == 0 {
        return None;
      }
      var x := TakeTop();
      item := Some(x);
    }

    /** pq_pop.  On an empty open queue the caller has to wait; nothing changes, and it
        tries again once it has been woken. */
    method Pop() returns (waits: bool, item: Option<T>)
      requires Valid()
      modifies Repr
      ensures Valid() && Repr == old(Repr) && closed == old(closed)
      ensures waits <==> Order(old(contents)) == [] && !closed
      ensures match QueueSpec.Pop(old(contents))
              case None => item == None && contents == old(contents)
              case Some((x, rest)) => item == Some(x) && contents == rest
    {
      PopIsHead(contents);
      if size == 0 {
        return !closed, None;
      }
      var x := TakeTop();
      return false, Some(x);
    }

    /** list_remove_node on one level. */
    method RemoveFromLevel(l: nat, n: Node<T>, ghost k: nat)
      requires Sound() && l < |lists| && k < |lists[l].nodes| && lists[l].nodes[k] == n
      modifies this`size, this`contents, lists[l], lists[l].nodes`prev, lists[l].nodes`next
      ensures Sound() && contents == Take(old(contents), At(l, k)) && size == old(size) - 1
    {
      lists[l].RemoveNode(n, k);
      size := size - 1;
      contents := Take(contents, At(l, k));
      OneListChanged(l);
    }

    /** The inner scan of pq_extract_first over one level. */
    method FindInLevel(l: nat, want: T -> bool) returns (n: Node?<T>, ghost k: nat)
      requires Sound() && l < |lists|
      ensures k == IndexOf(contents[l], want)
      ensures n == null <==> k == |contents[l]|
      ensures n != null ==> k < |lists[l].nodes| && lists[l].nodes[k] == n
    {
      k := 0;
      n := lists[l].head;
      while n != null
        invariant k <= |lists[l].nodes|
        invariant n == if k < |lists[l].nodes| then lists[l].nodes[k] else null
        invariant forall j :: 0 <= j < k ==> !want(contents[l][j])
        decreases |lists[l].nodes| - k
      {
        if want(n.item) {
          FirstIndex(contents[l], k, want);
          return;
        }
        n := n.next;
        k := k + 1;
      }
      NoIndex(contents[l], want);
    }

    /** The scan of pq_extract_first: levels from the top, each from its head. */
    method Locate(want: T -> bool) returns (l: int, n: Node?<T>, ghost k: nat)
      requires Sound()
      ensures n == null <==> Find(contents, |contents|, want) == Nowhere
      ensures n != null ==> 0 <= l < |lists| && k < |lists[l].nodes| && lists[l].nodes[k] == n
                            && Find(contents, |contents|, want) == At(l, k)
    {
      l := |lists| - 1;
      n, k := null, 0;
      while l >= 0
        invariant -1 <= l < |lists|
        invariant Find(contents, |contents|, want) == Find(contents, l + 1, want)
        invariant n == null
      {
        n, k := FindInLevel(l, want);
        if n != null {
          return;
        }
        l := l - 1;
      }
    }

    /** pq_extract_first */
    method ExtractFirst(want: T -> bool) returns (item: Option<T>)
      requires Valid()
      modifies Repr
      ensures Valid() && Repr == old(Repr) && closed == old(closed)
      ensures match QueueSpec.ExtractFirst(old(contents), want)
              case None => item == None && contents == old(contents)
              case Some((x, rest)) => item == Some(x) && contents == rest
    {
      ghost var k;
      var l, n;
      l, n, k := Locate(want);
      if n == null {
        return None;
      }
      TakeOrder(contents, At(l, k));
      item := Some(n.item);
      RemoveFromLevel(l, n, k);
    }

    method MapLevel(l: nat, fn: T -> T)
      requires Sound() && l < |lists|
      modifies this`contents, lists[l].nodes`item
      ensures Sound() && contents == old(contents)[l := Map(old(contents)[l], fn)]
    {
      lists[l].MapItems(fn);
      contents := contents[l := Map(contents[l], fn)];
      OneListChanged(l);
    }

    method MapLevels(fn: T -> T)
      requires Sound()
      modifies this`contents, owned`item
      ensures Sound() && contents == MapAll(old(contents), fn)
    {
      hide PartMap, MapAll, Map;
      ghost var q := contents;
      for i := 0 to |lists|
        invariant Sound() && owned == old(owned) && |q| == |lists|
        invariant contents == PartMap(q, fn, i)
      {
        MapAllStep(q, fn, i);
        MapLevel(i, fn);
      }
    }

    /** pq_map */
    method MapItems(fn: T -> T)
      requires Valid()
      modifies Repr
      ensures Valid() && Repr == old(Repr) && closed == old(closed)
      ensures contents == MapAll(old(contents), fn)
    {
      MapAllOrder(contents, fn);
      MapLevels(fn);
    }
  }

  /** List l takes the pushes of its own level; the lowest those below it, the highest those above. */
  predicate TakesLevel(levels: nat, l: nat, level: int) {
    l == level || (level < 0 && l == 0) || (level >= levels && l == levels - 1)
  }

  /** The queue once pq_map has walked levels 0 to i-1. */
  ghost function PartMap<T>(q: Levels<T>, fn: T -> T, i: nat): (r: Levels<T>)
    requires i <= |q|
    ensures |r| == |q| && (i == 0 ==> r == q) && (i == |q| ==> r == MapAll(q, fn))
  {
    assert q[..|q|] == q;
    MapAll(q[..i], fn) + q[i..]
  }

  lemma MapAllStep<T>(q: Levels<T>, fn: T -> T, i: nat)
    requires i < |q|
    ensures var r := PartMap(q, fn, i);
            r[i := Map(r[i], fn)] == PartMap(q, fn, i + 1)
  {
    assert q[..i + 1][..i] == q[..i];
  }

  /** With every level above i empty, a scan for anything stops at the head of level i. */
  lemma {:induction false} TopFound<T>(q: Levels<T>, n: nat, i: nat)
    requires i < n <= |q| && q[i] != []
    requires forall j :: i < j < n ==> q[j] == []
    ensures Find(q, n, Always()) == At(i, 0)
  {
    if i == n - 1 {
    } else {
      TopFound(q, n - 1, i);
    }
  }

  lemma {:induction false} SomeLevel<T>(q: Levels<T>)
    requires Order(q) != []
    ensures exists j :: 0 <= j < |q| && q[j] != []
  {
    if q[|q| - 1] != [] {
    } else {
      SomeLevel(q[..|q| - 1]);
      var j :| 0 <= j < |q| - 1 && q[..|q| - 1][j] != [];
      assert q[j] != [];
    }
  }

  lemma NoIndex<T>(s: seq<T>, want: T -> bool)
    requires forall j :: 0 <= j < |s| ==> !want(s[j])
    ensures IndexOf(s, want) == |s|
  {
  }
}
