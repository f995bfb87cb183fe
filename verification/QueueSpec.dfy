/** What src/priority_queue.c promises: a queue with levels is a sequence of
  first-in-first-out sequences, the higher level served first. */
module QueueSpec {
  import opened Common

  type Levels<T> = seq<seq<T>>

  function Empty<T>(levels: nat): Levels<T> {
    seq(levels, _ => [])
  }

  function Clamp(level: int, levels: nat): nat
    requires levels > 0
  {
    if level >= levels then levels - 1 else if level < 0 then 0 else level
  }

  function Push<T>(q: Levels<T>, item: T, level: int): Levels<T>
    requires |q| > 0
  {
    var l := Clamp(level, |q|);
    q[l := q[l] + [item]]
  }

  /** The order of service: top level first, oldest first within a level. */
  function Order<T>(q: Levels<T>): seq<T> {
    if q == [] then [] else q[|q| - 1] + Order(q[..|q| - 1])
  }

  /** Where a match for `want` stands: its level and its index there. */
  datatype Place = Nowhere | At(level: nat, index: nat)

  function IndexOf<T>(s: seq<T>, want: T -> bool): (k: nat)
    ensures k <= |s|
    ensures forall j :: 0 <= j < k ==> !want(s[j])
    ensures k < |s| ==> want(s[k])
  {
    if s == [] then 0 else if want(s[0]) then 0 else
      var k := IndexOf(s[1..], want);
      assert forall j :: 1 <= j < k + 1 ==> s[j] == s[1..][j - 1];
      k + 1
  }

  /** The place the scan from level n-1 down to 0 stops at. */
  function Find<T>(q: Levels<T>, n: nat, want: T -> bool): (p: Place)
    requires n <= |q|
    ensures p.At? ==> p.level < n && p.index < |q[p.level]| && want(q[p.level][p.index])
  {
    if n == 0 then Nowhere
    else
      var k := IndexOf(q[n - 1], want);
      if k < |q[n - 1]| then At(n - 1, k) else Find(q, n - 1, want)
  }

  function Take<T>(q: Levels<T>, p: Place): Levels<T>
    requires p.At? && p.level < |q| && p.index < |q[p.level]|
  {
    q[p.level := RemoveAt(q[p.level], p.index)]
  }

  /** What is taken and what is left, or None when nothing matches. */
  function ExtractFirst<T>(q: Levels<T>, want: T -> bool): Option<(T, Levels<T>)> {
    match Find(q, |q|, want)
    case Nowhere => None
    case At(l, k) => Some((q[l][k], Take(q, At(l, k))))
  }

  function Always<T>(): T -> bool {
    (x: T) => true
  }

  function Pop<T>(q: Levels<T>): Option<(T, Levels<T>)> {
    ExtractFirst(q, Always())
  }

  function MapAll<T>(q: Levels<T>, fn: T -> T): (r: Levels<T>)
    ensures |r| == |q| && forall l :: 0 <= l < |q| ==> r[l] == Map(q[l], fn)
  {
    if q == [] then [] else MapAll(q[..|q| - 1], fn) + [Map(q[|q| - 1], fn)]
  }

  /** How many places are served before place p. */
  function Rank<T>(q: Levels<T>, p: Place): nat
    requires p.At? && p.level < |q| && p.index < |q[p.level]|
    decreases |q|
  {
    if p.level == |q| - 1 then p.index else |q[|q| - 1]| + Rank(q[..|q| - 1], p)
  }

  // ---------------------------------------------------------------- the order of service

  lemma {:induction false} RankIsOrder<T>(q: Levels<T>, p: Place)
    requires p.At? && p.level < |q| && p.index < |q[p.level]|
    ensures Rank(q, p) < |Order(q)| && Order(q)[Rank(q, p)] == q[p.level][p.index]
    decreases |q|
  {
    if p.level == |q| - 1 {
    } else {
      RankIsOrder(q[..|q| - 1], p);
    }
  }

  lemma {:induction false} TakeOrder<T>(q: Levels<T>, p: Place)
    requires p.At? && p.level < |q| && p.index < |q[p.level]|
    ensures Rank(q, p) < |Order(q)| && Order(Take(q, p)) == RemoveAt(Order(q), Rank(q, p))
    decreases |q|
  {
    RankIsOrder(q, p);
    var n := |q| - 1;
    if p.level < n {
      TakeOrder(q[..n], p);
      assert Take(q, p)[..n] == Take(q[..n], p);
    } else {
      assert Take(q, p)[..n] == q[..n];
    }
  }

  lemma {:induction false} FindIsFirst<T>(q: Levels<T>, want: T -> bool)
    ensures var p := Find(q, |q|, want);
            && (p.At? ==> forall j :: 0 <= j < Rank(q, p) && j < |Order(q)| ==> !want(Order(q)[j]))
            && (p.Nowhere? ==> forall j :: 0 <= j < |Order(q)| ==> !want(Order(q)[j]))
    decreases |q|
  {
    if q == [] {
    } else {
      var n := |q| - 1;
      FindPrefix(q, n, n, want);
      FindIsFirst(q[..n], want);
    }
  }

  lemma {:induction false} FindPrefix<T>(q: Levels<T>, m: nat, n: nat, want: T -> bool)
    requires n <= m <= |q|
    ensures Find(q[..m], n, want) == Find(q, n, want)
  {
    if n == 0 {
    } else {
      FindPrefix(q, m, n - 1, want);
    }
  }

  /** Extraction takes the first match in the order of service and nothing else;
      it fails exactly when nothing matches. */
  lemma ExtractFirstIsFirst<T>(q: Levels<T>, want: T -> bool)
    ensures ExtractFirst(q, want).None? <==> forall x :: x in Order(q) ==> !want(x)
    ensures match ExtractFirst(q, want)
            case None => true
            case Some((x, rest)) =>
              var k := IndexOf(Order(q), want);
              k < |Order(q)| && x == Order(q)[k] && Order(rest) == RemoveAt(Order(q), k)
  {
    FindIsFirst(q, want);
    var p := Find(q, |q|, want);
    if p.At? {
      RankIsOrder(q, p);
      TakeOrder(q, p);
      FirstIndex(Order(q), Rank(q, p), want);
      assert q[p.level][p.index] in Order(q);
    } else {
      forall x | x in Order(q) ensures !want(x) {
        var j :| 0 <= j < |Order(q)| && Order(q)[j] == x;
      }
    }
  }

  lemma FirstIndex<T>(s: seq<T>, k: nat, want: T -> bool)
    requires k < |s| && want(s[k])
    requires forall j :: 0 <= j < k ==> !want(s[j])
    ensures IndexOf(s, want) == k
  {
  }

  /** Pop serves the head of the order; it fails exactly on an empty queue. */
  lemma PopIsHead<T>(q: Levels<T>)
    ensures Pop(q).None? <==> Order(q) == []
    ensures match Pop(q)
            case None => true
            case Some((x, rest)) => Order(q) == [x] + Order(rest)
  {
    ExtractFirstIsFirst(q, Always());
    if Order(q) != [] {
      assert Order(q)[0] in Order(q);
      assert IndexOf(Order(q), Always()) == 0;
    }
  }

  /** That is the oldest item of the highest level that has any. */
  lemma PopsHighest<T>(q: Levels<T>, l: nat)
    requires l < |q| && q[l] != [] && forall m :: l < m < |q| ==> q[m] == []
    ensures Pop(q) == Some((q[l][0], q[l := q[l][1..]]))
  {
    FindsHighest(q, l, |q|);
    assert RemoveAt(q[l], 0) == q[l][1..];
  }

  lemma {:induction false} FindsHighest<T>(q: Levels<T>, l: nat, n: nat)
    requires l < n <= |q| && q[l] != [] && forall m :: l < m < |q| ==> q[m] == []
    ensures Find(q, n, Always()) == At(l, 0)
  {
    if n == l + 1 {
    } else {
      FindsHighest(q, l, n - 1);
    }
  }

  /** Mapping keeps every item in its place in the order of service. */
  lemma {:induction false} MapAllOrder<T>(q: Levels<T>, fn: T -> T)
    ensures |Order(MapAll(q, fn))| == |Order(q)|
    ensures forall k :: 0 <= k < |Order(q)| ==> Order(MapAll(q, fn))[k] == fn(Order(q)[k])
  {
    if q == [] {
    } else {
      MapAllOrder(q[..|q| - 1], fn);
      assert MapAll(q, fn)[..|q| - 1] == MapAll(q[..|q| - 1], fn);
    }
  }

  // ---------------------------------------------------------------- conservation

  lemma {:induction false} PushBag<T>(q: Levels<T>, item: T, level: int)
    requires |q| > 0
    ensures multiset(Order(Push(q, item, level))) == multiset(Order(q)) + multiset{item}
    decreases |q|
  {
    AppendBag(q, Clamp(level, |q|), item);
  }

  lemma PushSize<T>(q: Levels<T>, item: T, level: int)
    requires |q| > 0
    ensures |Order(Push(q, item, level))| == |Order(q)| + 1
  {
    PushBag(q, item, level);
    assert |multiset(Order(Push(q, item, level)))| == |Order(q)| + 1;
  }

  lemma {:induction false} AppendBag<T>(q: Levels<T>, l: nat, item: T)
    requires l < |q|
    ensures multiset(Order(q[l := q[l] + [item]])) == multiset(Order(q)) + multiset{item}
    decreases |q|
  {
    var n, r := |q| - 1, q[l := q[l] + [item]];
    if l < n {
      AppendBag(q[..n], l, item);
      assert r[..n] == q[..n][l := q[..n][l] + [item]];
    } else {
      assert r[..n] == q[..n];
    }
  }

  lemma ExtractBag<T>(q: Levels<T>, want: T -> bool)
    requires ExtractFirst(q, want).Some?
    ensures var (x, rest) := ExtractFirst(q, want).value;
            multiset(Order(q)) == multiset(Order(rest)) + multiset{x} && want(x)
  {
    ExtractFirstIsFirst(q, want);
    MultisetRemoveAt(Order(q), IndexOf(Order(q), want));
  }

  // ---------------------------------------------------------------- draining

  function PushAll<T>(levels: nat, pushes: seq<(T, int)>): (q: Levels<T>)
    requires levels > 0
    ensures |q| == levels
  {
    if pushes == [] then Empty(levels)
    else
      var (item, level) := pushes[|pushes| - 1];
      Push(PushAll(levels, pushes[..|pushes| - 1]), item, level)
  }

  /** Everything a consumer gets by popping until the queue is empty. */
  function Drain<T>(q: Levels<T>, fuel: nat): seq<T>
    requires fuel == |Order(q)|
    decreases fuel
  {
    PopIsHead(q);
    match Pop(q)
    case None => []
    case Some((x, rest)) => [x] + Drain(rest, fuel - 1)
  }

  function OfLevel<T>(pushes: seq<(T, int)>, levels: nat, l: nat): seq<T>
    requires levels > 0
  {
    if pushes == [] then []
    else
      OfLevel(pushes[..|pushes| - 1], levels, l) +
      if Clamp(pushes[|pushes| - 1].1, levels) == l then [pushes[|pushes| - 1].0] else []
  }

  /** The pushes of levels n-1, ..., 0, each level in the order it was pushed. */
  function StableByLevel<T>(pushes: seq<(T, int)>, levels: nat, n: nat): seq<T>
    requires levels > 0
  {
    if n == 0 then [] else OfLevel(pushes, levels, n - 1) + StableByLevel(pushes, levels, n - 1)
  }

  lemma {:induction false} PushAllPerLevel<T>(levels: nat, pushes: seq<(T, int)>, l: nat)
    requires l < levels
    ensures PushAll(levels, pushes)[l] == OfLevel(pushes, levels, l)
  {
    if pushes == [] {
    } else {
      PushAllPerLevel(levels, pushes[..|pushes| - 1], l);
    }
  }

  lemma {:induction false} OrderIsStable<T>(levels: nat, pushes: seq<(T, int)>, n: nat)
    requires 0 < levels && n <= levels
    ensures Order(PushAll(levels, pushes)[..n]) == StableByLevel(pushes, levels, n)
  {
    if n == 0 {
    } else {
      OrderIsStable(levels, pushes, n - 1);
      PushAllPerLevel(levels, pushes, n - 1);
      assert PushAll(levels, pushes)[..n][..n - 1] == PushAll(levels, pushes)[..n - 1];
    }
  }

  lemma {:induction false} DrainIsOrder<T>(q: Levels<T>)
    ensures Drain(q, |Order(q)|) == Order(q)
    decreases |Order(q)|
  {
    PopIsHead(q);
    if Pop(q).None? {
    } else {
      DrainIsOrder(Pop(q).value.1);
    }
  }

  /** Draining an open queue yields its pushes stably sorted by clamped level, highest first. */
  lemma DrainIsStableSort<T>(levels: nat, pushes: seq<(T, int)>)
    requires levels > 0
    ensures var q := PushAll(levels, pushes);
            Drain(q, |Order(q)|) == StableByLevel(pushes, levels, levels)
  {
    var q := PushAll(levels, pushes);
    DrainIsOrder(q);
    OrderIsStable(levels, pushes, levels);
    assert q[..levels] == q;
  }

  lemma SameLevels<T>(a: Levels<T>, b: Levels<T>)
    requires |a| == |b| && forall l :: 0 <= l < |a| ==> a[l] == b[l]
    ensures a == b
  {
  }

  lemma {:induction false} EmptyOrder<T>(levels: nat)
    ensures Order(Empty<T>(levels)) == []
  {
    if levels == 0 {
    } else {
      EmptyOrder<T>(levels - 1);
      assert Empty<T>(levels)[..levels - 1] == Empty<T>(levels - 1);
    }
  }
}
