/** The two passes the updater makes over the waiting queue after ageing it
  (src/server/thread_functions/thread_updater.c:163-206), as extract-and-push
  loops, and their closed forms. */
module WaitingPasses {
  import opened Common
  import opened PriorityTable
  import opened Urgency
  import opened QueueSpec
  import PriorityQueue

  /** An emergency as the passes see it. */
  datatype Waiting = Waiting(id: nat, urgency: Urgency, timedOut: bool)

  function LevelOf(table: seq<Rule>, w: Waiting): nat {
    Level(table, w.urgency.priority)
  }

  function HasExpired(): Waiting -> bool {
    (w: Waiting) => Expired(w.urgency)
  }

  function HasNotExpired(): Waiting -> bool {
    (w: Waiting) => !Expired(w.urgency)
  }

  function IsDue(): Waiting -> bool {
    (w: Waiting) => Due(w.urgency)
  }

  function IsNotDue(): Waiting -> bool {
    (w: Waiting) => !Due(w.urgency)
  }

  function TimeOut(): Waiting -> Waiting {
    (w: Waiting) => w.(timedOut := true)
  }

  function Promoted(table: seq<Rule>): Waiting -> Waiting
    requires ValidTable(table)
  {
    (w: Waiting) => w.(urgency := Promote(table, w.urgency))
  }

  /** Every waiting emergency is in the list of its own level, and none at the top awaits promotion. */
  ghost predicate AtHome(table: seq<Rule>, q: Levels<Waiting>) {
    && |q| == |table|
    && forall l, k :: 0 <= l < |q| && 0 <= k < |q[l]| ==>
         LevelOf(table, q[l][k]) == l && Placed(table, q[l][k].urgency)
  }

  // ---------------------------------------------------------------- closed forms

  /** What expiry leaves on one level: those that have not expired, in order. */
  function KeptLevel(q: Levels<Waiting>, l: nat): seq<Waiting>
    requires l < |q|
  {
    Filter(q[l], HasNotExpired())
  }

  function Kept(q: Levels<Waiting>): (r: Levels<Waiting>)
    ensures |r| == |q| && forall l :: 0 <= l < |q| ==> r[l] == KeptLevel(q, l)
  {
    seq(|q|, l requires 0 <= l < |q| => KeptLevel(q, l))
  }

  /** One level of the cancelled queue after expiry: the expired ones are appended, in order. */
  function CancelledLevel(q: Levels<Waiting>, c: Levels<Waiting>, l: nat): seq<Waiting>
    requires l < |q| == |c|
  {
    c[l] + Map(Filter(q[l], HasExpired()), TimeOut())
  }

  function Cancelled(q: Levels<Waiting>, c: Levels<Waiting>): (r: Levels<Waiting>)
    requires |q| == |c|
    ensures |r| == |q| && forall l :: 0 <= l < |q| ==> r[l] == CancelledLevel(q, c, l)
  {
    seq(|q|, l requires 0 <= l < |q| => CancelledLevel(q, c, l))
  }

  /** Who arrives on level l: those promoted from the level below. */
  function Arrivals(table: seq<Rule>, q: Levels<Waiting>, l: nat): seq<Waiting>
    requires ValidTable(table) && l < |q|
  {
    if l == 0 then [] else Map(Filter(q[l - 1], IsDue()), Promoted(table))
  }

  /** What promotion leaves on one level: those not due, then those promoted into it. */
  function PromotedLevel(table: seq<Rule>, q: Levels<Waiting>, l: nat): seq<Waiting>
    requires ValidTable(table) && l < |q|
  {
    Filter(q[l], IsNotDue()) + Arrivals(table, q, l)
  }

  function AfterPromotion(table: seq<Rule>, q: Levels<Waiting>): (r: Levels<Waiting>)
    requires ValidTable(table)
    ensures |r| == |q| && forall l :: 0 <= l < |q| ==> r[l] == PromotedLevel(table, q, l)
  {
    seq(|q|, l requires 0 <= l < |q| => PromotedLevel(table, q, l))
  }

  // ---------------------------------------------------------------- one extraction

  function Count(s: seq<Waiting>, want: Waiting -> bool): nat {
    |Filter(s, want)|
  }

  lemma {:induction false} FilterRemoveFirst(s: seq<Waiting>, want: Waiting -> bool, other: Waiting -> bool)
    requires IndexOf(s, want) < |s|
    requires forall w :: other(w) == !want(w)
    ensures var k := IndexOf(s, want);
            && Filter(s, want) == [s[k]] + Filter(RemoveAt(s, k), want)
            && Filter(s, other) == Filter(RemoveAt(s, k), other)
  {
    var k := IndexOf(s, want);
    if want(s[0]) {
      assert RemoveAt(s, 0) == s[1..];
    } else {
      FilterRemoveFirst(s[1..], want, other);
      var t := RemoveAt(s, k);
      assert t[1..] == RemoveAt(s[1..], k - 1);
    }
  }

  lemma {:induction false} FilterNone(s: seq<Waiting>, want: Waiting -> bool, other: Waiting -> bool)
    requires IndexOf(s, want) == |s|
    requires forall w :: other(w) == !want(w)
    ensures Filter(s, want) == [] && Filter(s, other) == s
  {
    if s == [] {
    } else {
      FilterNone(s[1..], want, other);
    }
  }

  lemma {:induction false} FindIsIndexOf(q: Levels<Waiting>, n: nat, want: Waiting -> bool)
    requires n <= |q|
    ensures match Find(q, n, want)
            case Nowhere => forall l :: 0 <= l < n ==> IndexOf(q[l], want) == |q[l]|
            case At(l, k) => k == IndexOf(q[l], want)
  {
    if n == 0 {
    } else {
      FindIsIndexOf(q, n - 1, want);
    }
  }

  /** No item of the queue matches. */
  ghost predicate NoMatch(q: Levels<Waiting>, want: Waiting -> bool) {
    forall l, k :: 0 <= l < |q| && 0 <= k < |q[l]| ==> !want(q[l][k])
  }

  lemma NowhereIsNoMatch(q: Levels<Waiting>, want: Waiting -> bool)
    requires Find(q, |q|, want) == Nowhere
    ensures NoMatch(q, want)
  {
    FindIsIndexOf(q, |q|, want);
    forall l | 0 <= l < |q| ensures IndexOf(q[l], want) == |q[l]| {
    }
  }

  lemma LevelNone(q: Levels<Waiting>, l: nat, want: Waiting -> bool, other: Waiting -> bool)
    requires l < |q| && NoMatch(q, want)
    requires forall w :: other(w) == !want(w)
    ensures Filter(q[l], want) == [] && Filter(q[l], other) == q[l]
  {
    PriorityQueue.NoIndex(q[l], want);
    FilterNone(q[l], want, other);
  }

  /** How many of the queue's items match. */
  function Matches(q: Levels<Waiting>, want: Waiting -> bool): nat {
    Count(Order(q), want)
  }

  lemma ExtractCounts(q: Levels<Waiting>, want: Waiting -> bool)
    ensures ExtractFirst(q, want).Some? ==> Matches(ExtractFirst(q, want).value.1, want) + 1 == Matches(q, want)
  {
    ExtractFirstIsFirst(q, want);
    if ExtractFirst(q, want).Some? {
      FilterRemoveFirst(Order(q), want, w => !want(w));
    }
  }

  // ---------------------------------------------------------------- expiry

  datatype Expiry = Expiry(queue: Levels<Waiting>, cancelled: Levels<Waiting>)

  /** One turn of the expiry loop. */
  function ExpireOne(table: seq<Rule>, s: Expiry): Option<Expiry>
    requires |s.cancelled| > 0
  {
    match ExtractFirst(s.queue, HasExpired())
    case None => None
    case Some((w, rest)) => Some(Expiry(rest, Push(s.cancelled, TimeOut()(w), LevelOf(table, w))))
  }

  lemma TakeAtHome(table: seq<Rule>, q: Levels<Waiting>, p: Place)
    requires AtHome(table, q) && p.At? && p.level < |q| && p.index < |q[p.level]|
    ensures AtHome(table, Take(q, p))
  {
  }

  /** With nothing expired the closed forms change nothing. */
  lemma NoneExpired(q: Levels<Waiting>, c: Levels<Waiting>)
    requires NoMatch(q, HasExpired()) && |q| == |c|
    ensures Kept(q) == q && Cancelled(q, c) == c
  {
    NoneExpiredKept(q);
    NoneExpiredCancelled(q, c);
  }

  lemma NoneExpiredKept(q: Levels<Waiting>)
    requires NoMatch(q, HasExpired())
    ensures Kept(q) == q
  {
    forall l | 0 <= l < |q| ensures Kept(q)[l] == q[l] {
      LevelNone(q, l, HasExpired(), HasNotExpired());
    }
  }

  lemma NoneExpiredCancelled(q: Levels<Waiting>, c: Levels<Waiting>)
    requires NoMatch(q, HasExpired()) && |q| == |c|
    ensures Cancelled(q, c) == c
  {
    forall l | 0 <= l < |q| ensures Cancelled(q, c)[l] == c[l] {
      NoneExpiredAt(q, c, l);
    }
  }

  lemma NoneExpiredAt(q: Levels<Waiting>, c: Levels<Waiting>, l: nat)
    requires NoMatch(q, HasExpired()) && l < |q| == |c|
    ensures CancelledLevel(q, c, l) == c[l]
  {
    LevelNone(q, l, HasExpired(), HasNotExpired());
    AppendNothing(c[l], Map(Filter(q[l], HasExpired()), TimeOut()));
  }

  /** Moving the first expired emergency of a level changes neither closed form. */
  lemma OneExpired(q: Levels<Waiting>, c: Levels<Waiting>, l: nat, k: nat)
    requires |q| == |c| && l < |q| && k == IndexOf(q[l], HasExpired()) < |q[l]|
    ensures var q', c' := Take(q, At(l, k)), Push(c, TimeOut()(q[l][k]), l);
            Kept(q') == Kept(q) && Cancelled(q', c') == Cancelled(q, c)
  {
    var q', c' := Take(q, At(l, k)), Push(c, TimeOut()(q[l][k]), l);
    forall i | 0 <= i < |q|
      ensures KeptLevel(q', i) == KeptLevel(q, i) && CancelledLevel(q', c', i) == CancelledLevel(q, c, i)
    {
      FilterRemoveFirst(q[l], HasExpired(), HasNotExpired());
    }
    SameLevels(Kept(q'), Kept(q));
    SameLevels(Cancelled(q', c'), Cancelled(q, c));
  }

  /** A turn moves one expired emergency and leaves the closed form where it was. */
  lemma ExpireOneKeeps(table: seq<Rule>, s: Expiry)
    requires ValidTable(table) && AtHome(table, s.queue) && |s.cancelled| == |table|
    ensures match ExpireOne(table, s)
            case None => Kept(s.queue) == s.queue && Cancelled(s.queue, s.cancelled) == s.cancelled
            case Some(t) => AtHome(table, t.queue) && |t.cancelled| == |table|
                            && Kept(t.queue) == Kept(s.queue)
                            && Cancelled(t.queue, t.cancelled) == Cancelled(s.queue, s.cancelled)
  {
    var q := s.queue;
    match Find(q, |q|, HasExpired())
    case Nowhere =>
      NowhereIsNoMatch(q, HasExpired());
      NoneExpired(q, s.cancelled);
    case At(l, k) =>
      FindIsIndexOf(q, |q|, HasExpired());
      TakeAtHome(table, q, At(l, k));
      OneExpired(q, s.cancelled, l, k);
  }

  // ---------------------------------------------------------------- promotion

  /** One turn of the promotion loop. */
  function PromoteOne(table: seq<Rule>, q: Levels<Waiting>): Option<Levels<Waiting>>
    requires ValidTable(table)
  {
    match ExtractFirst(q, IsDue())
    case None => None
    case Some((w, rest)) =>
      if |rest| == 0 then None
      else
        var p := Promoted(table)(w);
        Some(Push(rest, p, LevelOf(table, p)))
  }

  lemma PushAtHome(table: seq<Rule>, q: Levels<Waiting>, w: Waiting)
    requires ValidTable(table) && AtHome(table, q) && Placed(table, w.urgency)
    ensures AtHome(table, Push(q, w, LevelOf(table, w)))
  {
    LevelIsRow(table, w.urgency.priority);
  }

  /** Where an extracted emergency goes: one level up, no longer due. */
  lemma PromotedGoesUp(table: seq<Rule>, q: Levels<Waiting>, l: nat, k: nat)
    requires ValidTable(table) && AtHome(table, q)
    requires l < |q| && k < |q[l]| && Due(q[l][k].urgency)
    ensures l + 1 < |q|
    ensures var p := Promoted(table)(q[l][k]);
            LevelOf(table, p) == l + 1 && !Due(p.urgency) && Placed(table, p.urgency)
  {
    PromoteIsRested(table, q[l][k].urgency);
  }

  /** With nothing due the closed form changes nothing. */
  lemma NoneDue(table: seq<Rule>, q: Levels<Waiting>)
    requires ValidTable(table) && NoMatch(q, IsDue())
    ensures AfterPromotion(table, q) == q
  {
    forall l | 0 <= l < |q| ensures PromotedLevel(table, q, l) == q[l] {
      NoneDueAt(table, q, l);
    }
    SameLevels(AfterPromotion(table, q), q);
  }

  lemma NoArrivals(table: seq<Rule>, q: Levels<Waiting>, l: nat)
    requires ValidTable(table) && NoMatch(q, IsDue()) && l < |q|
    ensures Arrivals(table, q, l) == []
  {
    if l > 0 {
      LevelNone(q, l - 1, IsDue(), IsNotDue());
    }
  }

  lemma NoneDueAt(table: seq<Rule>, q: Levels<Waiting>, l: nat)
    requires ValidTable(table) && NoMatch(q, IsDue()) && l < |q|
    ensures PromotedLevel(table, q, l) == q[l]
  {
    LevelNone(q, l, IsDue(), IsNotDue());
    NoArrivals(table, q, l);
    AppendNothing(q[l], Arrivals(table, q, l));
  }

  /** The queue once the first due emergency of level l has moved up as p. */
  function MovedUp(q: Levels<Waiting>, l: nat, k: nat, p: Waiting): (r: Levels<Waiting>)
    requires l + 1 < |q| && k < |q[l]|
    ensures r == Push(Take(q, At(l, k)), p, l + 1)
  {
    q[l := RemoveAt(q[l], k)][l + 1 := q[l + 1] + [p]]
  }

  /** The level it moves into gains it twice over: once as an item, no longer as an arrival. */
  lemma OneDueInto(table: seq<Rule>, q: Levels<Waiting>, l: nat, k: nat)
    requires ValidTable(table) && l + 1 < |q| && k == IndexOf(q[l], IsDue()) < |q[l]|
    requires !Due(Promoted(table)(q[l][k]).urgency)
    ensures var r := MovedUp(q, l, k, Promoted(table)(q[l][k]));
            PromotedLevel(table, r, l + 1) == PromotedLevel(table, q, l + 1)
  {
    var x := q[l][k];
    var p := Promoted(table)(x);
    var tail := Filter(RemoveAt(q[l], k), IsDue());
    KeepsNotDue(q[l + 1], p);
    FilterRemoveFirst(q[l], IsDue(), IsNotDue());
    MapCons(x, tail, Promoted(table));
    Regroup(Filter(q[l + 1], IsNotDue()), [p], Map(tail, Promoted(table)));
  }

  lemma KeepsNotDue(s: seq<Waiting>, p: Waiting)
    requires !Due(p.urgency)
    ensures Filter(s + [p], IsNotDue()) == Filter(s, IsNotDue()) + [p]
    ensures Filter(s + [p], IsDue()) == Filter(s, IsDue())
  {
    FilterAppend(s, [p], IsNotDue());
    FilterAppend(s, [p], IsDue());
    AppendNothing(Filter(s, IsDue()), Filter([p], IsDue()));
  }

  lemma OneDueFrom(table: seq<Rule>, q: Levels<Waiting>, l: nat, k: nat)
    requires ValidTable(table) && l + 1 < |q| && k == IndexOf(q[l], IsDue()) < |q[l]|
    ensures var r := MovedUp(q, l, k, Promoted(table)(q[l][k]));
            PromotedLevel(table, r, l) == PromotedLevel(table, q, l)
  {
    FilterRemoveFirst(q[l], IsDue(), IsNotDue());
  }

  lemma OneDueAbove(table: seq<Rule>, q: Levels<Waiting>, l: nat, k: nat)
    requires ValidTable(table) && l + 2 < |q| && k < |q[l]|
    requires !Due(Promoted(table)(q[l][k]).urgency)
    ensures var r := MovedUp(q, l, k, Promoted(table)(q[l][k]));
            PromotedLevel(table, r, l + 2) == PromotedLevel(table, q, l + 2)
  {
    KeepsNotDue(q[l + 1], Promoted(table)(q[l][k]));
  }

  /** Promoting the first due emergency of a level leaves each level's closed form alone. */
  lemma OneDue(table: seq<Rule>, q: Levels<Waiting>, l: nat, k: nat, i: nat)
    requires ValidTable(table) && l + 1 < |q| && k == IndexOf(q[l], IsDue()) < |q[l]| && i < |q|
    requires !Due(Promoted(table)(q[l][k]).urgency)
    ensures var r := MovedUp(q, l, k, Promoted(table)(q[l][k]));
            PromotedLevel(table, r, i) == PromotedLevel(table, q, i)
  {
    if i == l {
      OneDueFrom(table, q, l, k);
    } else if i == l + 1 {
      OneDueInto(table, q, l, k);
    } else if i == l + 2 {
      OneDueAbove(table, q, l, k);
    }
  }

  /** Each turn leaves one fewer expired, so the loop ends. */
  lemma ExpireOneCounts(table: seq<Rule>, e: Expiry)
    requires |e.cancelled| > 0
    ensures ExpireOne(table, e).Some? ==>
              Matches(ExpireOne(table, e).value.queue, HasExpired()) < Matches(e.queue, HasExpired())
  {
    ExtractCounts(e.queue, HasExpired());
  }

  /** A turn moves one due emergency one level up and leaves the closed form where it was. */
  lemma PromoteOneKeeps(table: seq<Rule>, q: Levels<Waiting>)
    requires ValidTable(table) && AtHome(table, q)
    ensures match PromoteOne(table, q)
            case None => AfterPromotion(table, q) == q
            case Some(r) => AtHome(table, r) && AfterPromotion(table, r) == AfterPromotion(table, q)
  {
    match Find(q, |q|, IsDue())
    case Nowhere =>
      NowhereIsNoMatch(q, IsDue());
      NoneDue(table, q);
    case At(l, k) =>
      var w, rest := q[l][k], Take(q, At(l, k));
      var p := Promoted(table)(w);
      FindIsIndexOf(q, |q|, IsDue());
      PromotedGoesUp(table, q, l, k);
      TakeAtHome(table, q, At(l, k));
      PushAtHome(table, rest, p);
      forall i | 0 <= i < |q|
        ensures PromotedLevel(table, MovedUp(q, l, k, p), i) == PromotedLevel(table, q, i)
      {
        OneDue(table, q, l, k, i);
      }
      SameLevels(AfterPromotion(table, MovedUp(q, l, k, p)), AfterPromotion(table, q));
  }

  /** Each turn leaves one fewer emergency due, so the loop ends. */
  lemma PromoteOneCounts(table: seq<Rule>, q: Levels<Waiting>)
    requires ValidTable(table) && AtHome(table, q) && PromoteOne(table, q).Some?
    ensures Matches(PromoteOne(table, q).value, IsDue()) < Matches(q, IsDue())
  {
    var At(l, k) := Find(q, |q|, IsDue());
    var p := Promoted(table)(q[l][k]);
    PromotedGoesUp(table, q, l, k);
    ExtractCounts(q, IsDue());
    PushCounts(Take(q, At(l, k)), p, l + 1);
  }

  lemma {:induction false} OrderCounts(q: Levels<Waiting>, w: Waiting, l: nat)
    requires l < |q| && !Due(w.urgency)
    ensures Matches(q[l := q[l] + [w]], IsDue()) == Matches(q, IsDue())
    decreases |q|
  {
    var n, r := |q| - 1, q[l := q[l] + [w]];
    FilterAppend(q[n], Order(q[..n]), IsDue());
    FilterAppend(r[n], Order(r[..n]), IsDue());
    if l < n {
      OrderCounts(q[..n], w, l);
      assert r[..n] == q[..n][l := q[..n][l] + [w]];
    } else {
      FilterAppend(q[n], [w], IsDue());
      assert r[..n] == q[..n];
    }
  }

  lemma PushCounts(q: Levels<Waiting>, w: Waiting, l: nat)
    requires l < |q| && !Due(w.urgency)
    ensures Matches(Push(q, w, l), IsDue()) == Matches(q, IsDue())
  {
    OrderCounts(q, w, l);
  }

  // ---------------------------------------------------------------- the loops

  /** One turn of the expiry loop. */
  method MoveExpired(table: seq<Rule>, queue: PriorityQueue.Queue<Waiting>, cancelled: PriorityQueue.Queue<Waiting>)
    returns (moved: bool)
    requires queue.Valid() && cancelled.Valid() && queue.Repr !! cancelled.Repr && !cancelled.closed
    modifies queue.Repr, cancelled.Repr
    ensures queue.Valid() && cancelled.Valid() && queue.Repr !! cancelled.Repr && !cancelled.closed
    ensures queue.Repr == old(queue.Repr) && fresh(cancelled.Repr - old(cancelled.Repr))
    ensures match ExpireOne(table, Expiry(old(queue.contents), old(cancelled.contents)))
            case None => !moved && queue.contents == old(queue.contents)
                         && cancelled.contents == old(cancelled.contents)
            case Some(t) => moved && Expiry(queue.contents, cancelled.contents) == t
  {
    hide Level, Order, ExtractFirst, Push;
    var e := queue.ExtractFirst(HasExpired());
    if e.None? {
      return false;
    }
    var level := PriorityTable.GetPriorityLevel(e.value.urgency.priority, table);
    cancelled.Push(TimeOut()(e.value), level);
    moved := true;
  }

  /** remove_expired_waiting_emergencies: terminates, keeps the others in order and
      appends the expired ones to the cancelled queue level by level. */
  method RemoveExpired(table: seq<Rule>, queue: PriorityQueue.Queue<Waiting>, cancelled: PriorityQueue.Queue<Waiting>)
    requires ValidTable(table)
    requires queue.Valid() && cancelled.Valid() && queue.Repr !! cancelled.Repr && !cancelled.closed
    requires AtHome(table, queue.contents) && |cancelled.contents| == |table|
    modifies queue.Repr, cancelled.Repr
    ensures queue.Valid() && cancelled.Valid()
    ensures queue.contents == Kept(old(queue.contents))
    ensures cancelled.contents == Cancelled(old(queue.contents), old(cancelled.contents))
    ensures AtHome(table, queue.contents)
  {
    hide ValidTable, ExpireOne, Kept, Cancelled, Matches;
    ghost var goal := Expiry(Kept(queue.contents), Cancelled(queue.contents, cancelled.contents));
    var moved := true;
    while moved
      invariant queue.Valid() && cancelled.Valid() && queue.Repr !! cancelled.Repr && !cancelled.closed
      invariant queue.Repr == old(queue.Repr) && fresh(cancelled.Repr - old(cancelled.Repr))
      invariant AtHome(table, queue.contents) && |cancelled.contents| == |table|
      invariant goal == Expiry(Kept(queue.contents), Cancelled(queue.contents, cancelled.contents))
      invariant !moved ==> goal == Expiry(queue.contents, cancelled.contents)
      decreases Matches(queue.contents, HasExpired()), moved
    {
      ExpireOneKeeps(table, Expiry(queue.contents, cancelled.contents));
      ExpireOneCounts(table, Expiry(queue.contents, cancelled.contents));
      moved := MoveExpired(table, queue, cancelled);
    }
  }

  /** One turn of the promotion loop. */
  method MoveDue(table: seq<Rule>, queue: PriorityQueue.Queue<Waiting>) returns (moved: bool)
    requires ValidTable(table)
    requires queue.Valid() && !queue.closed && AtHome(table, queue.contents)
    modifies queue.Repr
    ensures queue.Valid() && !queue.closed && fresh(queue.Repr - old(queue.Repr))
    ensures match PromoteOne(table, old(queue.contents))
            case None => !moved && queue.contents == old(queue.contents)
            case Some(r) => moved && queue.contents == r
  {
    hide ValidTable, AtHome;
    var e := queue.ExtractFirst(IsDue());
    if e.None? {
      return false;
    }
    var p := Promoted(table)(e.value);
    var level := PriorityTable.GetPriorityLevel(p.urgency.priority, table);
    queue.Push(p, level);
    moved := true;
  }

  /** promote_needing_waiting_emergencies: terminates; every level keeps what is not due,
      followed by what is promoted into it from the level below. */
  method PromoteDue(table: seq<Rule>, queue: PriorityQueue.Queue<Waiting>)
    requires ValidTable(table)
    requires queue.Valid() && !queue.closed && AtHome(table, queue.contents)
    modifies queue.Repr
    ensures queue.Valid() && fresh(queue.Repr - old(queue.Repr))
    ensures queue.contents == AfterPromotion(table, old(queue.contents))
    ensures AtHome(table, queue.contents)
  {
    hide ValidTable, PromoteOne, AfterPromotion, AtHome, Matches;
    ghost var goal := AfterPromotion(table, queue.contents);
    var moved := true;
    while moved
      invariant queue.Valid() && !queue.closed && fresh(queue.Repr - old(queue.Repr))
      invariant AtHome(table, queue.contents)
      invariant goal == AfterPromotion(table, queue.contents)
      invariant !moved ==> goal == queue.contents
      decreases Matches(queue.contents, IsDue()), moved
    {
      ghost var q := queue.contents;
      PromoteOneKeeps(table, q);
      if PromoteOne(table, q).Some? {
        PromoteOneCounts(table, q);
      }
      moved := MoveDue(table, queue);
    }
  }
}
