/** How urgent an emergency is: its priority, the two timers, and how it ages.
  (src/server/thread_functions/thread_updater.c:138-196) */
module Urgency {
  import opened Common
  import opened PriorityTable

  datatype Urgency = Urgency(priority: int, promotion: int, timeout: int, promoted: nat)

  /** The timers mallocate_emergency gives a priority. */
  function Fresh(table: seq<Rule>, priority: int): Urgency
    requires ValidTable(table)
  {
    LevelIsRow(table, priority);
    var row := table[Level(table, priority)];
    Urgency(priority, row.promotion, row.timeout, 0)
  }

  /** promote_emergency */
  function Promote(table: seq<Rule>, u: Urgency): Urgency
    requires ValidTable(table)
  {
    Fresh(table, NextPriority(table, u.priority)).(promoted := u.promoted + 1)
  }

  /** update_waiting_emergency_state: a timer that is off stays off. */
  function Age(u: Urgency): Urgency {
    u.(promotion := if u.promotion != NO_PROMOTION then u.promotion - 1 else u.promotion,
       timeout := if u.timeout != NO_TIMEOUT then u.timeout - 1 else u.timeout)
  }

  /** emergency_has_expired */
  predicate Expired(u: Urgency) {
    u.timeout != NO_TIMEOUT && u.timeout <= 0
  }

  /** emergency_is_to_promote */
  predicate Due(u: Urgency) {
    u.promotion != NO_PROMOTION && u.promotion <= 0
  }

  /** A timer between two updates: off, or not yet run out. */
  predicate Rested(u: Urgency) {
    Live(u.promotion) && Live(u.timeout)
  }

  /** A timer during an update: off, or at least zero. */
  predicate Aged(u: Urgency) {
    && (u.promotion == NO_PROMOTION || u.promotion >= 0)
    && (u.timeout == NO_TIMEOUT || u.timeout >= 0)
  }

  /** Only below the top level can a promotion be pending. */
  ghost predicate Placed(table: seq<Rule>, u: Urgency) {
    Level(table, u.priority) == |table| - 1 ==> u.promotion == NO_PROMOTION
  }

  /** The promotion timer of an emergency: off, or still to run out, and off at the top level. */
  ghost predicate Climbing(table: seq<Rule>, u: Urgency) {
    (u.promotion == NO_PROMOTION || u.promotion >= 0) && Placed(table, u)
  }

  lemma FreshIsRested(table: seq<Rule>, priority: int)
    requires ValidTable(table)
    ensures Rested(Fresh(table, priority)) && Placed(table, Fresh(table, priority))
  {
    LevelIsRow(table, priority);
  }

  /** An accepted emergency starts with its priority and the timers of that priority's row. */
  lemma FreshTimers(table: seq<Rule>, priority: int)
    requires ValidTable(table)
    ensures var u := Fresh(table, priority);
            u.priority == priority && u.promoted == 0 && TimersOf(table, priority, u.promotion, u.timeout)
  {
    RowTimers(table, priority, Level(table, priority));
  }

  /** A promoted one gets the priority of the row above, with that row's timers. */
  lemma PromoteTimers(table: seq<Rule>, u: Urgency)
    requires ValidTable(table)
    ensures var v := Promote(table, u);
            && IsNext(table, u.priority, v.priority) && TimersOf(table, v.priority, v.promotion, v.timeout)
            && v.promoted == u.promoted + 1
  {
    NextIsNext(table, u.priority);
    FreshTimers(table, NextPriority(table, u.priority));
  }

  lemma PromoteIsRested(table: seq<Rule>, u: Urgency)
    requires ValidTable(table)
    ensures Rested(Promote(table, u)) && Placed(table, Promote(table, u))
    ensures Level(table, u.priority) <= Level(table, Promote(table, u).priority)
    ensures Level(table, u.priority) < |table| - 1 ==>
              Level(table, Promote(table, u).priority) == Level(table, u.priority) + 1
  {
    FreshIsRested(table, NextPriority(table, u.priority));
    NextPriorityClimbs(table, u.priority);
    LevelIsRow(table, u.priority);
  }

  // ---------------------------------------------------------------- how long an active emergency climbs

  /** What an update does to the pending promotion of an active emergency.  The timer is
      tested before it counts down, so a promotion takes one update more than it says. */
  function CountDown(table: seq<Rule>, u: Urgency): Urgency
    requires ValidTable(table) && u.promotion != NO_PROMOTION
  {
    if u.promotion <= 0 then Promote(table, u) else u.(promotion := u.promotion - 1)
  }

  /** The updates an active emergency of level l, its timers fresh, has a promotion pending. */
  function LevelClimb(table: seq<Rule>, l: nat): nat
    requires ValidTable(table) && l < |table|
    decreases |table| - l
  {
    if table[l].promotion == NO_PROMOTION then 0 else table[l].promotion + 1 + LevelClimb(table, l + 1)
  }

  /** The same for one whose timer has already run for a while. */
  function ClimbTime(table: seq<Rule>, u: Urgency): nat
    requires ValidTable(table) && Climbing(table, u)
  {
    LevelIsRow(table, u.priority);
    if u.promotion == NO_PROMOTION then 0
    else u.promotion + 1 + LevelClimb(table, Level(table, u.priority) + 1)
  }

  lemma FreshClimbTime(table: seq<Rule>, priority: int)
    requires ValidTable(table)
    ensures var u := Fresh(table, priority);
            Climbing(table, u) && Level(table, priority) < |table|
            && ClimbTime(table, u) == LevelClimb(table, Level(table, priority))
  {
    FreshIsRested(table, priority);
    LevelIsRow(table, priority);
  }

  /** Each update takes one off, until no promotion is pending. */
  lemma CountDownClimbs(table: seq<Rule>, u: Urgency)
    requires ValidTable(table) && Climbing(table, u)
    ensures u.promotion == NO_PROMOTION <==> ClimbTime(table, u) == 0
    ensures u.promotion != NO_PROMOTION ==>
              && Climbing(table, CountDown(table, u))
              && ClimbTime(table, CountDown(table, u)) == ClimbTime(table, u) - 1
  {
    if u.promotion != NO_PROMOTION && u.promotion <= 0 {
      LevelIsRow(table, u.priority);
      PromoteIsRested(table, u);
      FreshClimbTime(table, NextPriority(table, u.priority));
    }
  }

  /** With the shipped table only level 0 is promoted, after 61 updates. */
  lemma ShippedClimb(l: nat)
    requires l < |SHIPPED|
    ensures ValidTable(SHIPPED) && Climbing(SHIPPED, Fresh(SHIPPED, l))
    ensures ClimbTime(SHIPPED, Fresh(SHIPPED, l)) == if l == 0 then 61 else 0
  {
    ShippedIsValid();
    FreshClimbTime(SHIPPED, l);
    assert LevelClimb(SHIPPED, 2) == 0;
    assert LevelClimb(SHIPPED, 1) == 0;
  }

  // ---------------------------------------------------------------- how long an emergency can wait

  function Plus(n: nat, d: Option<nat>): Option<nat> {
    match d
    case None => None
    case Some(m) => Some(n + m)
  }

  /** The updates a fresh emergency of level l waits before it times out, along the
      chain of promotions; None when the chain ends in a row that never times out. */
  function Deadline(table: seq<Rule>, l: nat): Option<nat>
    requires ValidTable(table) && l < |table|
    decreases |table| - l
  {
    var row := table[l];
    if row.timeout != NO_TIMEOUT && (row.promotion == NO_PROMOTION || row.timeout <= row.promotion) then
      Some(row.timeout)
    else if row.promotion != NO_PROMOTION then
      Plus(row.promotion, Deadline(table, l + 1))
    else
      None
  }

  /** The same for an emergency whose timers have already run for a while. */
  function TimeLeft(table: seq<Rule>, u: Urgency): Option<nat>
    requires ValidTable(table) && Aged(u) && Placed(table, u)
  {
    LevelIsRow(table, u.priority);
    if u.timeout != NO_TIMEOUT && (u.promotion == NO_PROMOTION || u.timeout <= u.promotion) then
      Some(u.timeout)
    else if u.promotion != NO_PROMOTION then
      Plus(u.promotion, Deadline(table, Level(table, u.priority) + 1))
    else
      None
  }

  lemma {:induction false} DeadlinePositive(table: seq<Rule>, l: nat)
    requires ValidTable(table) && l < |table|
    ensures Deadline(table, l) != Some(0)
    decreases |table| - l
  {
    if table[l].promotion == NO_PROMOTION {
    } else {
      DeadlinePositive(table, l + 1);
    }
  }

  /** A fresh emergency has its level's whole deadline ahead of it. */
  lemma FreshTimeLeft(table: seq<Rule>, priority: int)
    requires ValidTable(table)
    ensures var u := Fresh(table, priority);
            Aged(u) && Placed(table, u) && Level(table, priority) < |table|
            && TimeLeft(table, u) == Deadline(table, Level(table, priority))
  {
    FreshIsRested(table, priority);
    LevelIsRow(table, priority);
  }

  /** Ageing uses up exactly one update, and never runs a timer into the value that means "off". */
  lemma AgeTimeLeft(table: seq<Rule>, u: Urgency)
    requires ValidTable(table) && Rested(u) && Placed(table, u)
    ensures Aged(Age(u)) && Placed(table, Age(u))
    ensures (Age(u).promotion == NO_PROMOTION <==> u.promotion == NO_PROMOTION)
            && (Age(u).timeout == NO_TIMEOUT <==> u.timeout == NO_TIMEOUT)
    ensures Plus(1, TimeLeft(table, Age(u))) == TimeLeft(table, u)
  {
  }

  /** An aged emergency expires exactly when nothing is left of its deadline. */
  lemma ExpiredWhenNothingLeft(table: seq<Rule>, u: Urgency)
    requires ValidTable(table) && Aged(u) && Placed(table, u)
    ensures Expired(u) <==> TimeLeft(table, u) == Some(0)
  {
    if u.promotion != NO_PROMOTION {
      LevelIsRow(table, u.priority);
      DeadlinePositive(table, Level(table, u.priority) + 1);
    }
  }

  /** Promotion costs nothing of the deadline. */
  lemma PromoteTimeLeft(table: seq<Rule>, u: Urgency)
    requires ValidTable(table) && Aged(u) && Placed(table, u) && Due(u) && !Expired(u)
    ensures Aged(Promote(table, u)) && Placed(table, Promote(table, u))
    ensures TimeLeft(table, Promote(table, u)) == TimeLeft(table, u)
  {
    LevelIsRow(table, u.priority);
    PromoteIsRested(table, u);
    FreshTimeLeft(table, NextPriority(table, u.priority));
    DeadlinePlusZero(Deadline(table, Level(table, u.priority) + 1));
  }

  lemma DeadlinePlusZero(d: Option<nat>)
    ensures Plus(0, d) == d
  {
  }

  /** One whole update of a waiting emergency: age, then expire, then promote; None once it has timed out. */
  function Update(table: seq<Rule>, u: Urgency): Option<Urgency>
    requires ValidTable(table)
  {
    var a := Age(u);
    if Expired(a) then None
    else if Due(a) then Some(Promote(table, a))
    else Some(a)
  }

  function Updates(table: seq<Rule>, u: Urgency, n: nat): Option<Urgency>
    requires ValidTable(table)
    decreases n
  {
    if n == 0 then Some(u)
    else match Update(table, u)
      case None => None
      case Some(v) => Updates(table, v, n - 1)
  }

  lemma UpdateTimeLeft(table: seq<Rule>, u: Urgency)
    requires ValidTable(table) && Rested(u) && Placed(table, u)
    ensures match Update(table, u)
            case None => TimeLeft(table, u) == Some(1)
            case Some(v) => Rested(v) && Placed(table, v) && Plus(1, TimeLeft(table, v)) == TimeLeft(table, u)
                            && TimeLeft(table, v) != Some(0)
  {
    var a := Age(u);
    AgeTimeLeft(table, u);
    ExpiredWhenNothingLeft(table, a);
    if !Expired(a) && Due(a) {
      PromoteIsRested(table, a);
      PromoteTimeLeft(table, a);
    }
  }

  lemma {:induction false} WaitsUntilNothingLeft(table: seq<Rule>, u: Urgency, n: nat)
    requires ValidTable(table) && Rested(u) && Placed(table, u) && TimeLeft(table, u) != Some(0)
    ensures Updates(table, u, n).Some? <==> TimeLeft(table, u).None? || n < TimeLeft(table, u).value
    decreases n
  {
    if n == 0 {
    } else {
      UpdateTimeLeft(table, u);
      if Update(table, u).Some? {
        WaitsUntilNothingLeft(table, Update(table, u).value, n - 1);
      }
    }
  }

  /** Bounded waiting.  An emergency no worker takes is still waiting after n updates
      exactly as long as n is below its level's deadline. */
  lemma WaitsExactlyItsDeadline(table: seq<Rule>, priority: int, n: nat)
    requires ValidTable(table)
    ensures Level(table, priority) < |table|
    ensures Updates(table, Fresh(table, priority), n).Some? <==>
            var d := Deadline(table, Level(table, priority)); d.None? || n < d.value
  {
    FreshIsRested(table, priority);
    FreshTimeLeft(table, priority);
    DeadlinePositive(table, Level(table, priority));
    WaitsUntilNothingLeft(table, Fresh(table, priority), n);
  }

  lemma ShippedDeadline(l: nat)
    requires l < |SHIPPED|
    ensures ValidTable(SHIPPED) && Level(SHIPPED, l) == l
    ensures Deadline(SHIPPED, l) == Some(if l == 0 then 120 else if l == 1 then 60 else 30)
  {
    ShippedIsValid();
    assert Deadline(SHIPPED, 2) == Some(30);
    assert Deadline(SHIPPED, 1) == Some(60);
  }

  /** With the shipped table: 120, 60 and 30 updates. */
  lemma ShippedDeadlines(n: nat)
    ensures ValidTable(SHIPPED)
    ensures Updates(SHIPPED, Fresh(SHIPPED, 0), n).Some? <==> n < 120
    ensures Updates(SHIPPED, Fresh(SHIPPED, 1), n).Some? <==> n < 60
    ensures Updates(SHIPPED, Fresh(SHIPPED, 2), n).Some? <==> n < 30
  {
    forall l: nat | l < 3 ensures Level(SHIPPED, l) == l {
      ShippedDeadline(l);
    }
    ShippedDeadline(0);
    ShippedDeadline(1);
    ShippedDeadline(2);
    WaitsExactlyItsDeadline(SHIPPED, 0, n);
    WaitsExactlyItsDeadline(SHIPPED, 1, n);
    WaitsExactlyItsDeadline(SHIPPED, 2, n);
  }
}
