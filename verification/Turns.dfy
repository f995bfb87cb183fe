/** What a turn of each thread does, in every reachable state and in the fields of the
  records themselves: what is accepted, taken, aged, promoted, filed, and for whom. */
module Turns {
  import opened Common
  import opened Bresenham
  import opened PriorityTable
  import opened Urgency
  import opened Domain
  import opened Selection
  import opened Dispatcher
  import opened Accounting
  import opened World
  import opened Server
  import opened Custody
  import opened Protocol
  import opened Steps
  import opened Runs
  import opened RunTimes
  import Ledger
  import Sortie
  import QueueSpec

  // ---------------------------------------------------------------- the receiver

  /** A known emergency type, and a cell inside the map. */
  predicate Acceptable(cfg: Config, etype: nat, x: int, y: int) {
    etype < |cfg.types| && 0 <= x < cfg.width && 0 <= y < cfg.height
  }

  /** What a request just accepted is recorded as. */
  ghost predicate AsRequested(cfg: Config, em: Emergency, etype: nat, x: int, y: int)
    requires etype < |cfg.types|
  {
    var t := cfg.types[etype];
    && em.etype == etype && em.x == x && em.y == y && em.status == Waiting
    && em.urgency.priority == t.priority && em.urgency.promoted == 0 && em.paused == 0
    && TimersOf(cfg.table, t.priority, em.urgency.promotion, em.urgency.timeout)
    && |em.missing| == |t.requests| && (forall k :: 0 <= k < |em.missing| ==> em.missing[k] == t.requests[k].count)
    && |em.slots| == em.notArrived == em.notDone == Sum(em.missing)
    && (forall j :: 0 <= j < |em.slots| ==> em.slots[j] == None)
    && em.cond == NoWaiter && em.log == map[]
  }

  lemma NewIsAsRequested(cfg: Config, etype: nat, x: int, y: int)
    requires ValidTable(cfg.table) && etype < |cfg.types|
    ensures AsRequested(cfg, NewEmergency(cfg, etype, x, y), etype, x, y)
  {
    hide Fresh, TimersOf, ValidTable;
    FreshTimers(cfg.table, cfg.types[etype].priority);
    CountsSum(cfg.types[etype].requests);
  }

  /** Acceptance.  Whenever the receiver has nothing in its hand, a valid request adds exactly
      one emergency, as requested and in its hand, and changes nothing else. */
  lemma AcceptedAsRequested(cfg: Config, s: State, turns: seq<Turn>, etype: nat, x: int, y: int)
    requires Initial(cfg, s) && Reached(cfg, s, turns).receiver == None && Acceptable(cfg, etype, x, y)
    ensures
      var b, t := Reached(cfg, s, turns), Reached(cfg, s, turns + [Receiver(etype, x, y)]);
      var n := |b.core.emergencies|;
      && |t.core.emergencies| == n + 1 && AsRequested(cfg, t.core.emergencies[n], etype, x, y)
      && t == b.(core := Core(b.core.twins, b.core.emergencies + [t.core.emergencies[n]]), receiver := Some(n))
  {
    hide Invariant, Reached, Initial, Sound, ValidTable, NewEmergency, AsRequested;
    OneTurnOn(cfg, s, turns, Receiver(etype, x, y));
    TableValid(cfg, Reached(cfg, s, turns).core);
    NewIsAsRequested(cfg, etype, x, y);
  }

  /** And one that is not valid changes nothing. */
  lemma RefusedChangesNothing(cfg: Config, s: State, turns: seq<Turn>, etype: nat, x: int, y: int)
    requires Initial(cfg, s) && Reached(cfg, s, turns).receiver == None && !Acceptable(cfg, etype, x, y)
    ensures Reached(cfg, s, turns + [Receiver(etype, x, y)]) == Reached(cfg, s, turns)
  {
    hide Invariant, Reached, Initial, Sound;
    OneTurnOn(cfg, s, turns, Receiver(etype, x, y));
  }

  /** The queue with e at the end of the list of its priority's row. */
  ghost predicate JoinsItsLevel(cfg: Config, em: Emergency, e: nat, q: seq<seq<nat>>, r: seq<seq<nat>>) {
    forall k: nat :: RowOf(cfg.table, em.urgency.priority, k) ==> k < |q| && r == q[k := q[k] + [e]]
  }

  lemma FiledJoins(cfg: Config, c: Core, q: seq<seq<nat>>, e: nat)
    requires ValidTable(cfg.table) && |q| == |cfg.table| && e < |c.emergencies|
    ensures JoinsItsLevel(cfg, c.emergencies[e], e, q, Filed(cfg, c, q, e))
  {
    forall k: nat | RowOf(cfg.table, c.emergencies[e].urgency.priority, k)
      ensures k < |q| && Filed(cfg, c, q, e) == q[k := q[k] + [e]]
    {
      LevelIsRowOf(cfg.table, c.emergencies[e].urgency.priority, k);
    }
  }

  /** Delivery.  Whatever request comes next, what the receiver has in its hand first joins
      the waiting queue, last in the list of its level. */
  lemma DeliveredToItsLevel(cfg: Config, s: State, turns: seq<Turn>, turn: Turn, e: nat)
    requires Initial(cfg, s) && Reached(cfg, s, turns).receiver == Some(e) && turn.Receiver?
    ensures
      var b, t := Reached(cfg, s, turns), Reached(cfg, s, turns + [turn]);
      && e < |b.core.emergencies| && JoinsItsLevel(cfg, b.core.emergencies[e], e, b.queue, t.queue)
      && t == b.(receiver := None, queue := t.queue)
  {
    hide Invariant, Reached, Initial, Sound, ValidTable, Filed, JoinsItsLevel;
    var b := Reached(cfg, s, turns);
    OneTurnOn(cfg, s, turns, turn);
    StillKnown(cfg, b, e);
    TableValid(cfg, b.core);
    FiledJoins(cfg, b.core, b.queue, e);
  }

  // ---------------------------------------------------------------- from the request to the scene

  lemma {:induction false} AfterAppend(cfg: Config, s: State, a: seq<Turn>, b: seq<Turn>)
    requires Invariant(cfg, s)
    ensures After(cfg, s, a + b) == After(cfg, After(cfg, s, a), b)
    decreases |b|
  {
    hide Invariant, Act;
    if b == [] {
      assert a + b == a;
    } else {
      assert (a + b)[..|a + b| - 1] == a + b[..|b| - 1];
      AfterAppend(cfg, s, a, b[..|b| - 1]);
    }
  }

  /** An emergency never moves, and never changes its type. */
  lemma {:induction false} StaysPut(cfg: Config, s: State, turns: seq<Turn>, e: nat)
    requires Invariant(cfg, s) && e < |s.core.emergencies|
    ensures e < |After(cfg, s, turns).core.emergencies|
    ensures var a, b := s.core.emergencies[e], After(cfg, s, turns).core.emergencies[e];
            b.x == a.x && b.y == a.y && b.etype == a.etype
    decreases |turns|
  {
    hide Invariant, Act;
    if turns == [] {
    } else {
      StaysPut(cfg, s, turns[..|turns| - 1], e);
      EmergencyStep(cfg, After(cfg, s, turns[..|turns| - 1]), turns[|turns| - 1], e);
    }
  }

  /** Where the help arrives.  A valid request at (x, y) becomes emergency e, whatever happened
      before; whatever happens after, a twin on scene for e stands on the very cell requested
      if and only if its own last dispatch did not divert it. */
  lemma OnSceneWhereRequested(cfg: Config, s: State, before: seq<Turn>, etype: nat, x: int, y: int,
                              after: seq<Turn>, i: nat)
    requires Initial(cfg, s) && Reached(cfg, s, before).receiver == None && Acceptable(cfg, etype, x, y)
    requires i < |s.core.twins|
    ensures
      var e := |Reached(cfg, s, before).core.emergencies|;
      var turns := before + [Receiver(etype, x, y)] + after;
      var t := Reached(cfg, s, turns);
      && Invariant(cfg, s) && i < |t.core.twins|
      && e < |t.core.emergencies| && t.core.emergencies[e].etype == etype
      && (t.core.twins[i].status == OnScene && t.core.twins[i].emergency == Some(e) ==>
            (t.core.twins[i].x == x && t.core.twins[i].y == y <==> WellSent(cfg, s, turns, i)))
  {
    hide Invariant, Act, Initial, WellSent, AsRequested;
    var accepted := before + [Receiver(etype, x, y)];
    AcceptedAsRequested(cfg, s, before, etype, x, y);
    InitialInvariant(cfg, s);
    AfterAppend(cfg, s, accepted, after);
    RequestedCell(cfg, Reached(cfg, s, accepted).core.emergencies[|Reached(cfg, s, before).core.emergencies|],
                  etype, x, y);
    StaysPut(cfg, Reached(cfg, s, accepted), after, |Reached(cfg, s, before).core.emergencies|);
    OnSceneMeansThere(cfg, s, accepted + after, i);
  }

  lemma RequestedCell(cfg: Config, em: Emergency, etype: nat, x: int, y: int)
    requires etype < |cfg.types| && AsRequested(cfg, em, etype, x, y)
    ensures em.x == x && em.y == y && em.etype == etype
  {
  }

  // ---------------------------------------------------------------- a worker at the queue

  /** Service order.  A free worker takes the oldest emergency of the highest level that has
      any, which is the first in the order of service, and nothing else happens. */
  lemma TakesTheFirst(cfg: Config, s: State, turns: seq<Turn>, w: nat)
    requires Initial(cfg, s) && w < |Reached(cfg, s, turns).workers| && Reached(cfg, s, turns).workers[w] == Ready
    ensures
      var b, t := Reached(cfg, s, turns), Reached(cfg, s, turns + [Worker(w)]);
      var order := QueueSpec.Order<nat>(b.queue);
      && (order == [] ==> t == b)
      && (order != [] ==>
            && t == b.(workers := b.workers[w := Holding(order[0])], queue := t.queue)
            && QueueSpec.Order<nat>(t.queue) == order[1..])
      && (forall l :: 0 <= l < |b.queue| && b.queue[l] != []
                      && (forall m :: l < m < |b.queue| ==> b.queue[m] == []) ==>
            t.workers[w] == Holding(b.queue[l][0]) && t.queue == b.queue[l := b.queue[l][1..]])
  {
    hide Invariant, Reached, Initial, Sound, QueueSpec.ExtractFirst, QueueSpec.Order;
    var b := Reached(cfg, s, turns);
    OneTurnOn(cfg, s, turns, Worker(w));
    QueueSpec.PopIsHead<nat>(b.queue);
    forall l | 0 <= l < |b.queue| && b.queue[l] != [] && (forall m :: l < m < |b.queue| ==> b.queue[m] == [])
      ensures QueueSpec.Pop<nat>(b.queue) == Some((b.queue[l][0], b.queue[l := b.queue[l][1..]]))
    {
      QueueSpec.PopsHighest<nat>(b.queue, l);
    }
  }

  // ---------------------------------------------------------------- timers and promotions

  /** The priority of the row above, with that row's timers, and one more promotion counted. */
  ghost predicate Promoted(table: seq<Rule>, u: Urgency, v: Urgency) {
    && IsNext(table, u.priority, v.priority) && TimersOf(table, v.priority, v.promotion, v.timeout)
    && v.promoted == u.promoted + 1
  }

  /** Both timers one lower, unless off. */
  predicate CountsDown(u: Urgency, v: Urgency) {
    && v.priority == u.priority && v.promoted == u.promoted
    && (if u.promotion == NO_PROMOTION then v.promotion == NO_PROMOTION else v.promotion == u.promotion - 1)
    && (if u.timeout == NO_TIMEOUT then v.timeout == NO_TIMEOUT else v.timeout == u.timeout - 1)
  }

  /** What a tick does to an active emergency's urgency. */
  ghost predicate Active(table: seq<Rule>, status: EmergencyStatus, u: Urgency, v: Urgency) {
    if u.promotion != NO_PROMOTION then
      if u.promotion <= 0 then Promoted(table, u, v) else v == u.(promotion := u.promotion - 1)
    else
      v == if status == Paused then u.(timeout := u.timeout - 1) else u
  }

  /** How an emergency's priority, timers and count of promotions change in a turn. */
  ghost predicate UrgencyGoes(cfg: Config, s: State, turn: Turn, e: nat, v: Urgency)
    requires e < |s.core.emergencies|
  {
    var em := s.core.emergencies[e];
    if turn == Updater && s.updater == Boosts(e) then Promoted(cfg.table, em.urgency, v)
    else if turn == Updater && s.updater == Ages && At(s, InQueue, e) then CountsDown(em.urgency, v)
    else if turn == Updater && s.updater == Waits && Some(e) in s.active then
      Active(cfg.table, em.status, em.urgency, v)
    else v == em.urgency
  }

  lemma AgeCountsDown(u: Urgency)
    ensures CountsDown(u, Age(u))
  {
  }

  lemma TickGoes(cfg: Config, a: Emergency, b: Emergency)
    requires ValidTable(cfg.table) && Worked(a, b)
    ensures Active(cfg.table, a.status, a.urgency, TickEmergency(cfg, b).urgency)
  {
    hide ValidTable, Promote, IsNext, TimersOf;
    PromoteTimers(cfg.table, a.urgency);
  }

  lemma WorldGoes(cfg: Config, s: State, e: nat)
    requires Invariant(cfg, s) && s.updater == Waits && e < |s.core.emergencies|
    ensures Well(cfg, s) && e < |Upkeep(cfg, s).core.emergencies|
    ensures UrgencyGoes(cfg, s, Updater, e, Upkeep(cfg, s).core.emergencies[e].urgency)
  {
    hide Invariant, Sound, Conserved, Settled, SlotsShow, ValidTable, Apart, TickEmergency, TickWorld, Active;
    InvariantParts(cfg, s);
    ActiveApart(s);
    var b := TickWorldEmergencies(cfg, s.core, s.active, e);
    TickGoes(cfg, s.core.emergencies[e], b);
  }

  lemma QueueGoes(cfg: Config, s: State, e: nat)
    requires Invariant(cfg, s) && s.updater == Ages && e < |s.core.emergencies|
    ensures Well(cfg, s) && e < |Upkeep(cfg, s).core.emergencies|
    ensures UrgencyGoes(cfg, s, Updater, e, Upkeep(cfg, s).core.emergencies[e].urgency)
  {
    hide Invariant, Sound, Conserved, Settled, SlotsShow, ValidTable, AgeAll, CountsDown, Age;
    InvariantParts(cfg, s);
    QueueDistinct(s);
    AgeAllPoint(s.core.emergencies, QueueSpec.Order<nat>(s.queue), e);
    AgeCountsDown(s.core.emergencies[e].urgency);
  }

  lemma PassGoes(cfg: Config, s: State, e: nat)
    requires Invariant(cfg, s) && s.updater != Waits && s.updater != Ages && e < |s.core.emergencies|
    ensures Well(cfg, s) && e < |Upkeep(cfg, s).core.emergencies|
    ensures UrgencyGoes(cfg, s, Updater, e, Upkeep(cfg, s).core.emergencies[e].urgency)
  {
    hide Invariant, Sound, ValidTable, Promote, Upkeep, Books, Shape, IsNext, TimersOf;
    InvariantSound(cfg, s);
    PassesKeepTimers(cfg, s, e);
    PromoteTimers(cfg.table, s.core.emergencies[e].urgency);
  }

  /** Timers and promotions.  Only the updater touches them: it counts down what waits, once
      in each cycle, and what is active; and whoever is promoted gets the next row's priority
      and that row's own timers. */
  lemma TimersGo(cfg: Config, s: State, turns: seq<Turn>, turn: Turn, e: nat)
    requires Initial(cfg, s) && e < |Reached(cfg, s, turns).core.emergencies|
    ensures e < |Reached(cfg, s, turns + [turn]).core.emergencies|
    ensures UrgencyGoes(cfg, Reached(cfg, s, turns), turn, e,
                        Reached(cfg, s, turns + [turn]).core.emergencies[e].urgency)
  {
    hide Invariant, Reached, Initial, Sound, Receive, Work, Upkeep, UrgencyGoes;
    var b := Reached(cfg, s, turns);
    OneTurnOn(cfg, s, turns, turn);
    if turn == Updater {
      if b.updater == Waits {
        WorldGoes(cfg, b, e);
      } else if b.updater == Ages {
        QueueGoes(cfg, b, e);
      } else {
        PassGoes(cfg, b, e);
      }
    } else {
      OthersKeepTimers(cfg, b, turn, e);
      Unmoved(cfg, b, turn, e);
    }
  }

  lemma Unmoved(cfg: Config, s: State, turn: Turn, e: nat)
    requires e < |s.core.emergencies| && turn != Updater
    ensures UrgencyGoes(cfg, s, turn, e, s.core.emergencies[e].urgency)
  {
  }

  /** So with the shipped table a request just accepted has exactly these timers. */
  lemma ShippedAccepted(cfg: Config, s: State, turns: seq<Turn>, etype: nat, x: int, y: int)
    requires Initial(cfg, s) && Reached(cfg, s, turns).receiver == None && Acceptable(cfg, etype, x, y)
    requires cfg.table == SHIPPED
    ensures
      var t, n := Reached(cfg, s, turns + [Receiver(etype, x, y)]), |Reached(cfg, s, turns).core.emergencies|;
      && n < |t.core.emergencies|
      && var u, priority := t.core.emergencies[n].urgency, cfg.types[etype].priority;
         && u.priority == priority
         && (priority == 0 ==> (u.promotion, u.timeout) == (60, -10))
         && (priority == 1 ==> (u.promotion, u.timeout) == (-10, 60))
         && (priority == 2 ==> (u.promotion, u.timeout) == (-10, 30))
  {
    hide Invariant, Reached, Initial;
    AcceptedAsRequested(cfg, s, turns, etype, x, y);
    assert RowOf(SHIPPED, 0, 0) && RowOf(SHIPPED, 1, 1) && RowOf(SHIPPED, 2, 2);
  }

  /** With the shipped table: a request of priority 0 waits with a promotion timer of 60 and no
      timeout, one of priority 1 or 2 with a timeout of 60 or 30 and no promotion; and the
      first, once promoted, has priority 1 and its timers. */
  lemma ShippedTimers(u: Urgency, v: Urgency)
    requires TimersOf(SHIPPED, u.priority, u.promotion, u.timeout) && Promoted(SHIPPED, u, v)
    ensures u.priority == 0 ==> (u.promotion, u.timeout) == (60, -10)
    ensures u.priority == 1 ==> (u.promotion, u.timeout) == (-10, 60)
    ensures u.priority == 2 ==> (u.promotion, u.timeout) == (-10, 30)
    ensures u.priority == 0 ==> (v.priority, v.promotion, v.timeout) == (1, -10, 60)
  {
    assert RowOf(SHIPPED, 0, 0) && RowOf(SHIPPED, 1, 1) && RowOf(SHIPPED, 2, 2);
  }

  // ---------------------------------------------------------------- the updater's cycle

  /** Where the updater can be after its turn. */
  predicate Follows(u: Phase, v: Phase) {
    match u
    case Waits => v == Ages
    case Ages => v == Expires
    case Expires => v.Cancels? || v == Promotes
    case Cancels(_) => v == Expires
    case Promotes => v.Boosts? || v == Waits
    case Boosts(_) => v == Promotes
  }

  lemma UpdaterFollows(cfg: Config, s: State)
    requires Invariant(cfg, s)
    ensures Well(cfg, s) && Follows(s.updater, Upkeep(cfg, s).updater)
  {
    hide Invariant, Sound, Settled, Conserved, SlotsShow, ValidTable, Filed, Promote, AgeAll, TickWorld,
        QueueSpec.ExtractFirst;
    InvariantParts(cfg, s);
    TableValid(cfg, s.core);
    if Extracted(s.updater).Some? {
      Exclusive(s, AtUpdater, AtUpdater, s.updater.e);
    }
  }

  lemma OnlyUpdaterCycles(cfg: Config, s: State, turn: Turn)
    requires Well(cfg, s) && turn != Updater
    ensures Act(cfg, s, turn).updater == s.updater
  {
    hide Sound, NewEmergency, Filed, FindRescuers;
  }

  /** Every update of the world is followed by one ageing of the queue before the next: in any
      run from the start there are as many of one as of the other, or one is under way. */
  lemma {:induction false} EveryUpdateAges(cfg: Config, s: State, turns: seq<Turn>)
    requires Initial(cfg, s)
    ensures Invariant(cfg, s)
    ensures Moves(cfg, s, turns) == Agings(cfg, s, turns) + if Reached(cfg, s, turns).updater == Ages then 1 else 0
    decreases |turns|
  {
    InitialInvariant(cfg, s);
    hide Invariant, Act, Well;
    if turns == [] {
    } else {
      var b := After(cfg, s, turns[..|turns| - 1]);
      EveryUpdateAges(cfg, s, turns[..|turns| - 1]);
      UpdaterFollows(cfg, b);
      CycleTurn(cfg, b, turns[|turns| - 1]);
    }
  }

  lemma CycleTurn(cfg: Config, s: State, turn: Turn)
    requires Well(cfg, s) && Follows(s.updater, Upkeep(cfg, s).updater)
    ensures var t := Act(cfg, s, turn);
            (if MovesWorld(s, turn) then 1 else 0) + (if s.updater == Ages then 1 else 0) ==
            (if AgesQueue(s, turn) then 1 else 0) + (if t.updater == Ages then 1 else 0)
  {
    hide Upkeep, Receive, Work, Well;
    if turn != Updater {
      OnlyUpdaterCycles(cfg, s, turn);
    }
  }

  // ---------------------------------------------------------------- a twin when the world moves

  /** A walking update: onto its target, on scene there or idle, when no farther than its speed;
      otherwise so many cells nearer.  Nothing else about the twin changes. */
  predicate Walks(r: RescuerType, t: Twin, u: Twin) {
    var left := Manhattan(t.x, t.y, t.course.xt, t.course.yt);
    if left <= r.speed then
      if t.status == EnRoute then
        u == t.(x := t.course.xt, y := t.course.yt, status := OnScene, timeLeft := t.timeToManage, served := 0)
      else
        u == t.(x := t.course.xt, y := t.course.yt, status := Idle)
    else
      && u == t.(x := u.x, y := u.y, course := t.course.(err := u.course.err))
      && Manhattan(u.x, u.y, t.course.xt, t.course.yt) == left - r.speed
      && Between(t.x, u.x, t.course.xt) && Between(t.y, u.y, t.course.yt)
  }

  /** The twin as it turns home: nobody's, no time set, on a course to its base. */
  function Homebound(r: RescuerType, t: Twin): Twin {
    t.(status := Returning, emergency := None, timeToManage := -1, timeLeft := -1, served := t.served + 1,
       course := if t.x == r.x && t.y == r.y then t.course else Aim(t.x, t.y, r.x, r.y))
  }

  /** What an update of the world does to a twin. */
  predicate TwinGoes(r: RescuerType, t: Twin, u: Twin) {
    match t.status
    case Idle => u == t
    case EnRoute => Walks(r, t, u)
    case OnScene =>
      if t.timeLeft > 1 then u == t.(timeLeft := t.timeLeft - 1, served := t.served + 1)
      else Walks(r, Homebound(r, t), u)
    case Returning => Walks(r, t, u)
  }

  lemma AdvanceWalks(cfg: Config, r: RescuerType, t: Twin)
    requires Sortie.ValidRescuer(cfg, r) && Sortie.Positioned(cfg, r, t) && Sortie.Underway(t)
    ensures Walks(r, t, Advance(r, t))
  {
    hide OnCourse, NearLine, UnitMoves, Descends, WalkEnd;
    if Sortie.AtTarget(t) {
      assert Manhattan(t.x, t.y, t.course.xt, t.course.yt) == 0;
    } else {
      StepExact(t.course, t.x, t.y, r.speed);
    }
  }

  lemma TickTwinGoes(cfg: Config, r: RescuerType, t: Twin)
    requires Sortie.ValidRescuer(cfg, r) && Sortie.Positioned(cfg, r, t)
    ensures TwinGoes(r, t, TickAlone(r, t))
  {
    hide Walks, Advance, OnCourse, NearLine;
    if Sortie.Underway(t) {
      AdvanceWalks(cfg, r, t);
    } else if t.status == OnScene && t.timeLeft <= 1 {
      Sortie.SendBackKeeps(cfg, r, t.(timeLeft := t.timeLeft - 1, served := t.served + 1));
      AdvanceWalks(cfg, r, Homebound(r, t));
    }
  }

  /** Twins.  In every reachable state, an update of the world takes each twin one step on: idle
      it stays, underway it walks, on scene it serves, and with its time up it starts home. */
  lemma TwinsGo(cfg: Config, s: State, turns: seq<Turn>, i: nat)
    requires Initial(cfg, s) && Reached(cfg, s, turns).updater == Waits && i < |Reached(cfg, s, turns).core.twins|
    ensures
      var b, t := Reached(cfg, s, turns).core, Reached(cfg, s, turns + [Updater]).core;
      && |t.twins| == |b.twins| && b.twins[i].rtype < |cfg.rescuers|
      && TwinGoes(cfg.rescuers[b.twins[i].rtype], b.twins[i], t.twins[i])
  {
    hide Invariant, Reached, Initial, Sound, Books, Shape, Act, TwinGoes, TickAlone, Sortie.Positioned;
    var b := Reached(cfg, s, turns);
    OneTurnOn(cfg, s, turns, Updater);
    InvariantSound(cfg, b);
    TwinHasType(cfg, b.core, i);
    SoundParts(cfg, b.core);
    ValidRescuers(cfg, b.core.twins[i].rtype);
    MovedTwin(cfg, b, Updater, i);
    TickTwinGoes(cfg, cfg.rescuers[b.core.twins[i].rtype], b.core.twins[i]);
  }

  // ---------------------------------------------------------------- a worker and its emergency

  /** What worker w does next for emergency e, when that is not a search. */
  ghost predicate GoesOn(cfg: Config, b: State, t: State, w: nat, e: nat)
    requires w < |b.workers| == |b.active| && e < |b.core.emergencies|
  {
    var em := b.core.emergencies[e];
    match b.workers[w]
    case Holding(_) =>
      && em.status == Waiting
      && t == b.(workers := b.workers[w := Searching(e)], active := b.active[w := Some(e)],
                 core := Changed(b.core, e, em.(status := Assigned)))
    case TimingOut(_) =>
      && t == b.(workers := b.workers[w := Closing], active := b.active[w := None],
                 core := Changed(b.core, e, em.(status := TimedOut)), canceled := t.canceled)
      && JoinsItsLevel(cfg, em, e, b.canceled, t.canceled)
    case Woken(_) =>
      && (em.status == Paused || em.status == Completed)
      && t == b.(workers := b.workers[w := if em.status == Paused then Searching(e) else Ending(e)])
    case Ending(_) => em.status == Completed && t == b.(workers := b.workers[w := Storing(e)])
    case Storing(_) =>
      && em.status == Completed
      && t == b.(workers := b.workers[w := Closing], active := b.active[w := None], completed := t.completed)
      && JoinsItsLevel(cfg, em, e, b.completed, t.completed)
    case Testing(_) => LooksWhetherToWait(b, t, w, e)
    case Sleeping(_) => LooksWhetherToWait(b, t, w, e)
    case Ready => true
    case Searching(_) => true
    case Closing => true
  }

  /** It goes to sleep, or back to sleep, unless the emergency is paused or completed. */
  predicate LooksWhetherToWait(b: State, t: State, w: nat, e: nat)
    requires w < |b.workers| && e < |b.core.emergencies|
  {
    var em := b.core.emergencies[e];
    if em.status == Paused || em.status == Completed then
      t == b.(workers := b.workers[w := Woken(e)], core := Changed(b.core, e, em.(cond := NoWaiter)))
    else
      t == b.(workers := b.workers[w := Sleeping(e)], core := Changed(b.core, e, em.(cond := Parked)))
  }

  function Changed(c: Core, e: nat, em: Emergency): Core
    requires e < |c.emergencies|
  {
    c.(emergencies := c.emergencies[e := em])
  }

  lemma WorkGoesOn(cfg: Config, s: State, w: nat)
    requires Invariant(cfg, s) && w < |s.workers| && Held(s.workers[w]).Some?
    ensures Well(cfg, s) && s.workers[w].e < |s.core.emergencies|
    ensures GoesOn(cfg, s, Work(cfg, s, w), w, s.workers[w].e)
  {
    hide Invariant, Sound, Settled, Conserved, SlotsShow, ValidTable, Filed, JoinsItsLevel, Look, Sum, Unstaffed;
    InvariantParts(cfg, s);
    SettledWorker(cfg, s, w);
    TableValid(cfg, s.core);
    FiledJoins(cfg, s.core, s.canceled, s.workers[w].e);
    FiledJoins(cfg, s.core, s.completed, s.workers[w].e);
    if s.workers[w].Storing? {
      var e := s.workers[w].e;
      assert s.core.emergencies[e := s.core.emergencies[e]] == s.core.emergencies;
    }
  }

  /** A worker's way with its emergency, in every reachable state. */
  lemma WorkerGoesOn(cfg: Config, s: State, turns: seq<Turn>, w: nat)
    requires Initial(cfg, s) && w < |Reached(cfg, s, turns).workers|
    ensures
      var b, t := Reached(cfg, s, turns), Reached(cfg, s, turns + [Worker(w)]);
      && (b.workers[w] == Closing ==> t == b.(workers := b.workers[w := Ready], active := b.active[w := None]))
      && (Held(b.workers[w]).Some? ==>
            |b.active| == |b.workers| && b.workers[w].e < |b.core.emergencies| && GoesOn(cfg, b, t, w, b.workers[w].e))
  {
    hide Invariant, Reached, Initial, Sound, GoesOn, WorkOn;
    var b := Reached(cfg, s, turns);
    OneTurnOn(cfg, s, turns, Worker(w));
    InvariantSound(cfg, b);
    if Held(b.workers[w]).Some? {
      WorkGoesOn(cfg, b, w);
    }
  }

  // ---------------------------------------------------------------- what is completed gets stored

  /** How many turns of the run are worker w's. */
  function Own(turns: seq<Turn>, w: nat): nat {
    if turns == [] then 0 else Own(turns[..|turns| - 1], w) + if turns[|turns| - 1] == Worker(w) then 1 else 0
  }

  /** How many turns of its own a worker is from storing its completed emergency. */
  function ToStore(v: Worker): nat {
    match v
    case Searching(_) => 5
    case Testing(_) => 4
    case Sleeping(_) => 4
    case Woken(_) => 3
    case Ending(_) => 2
    case Storing(_) => 1
    case _ => 6
  }

  /** The worker has a completed emergency in its slot. */
  predicate HasCompleted(s: State, w: nat, e: nat) {
    && w < |s.workers| && Opened(s.workers[w]) == Some(e)
    && e < |s.core.emergencies| && s.core.emergencies[e].status == Completed
  }

  lemma NobodyMissed(cfg: Config, s: State, e: nat)
    requires Invariant(cfg, s) && e < |s.core.emergencies| && s.core.emergencies[e].status == Completed
    ensures Sum(s.core.emergencies[e].missing) == 0
  {
    hide Invariant, Sound, Books, Shape;
    InvariantSound(cfg, s);
    NoneCanceled(cfg, s.core, e);
  }

  lemma LookPassesOn(cfg: Config, s: State, w: nat, e: nat)
    requires Well(cfg, s) && w < |s.workers| && s.workers[w] == Searching(e) && e < |s.core.emergencies|
    requires Sum(s.core.emergencies[e].missing) == 0
    ensures Work(cfg, s, w) == s.(workers := s.workers[w := Testing(e)])
  {
    hide Sound, Sensible, Sum;
    SoundIsSensible(cfg, s.core, e);
  }

  /** Its own turn brings it one nearer, or stores the emergency. */
  lemma OwnTurnNearer(cfg: Config, s: State, w: nat, e: nat)
    requires Invariant(cfg, s) && HasCompleted(s, w, e)
    ensures Well(cfg, s)
    ensures var t := Act(cfg, s, Worker(w));
            At(t, InCompleted, e) || (HasCompleted(t, w, e) && ToStore(t.workers[w]) == ToStore(s.workers[w]) - 1)
  {
    hide Invariant, Sound, GoesOn, Sum, JoinsItsLevel, Settled, Conserved, WorkOn;
    InvariantParts(cfg, s);
    SettledWorker(cfg, s, w);
    if s.workers[w].Searching? {
      NobodyMissed(cfg, s, e);
      LookPassesOn(cfg, s, w, e);
    } else if s.workers[w].Storing? {
      StoresNow(cfg, s, w, e);
    } else {
      WorkGoesOn(cfg, s, w);
      EndsNearer(cfg, s, Work(cfg, s, w), w, e);
    }
  }

  lemma StoresNow(cfg: Config, s: State, w: nat, e: nat)
    requires Well(cfg, s) && w < |s.workers| && s.workers[w] == Storing(e) && e < |s.core.emergencies|
    ensures At(Work(cfg, s, w), InCompleted, e)
  {
    hide Sound, ValidTable, Filed;
    TableValid(cfg, s.core);
    EntriesPush(cfg, s.core, s.completed, e, e);
  }

  lemma EndsNearer(cfg: Config, s: State, t: State, w: nat, e: nat)
    requires HasCompleted(s, w, e) && |s.active| == |s.workers| && GoesOn(cfg, s, t, w, e)
    requires s.workers[w].Testing? || s.workers[w].Sleeping? || s.workers[w].Woken? || s.workers[w].Ending?
    ensures HasCompleted(t, w, e) && ToStore(t.workers[w]) == ToStore(s.workers[w]) - 1
  {
  }

  lemma OthersTurnKeepsPhase(cfg: Config, s: State, turn: Turn, w: nat)
    requires Well(cfg, s) && w < |s.workers| && turn != Worker(w)
    ensures |Act(cfg, s, turn).workers| == |s.workers| && Act(cfg, s, turn).workers[w] == s.workers[w]
  {
    hide Sound, Upkeep, NewEmergency, Filed, FindRescuers;
    TableValid(cfg, s.core);
    if turn.Updater? {
      UpkeepWorkersSame(cfg, s);
    }
  }

  lemma UpkeepWorkersSame(cfg: Config, s: State)
    requires Well(cfg, s)
    ensures Upkeep(cfg, s).workers == s.workers && Upkeep(cfg, s).completed == s.completed
  {
    TableValid(cfg, s.core);
    hide Sound, ValidTable, Filed, QueueSpec.ExtractFirst, Promote, AgeAll, TickWorld;
  }

  lemma WorkKeepsCompleted(cfg: Config, s: State, w: nat, e: nat)
    requires Invariant(cfg, s) && Well(cfg, s) && w < |s.workers| && At(s, InCompleted, e)
    ensures At(Work(cfg, s, w), InCompleted, e)
  {
    hide Invariant, Sound, Settled, Conserved, WorkOn, Filed, WorkerSuits, Suits, Spared;
    InvariantParts(cfg, s);
    if Held(s.workers[w]).Some? {
      SettledWorker(cfg, s, w);
      WorkOnOwnStep(cfg, s, w);
      TableValid(cfg, s.core);
      EntriesPush(cfg, s.core, s.completed, s.workers[w].e, e);
    }
  }

  /** Nothing leaves the completed queue. */
  lemma CompletedStaysStored(cfg: Config, s: State, turn: Turn, e: nat)
    requires Invariant(cfg, s) && At(s, InCompleted, e)
    ensures Well(cfg, s) && At(Act(cfg, s, turn), InCompleted, e)
  {
    hide Invariant, Sound, NewEmergency, Filed, Work, Upkeep;
    InvariantSound(cfg, s);
    match turn
    case Receiver(etype, x, y) =>
    case Worker(w) =>
      if w < |s.workers| {
        WorkKeepsCompleted(cfg, s, w, e);
      }
    case Updater => UpkeepWorkersSame(cfg, s);
  }

  lemma {:induction false} StoredOrNearer(cfg: Config, s: State, turns: seq<Turn>, w: nat, e: nat)
    requires Invariant(cfg, s) && HasCompleted(s, w, e)
    ensures var t := After(cfg, s, turns);
            || At(t, InCompleted, e)
            || (HasCompleted(t, w, e) && ToStore(t.workers[w]) + Own(turns, w) <= ToStore(s.workers[w]))
    decreases |turns|
  {
    hide Invariant, Act, At, Well;
    if turns == [] {
    } else {
      var b, last := After(cfg, s, turns[..|turns| - 1]), turns[|turns| - 1];
      StoredOrNearer(cfg, s, turns[..|turns| - 1], w, e);
      KnownWell(cfg, b);
      if At(b, InCompleted, e) {
        CompletedStaysStored(cfg, b, last, e);
      } else if last == Worker(w) {
        OwnTurnNearer(cfg, b, w, e);
      } else {
        OthersTurnKeepsPhase(cfg, b, last, w);
        EmergencyStep(cfg, b, last, e);
      }
    }
  }

  lemma KnownWell(cfg: Config, s: State)
    requires Invariant(cfg, s)
    ensures Well(cfg, s)
  {
  }

  /** What is completed gets stored.  A worker with a completed emergency needs at most five
      more turns of its own to file it with the completed ones, whatever the others do. */
  lemma CompletedIsStored(cfg: Config, s: State, turns: seq<Turn>, w: nat, e: nat)
    requires Invariant(cfg, s) && HasCompleted(s, w, e) && Own(turns, w) >= 5
    ensures At(After(cfg, s, turns), InCompleted, e)
  {
    hide Invariant, After, At;
    AtWork(cfg, s, w, e);
    StoredOrNearer(cfg, s, turns, w, e);
  }

  lemma AtWork(cfg: Config, s: State, w: nat, e: nat)
    requires Invariant(cfg, s) && HasCompleted(s, w, e)
    ensures ToStore(s.workers[w]) <= 5
    ensures 1 <= ToStore(s.workers[w])
  {
    hide Invariant, Sound, Settled, Conserved;
    InvariantParts(cfg, s);
    SettledWorker(cfg, s, w);
  }
}
