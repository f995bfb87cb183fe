/** Time and place along a run: how long an emergency waits, how long a sortie takes, and
  where a twin on scene stands. */
module RunTimes {
  import opened Common
  import opened Bresenham
  import opened PriorityTable
  import opened Urgency
  import opened Domain
  import opened Selection
  import opened Dispatcher
  import opened Accounting
  import opened Dispatch
  import opened World
  import opened Server
  import opened Custody
  import opened Protocol
  import opened Steps
  import opened Runs
  import Ledger
  import Sortie
  import QueueSpec

  // ---------------------------------------------------------------- bounded waiting

  /** In the waiting queue, or out of it in the updater's hand. */
  ghost predicate InWaiting(s: State, e: nat) {
    At(s, InQueue, e) || At(s, AtUpdater, e)
  }

  predicate AgesQueue(s: State, turn: Turn) {
    turn.Updater? && s.updater == Ages
  }

  ghost predicate TimersSound(cfg: Config, em: Emergency) {
    ValidTable(cfg.table) && Aged(em.urgency) && Placed(cfg.table, em.urgency)
  }

  lemma WaitingTimers(cfg: Config, s: State, e: nat)
    requires Invariant(cfg, s) && InWaiting(s, e)
    ensures e < |s.core.emergencies| && TimersSound(cfg, s.core.emergencies[e])
    ensures s.updater == Waits || s.updater == Ages ==> Rested(s.core.emergencies[e].urgency)
    ensures s.core.emergencies[e].status == Waiting
  {
    hide Invariant, Sound, Conserved;
    InvariantParts(cfg, s);
    TableValid(cfg, s.core);
    if At(s, InQueue, e) {
      assert Suits(cfg, s, InQueue, s.core.emergencies[e]);
    } else {
      assert Suits(cfg, s, AtUpdater, s.core.emergencies[e]);
    }
  }

  /** A worker's step changes nobody's timers, a new arrival's neither. */
  lemma OthersKeepTimers(cfg: Config, s: State, turn: Turn, e: nat)
    requires Well(cfg, s) && !turn.Updater? && e < |s.core.emergencies|
    ensures e < |Act(cfg, s, turn).core.emergencies|
    ensures Act(cfg, s, turn).core.emergencies[e].urgency == s.core.emergencies[e].urgency
  {
    hide Sound, Receive, Work;
    match turn
    case Receiver(etype, x, y) => ReceiveEvolves(cfg, s, etype, x, y, e);
    case Worker(w) =>
      if w < |s.workers| {
        WorkKeepsUrgency(cfg, s, w, e);
      }
    case Updater =>
  }

  /** The world's tick does not touch the timers of those that wait. */
  lemma TickKeepsTimers(cfg: Config, s: State, e: nat)
    requires Invariant(cfg, s) && s.updater == Waits && InWaiting(s, e)
    ensures Sound(cfg, s.core) && e < |s.core.emergencies|
    ensures TickWorld(cfg, s.core, s.active).emergencies[e].urgency == s.core.emergencies[e].urgency
  {
    hide Invariant, Sound, Conserved, Settled, Apart, TickWorld;
    InvariantParts(cfg, s);
    WaitingTimers(cfg, s, e);
    ActiveApart(s);
    ActiveAt(s, InQueue, e);
    var b := TickWorldEmergencies(cfg, s.core, s.active, e);
  }

  lemma AgeUsesOne(cfg: Config, s: State, e: nat)
    requires Invariant(cfg, s) && s.updater == Ages && InWaiting(s, e)
    ensures e < |s.core.emergencies|
    ensures AgeAll(s.core.emergencies, QueueSpec.Order<nat>(s.queue))[e].urgency == Age(s.core.emergencies[e].urgency)
  {
    hide Invariant, Sound, Settled;
    InvariantParts(cfg, s);
    WaitingTimers(cfg, s, e);
    QueueDistinct(s);
    assert e in QueueSpec.Order<nat>(s.queue);
    AgeAllPoint(s.core.emergencies, QueueSpec.Order<nat>(s.queue), e);
  }

  lemma BoostIsDue(cfg: Config, s: State, e: nat)
    requires Invariant(cfg, s) && s.updater == Boosts(e)
    ensures e < |s.core.emergencies| && Due(s.core.emergencies[e].urgency) && !Expired(s.core.emergencies[e].urgency)
  {
    hide Invariant, Sound, Conserved;
    InvariantParts(cfg, s);
    assert At(s, AtUpdater, e);
    assert Suits(cfg, s, AtUpdater, s.core.emergencies[e]);
  }

  lemma PassesKeepTimers(cfg: Config, s: State, e: nat)
    requires Well(cfg, s) && e < |s.core.emergencies| && s.updater != Waits && s.updater != Ages
    ensures ValidTable(cfg.table) && |Upkeep(cfg, s).core.emergencies| == |s.core.emergencies|
    ensures var u, v := s.core.emergencies[e].urgency, Upkeep(cfg, s).core.emergencies[e].urgency;
            v == if s.updater == Boosts(e) then Promote(cfg.table, u) else u
  {
    hide Sound, ValidTable, Promote, Filed, QueueSpec.ExtractFirst;
    TableValid(cfg, s.core);
  }

  /** What the updater's step does to the timers of an emergency that waits on. */
  lemma UpkeepUrgency(cfg: Config, s: State, e: nat)
    requires Invariant(cfg, s) && InWaiting(s, e)
    ensures Well(cfg, s) && ValidTable(cfg.table) && e < |s.core.emergencies| == |Upkeep(cfg, s).core.emergencies|
    ensures var u, v := s.core.emergencies[e].urgency, Upkeep(cfg, s).core.emergencies[e].urgency;
            v == if s.updater == Ages then Age(u)
                 else if s.updater == Boosts(e) then Promote(cfg.table, u)
                 else u
  {
    hide Invariant, Sound, InWaiting, ValidTable, Promote, Age, AgeAll, TickWorld, Books, Shape;
    InvariantSound(cfg, s);
    TableValid(cfg, s.core);
    WaitingTimers(cfg, s, e);
    if s.updater == Waits {
      TickKeepsTimers(cfg, s, e);
    } else if s.updater == Ages {
      AgeUsesOne(cfg, s, e);
    } else {
      hide Upkeep;
      PassesKeepTimers(cfg, s, e);
    }
  }

  lemma UpkeepTimers(cfg: Config, s: State, e: nat)
    requires Invariant(cfg, s) && InWaiting(s, e) && Well(cfg, s)
    requires e < |s.core.emergencies| && TimersSound(cfg, s.core.emergencies[e])
    requires s.updater == Ages ==> Rested(s.core.emergencies[e].urgency)
    requires e < |Upkeep(cfg, s).core.emergencies| && TimersSound(cfg, Upkeep(cfg, s).core.emergencies[e])
    ensures TimeLeft(cfg.table, s.core.emergencies[e].urgency) ==
            Plus(if s.updater == Ages then 1 else 0, TimeLeft(cfg.table, Upkeep(cfg, s).core.emergencies[e].urgency))
  {
    hide Invariant, Sound, Upkeep, InWaiting, TimeLeft, ValidTable, Aged, Placed, Rested;
    var u := s.core.emergencies[e].urgency;
    UpkeepUrgency(cfg, s, e);
    DeadlinePlusZero(TimeLeft(cfg.table, u));
    if s.updater == Ages {
      AgeTimeLeft(cfg.table, u);
    } else if s.updater == Boosts(e) {
      BoostIsDue(cfg, s, e);
      PromoteTimeLeft(cfg.table, u);
    }
  }

  /** While an emergency waits, a step uses up exactly one update of its deadline if it is
      the step that ages the queue, and nothing otherwise; and no timer is counted down
      into the value that means it is off. */
  lemma WaitingStep(cfg: Config, s: State, turn: Turn, e: nat)
    requires Invariant(cfg, s) && InWaiting(s, e)
    ensures Well(cfg, s) && Invariant(cfg, Act(cfg, s, turn))
    ensures e < |s.core.emergencies| && TimersSound(cfg, s.core.emergencies[e])
    ensures var t := Act(cfg, s, turn);
            InWaiting(t, e) ==>
              && e < |t.core.emergencies| && TimersSound(cfg, t.core.emergencies[e])
              && TimeLeft(cfg.table, s.core.emergencies[e].urgency) ==
                 Plus(if AgesQueue(s, turn) then 1 else 0, TimeLeft(cfg.table, t.core.emergencies[e].urgency))
  {
    InvariantSound(cfg, s);
    ActKeepsInvariant(cfg, s, turn);
    WaitingTimers(cfg, s, e);
    hide Invariant, Sound, TimeLeft, Aged, Placed, ValidTable, Rested, Act, InWaiting, Books, Shape;
    var t := Act(cfg, s, turn);
    if InWaiting(t, e) {
      WaitingTimers(cfg, t, e);
      DeadlinePlusZero(TimeLeft(cfg.table, s.core.emergencies[e].urgency));
      if turn.Updater? {
        UpkeepTimers(cfg, s, e);
      } else {
        OthersKeepTimers(cfg, s, turn, e);
      }
    }
  }

  ghost predicate WaitsOn(cfg: Config, s: State, turns: seq<Turn>, e: nat)
    requires Invariant(cfg, s)
    decreases |turns|
  {
    InWaiting(After(cfg, s, turns), e) && (turns != [] ==> WaitsOn(cfg, s, turns[..|turns| - 1], e))
  }

  /** How often the run ages the queue: once per update. */
  ghost function Agings(cfg: Config, s: State, turns: seq<Turn>): nat
    requires Invariant(cfg, s)
    decreases |turns|
  {
    if turns == [] then 0
    else
      Agings(cfg, s, turns[..|turns| - 1])
      + if AgesQueue(After(cfg, s, turns[..|turns| - 1]), turns[|turns| - 1]) then 1 else 0
  }

  lemma PlusNothing(n: nat)
    ensures Plus(n, Some(0)) == Some(n)
  {
  }

  lemma PlusPlus(m: nat, n: nat, d: Option<nat>)
    ensures Plus(m, Plus(n, d)) == Plus(m + n, d)
  {
  }

  /** The deadline an emergency starts with is the updates it has waited and those it still can. */
  lemma {:induction false} WaitingIsCounted(cfg: Config, s: State, turns: seq<Turn>, e: nat)
    requires Invariant(cfg, s) && WaitsOn(cfg, s, turns, e)
    ensures InWaiting(s, e) && e < |s.core.emergencies| && TimersSound(cfg, s.core.emergencies[e])
    ensures var t := After(cfg, s, turns);
            && e < |t.core.emergencies| && TimersSound(cfg, t.core.emergencies[e])
            && TimeLeft(cfg.table, s.core.emergencies[e].urgency) ==
               Plus(Agings(cfg, s, turns), TimeLeft(cfg.table, t.core.emergencies[e].urgency))
    decreases |turns|
  {
    hide Invariant, TimersSound, InWaiting, TimeLeft, Act, Plus, AgesQueue, Well;
    if turns == [] {
      WaitingTimers(cfg, s, e);
      DeadlineNow(cfg, s, e);
    } else {
      var rest, last := turns[..|turns| - 1], turns[|turns| - 1];
      var b := After(cfg, s, rest);
      WaitingIsCounted(cfg, s, rest, e);
      WaitingStep(cfg, b, last, e);
      CountOn(cfg, s, b, After(cfg, s, turns), e, Agings(cfg, s, rest), if AgesQueue(b, last) then 1 else 0);
    }
  }

  lemma DeadlineNow(cfg: Config, s: State, e: nat)
    requires e < |s.core.emergencies| && TimersSound(cfg, s.core.emergencies[e])
    ensures TimeLeft(cfg.table, s.core.emergencies[e].urgency) ==
            Plus(0, TimeLeft(cfg.table, s.core.emergencies[e].urgency))
  {
    DeadlinePlusZero(TimeLeft(cfg.table, s.core.emergencies[e].urgency));
  }

  lemma CountOn(cfg: Config, s: State, b: State, t: State, e: nat, m: nat, n: nat)
    requires e < |s.core.emergencies| && TimersSound(cfg, s.core.emergencies[e])
    requires e < |b.core.emergencies| && TimersSound(cfg, b.core.emergencies[e])
    requires e < |t.core.emergencies| && TimersSound(cfg, t.core.emergencies[e])
    requires TimeLeft(cfg.table, s.core.emergencies[e].urgency) ==
             Plus(m, TimeLeft(cfg.table, b.core.emergencies[e].urgency))
    requires TimeLeft(cfg.table, b.core.emergencies[e].urgency) ==
             Plus(n, TimeLeft(cfg.table, t.core.emergencies[e].urgency))
    ensures TimeLeft(cfg.table, s.core.emergencies[e].urgency) ==
            Plus(m + n, TimeLeft(cfg.table, t.core.emergencies[e].urgency))
  {
    hide TimeLeft, ValidTable, Aged, Placed;
    PlusPlus(m, n, TimeLeft(cfg.table, t.core.emergencies[e].urgency));
  }

  /** Bounded waiting.  An emergency that enters the queue with fresh timers and is still
      waiting has been aged at most as often as its level's deadline says, and less often
      whenever the updater is between two updates. */
  lemma BoundedWaiting(cfg: Config, s: State, turns: seq<Turn>, e: nat, priority: int)
    requires Invariant(cfg, s) && WaitsOn(cfg, s, turns, e) && ValidTable(cfg.table)
    requires e < |s.core.emergencies| && s.core.emergencies[e].urgency == Fresh(cfg.table, priority)
    ensures Level(cfg.table, priority) < |cfg.table|
    ensures var d := Deadline(cfg.table, Level(cfg.table, priority));
            d.Some? ==> && Agings(cfg, s, turns) <= d.value
                        && (After(cfg, s, turns).updater == Waits ==> Agings(cfg, s, turns) < d.value)
  {
    hide Invariant, After, Agings, TimeLeft, Deadline, Level, Fresh, WaitsOn, ValidTable, InWaiting, TimersSound,
        Aged, Placed;
    WaitingIsCounted(cfg, s, turns, e);
    FreshTimeLeft(cfg.table, priority);
    AtEnd(cfg, s, turns, e);
    NotOver(cfg, After(cfg, s, turns), e);
  }

  /** Between two updates something is left of every deadline. */
  lemma NotOver(cfg: Config, s: State, e: nat)
    requires Invariant(cfg, s) && InWaiting(s, e)
    ensures e < |s.core.emergencies| && TimersSound(cfg, s.core.emergencies[e])
    ensures s.updater == Waits ==> TimeLeft(cfg.table, s.core.emergencies[e].urgency) != Some(0)
  {
    hide Invariant, InWaiting, TimeLeft, ValidTable, Placed;
    WaitingTimers(cfg, s, e);
    ExpiredWhenNothingLeft(cfg.table, s.core.emergencies[e].urgency);
  }

  lemma AtEnd(cfg: Config, s: State, turns: seq<Turn>, e: nat)
    requires Invariant(cfg, s) && WaitsOn(cfg, s, turns, e)
    ensures InWaiting(After(cfg, s, turns), e)
  {
  }

  // ---------------------------------------------------------------- exact waiting

  ghost predicate HeldByNobody(s: State, e: nat) {
    forall w :: 0 <= w < |s.workers| ==> Held(s.workers[w]) != Some(e)
  }

  /** No worker takes the emergency during the run. */
  ghost predicate Untaken(cfg: Config, s: State, turns: seq<Turn>, e: nat)
    requires Invariant(cfg, s)
    decreases |turns|
  {
    HeldByNobody(After(cfg, s, turns), e) && (turns != [] ==> Untaken(cfg, s, turns[..|turns| - 1], e))
  }

  lemma OnlyWaiting(s: State, e: nat, p: Place)
    requires Conserved(s) && InWaiting(s, e) && At(s, p, e)
    ensures p == InQueue || p == AtUpdater
  {
    hide Conserved, At;
    Exclusive(s, if At(s, InQueue, e) then InQueue else AtUpdater, p, e);
  }

  /** A worker files away only what it holds. */
  lemma WorkMovesOthersNowhere(cfg: Config, s: State, w: nat, e: nat, p: Place)
    requires Invariant(cfg, s) && Well(cfg, s) && w < |s.workers| && InWaiting(s, e) && At(Work(cfg, s, w), p, e)
    requires p == AtReceiver || p == InCompleted || p == InCanceled
    ensures At(s, p, e)
  {
    hide Invariant, Sound, Settled, Conserved, OwnStep, WorkOn, InWaiting;
    InvariantParts(cfg, s);
    if Held(s.workers[w]).Some? {
      if s.workers[w].e == e {
        OnlyWaiting(s, e, AtWorker(w));
      }
      WorkOnOwnStep(cfg, s, w);
      if Work(cfg, s, w) != s {
        OwnStepElsewhere(cfg, s, Work(cfg, s, w), w, s.workers[w].e, p, e);
      }
    }
  }

  /** The receiver takes up only what is new. */
  lemma ReceiveMovesOthersNowhere(cfg: Config, s: State, etype: nat, x: int, y: int, e: nat, p: Place)
    requires Well(cfg, s) && e < |s.core.emergencies| && At(Receive(cfg, s, etype, x, y), p, e)
    requires p == AtReceiver || p == InCompleted || p == InCanceled
    ensures At(s, p, e)
  {
    hide Sound, NewEmergency, Filed;
  }

  /** And the updater cancels only what it has in its hand. */
  lemma UpkeepMovesOthersNowhere(cfg: Config, s: State, e: nat, p: Place)
    requires Well(cfg, s) && At(Upkeep(cfg, s), p, e)
    requires p == AtReceiver || p == InCompleted || p == InCanceled
    ensures At(s, p, e) || (s.updater == Cancels(e) && p == InCanceled)
  {
    hide Sound, ValidTable, QueueSpec.ExtractFirst, Promote, AgeAll, TickWorld, Filed;
    TableValid(cfg, s.core);
    if s.updater.Cancels? && s.updater.e < |s.core.emergencies| {
      EntriesPush(cfg, s.core, s.canceled, s.updater.e, e);
    }
  }

  /** An emergency that waits goes on waiting, unless a worker takes it or the updater cancels it. */
  lemma WaitingGoesOn(cfg: Config, s: State, turn: Turn, e: nat)
    requires Invariant(cfg, s) && InWaiting(s, e)
    ensures Well(cfg, s)
    ensures var t := Act(cfg, s, turn);
            HeldByNobody(t, e) ==>
              InWaiting(t, e) || (At(t, InCanceled, e) && turn.Updater? && s.updater == Cancels(e))
  {
    hide Invariant, Sound, Settled, Conserved, Receive, Work, Upkeep;
    InvariantParts(cfg, s);
    ActKeepsInvariant(cfg, s, turn);
    var t := Act(cfg, s, turn);
    InvariantParts(cfg, t);
    WaitingTimers(cfg, s, e);
    EmergencyStep(cfg, s, turn, e);
    var p := Somewhere(t, e);
    if p == AtReceiver || p == InCompleted || p == InCanceled {
      match turn {
        case Receiver(etype, x, y) => ReceiveMovesOthersNowhere(cfg, s, etype, x, y, e, p);
        case Worker(w) =>
          if w < |s.workers| {
            WorkMovesOthersNowhere(cfg, s, w, e, p);
          }
        case Updater => UpkeepMovesOthersNowhere(cfg, s, e, p);
      }
      if At(s, p, e) {
        OnlyWaiting(s, e, p);
      }
    }
  }

  lemma WorkKeepsCanceled(cfg: Config, s: State, w: nat, e: nat)
    requires Invariant(cfg, s) && Well(cfg, s) && w < |s.workers| && At(s, InCanceled, e)
    ensures At(Work(cfg, s, w), InCanceled, e)
  {
    hide Invariant, Sound, Settled, Conserved, WorkOn, Filed, WorkerSuits, Suits, Spared;
    InvariantParts(cfg, s);
    if Held(s.workers[w]).Some? {
      SettledWorker(cfg, s, w);
      WorkOnOwnStep(cfg, s, w);
      TableValid(cfg, s.core);
      EntriesPush(cfg, s.core, s.canceled, s.workers[w].e, e);
    }
  }

  lemma UpkeepKeepsCanceled(cfg: Config, s: State, e: nat)
    requires Well(cfg, s) && At(s, InCanceled, e)
    ensures At(Upkeep(cfg, s), InCanceled, e)
  {
    hide Sound, ValidTable, QueueSpec.ExtractFirst, Promote, AgeAll, TickWorld, Filed;
    TableValid(cfg, s.core);
    if s.updater.Cancels? && s.updater.e < |s.core.emergencies| {
      EntriesPush(cfg, s.core, s.canceled, s.updater.e, e);
    }
  }

  /** Nothing leaves the cancelled queue. */
  lemma CanceledStays(cfg: Config, s: State, turn: Turn, e: nat)
    requires Invariant(cfg, s) && At(s, InCanceled, e)
    ensures Well(cfg, s) && At(Act(cfg, s, turn), InCanceled, e)
  {
    hide Invariant, Sound, NewEmergency, Filed, Work, Upkeep;
    InvariantSound(cfg, s);
    match turn
    case Receiver(etype, x, y) =>
    case Worker(w) =>
      if w < |s.workers| {
        WorkKeepsCanceled(cfg, s, w, e);
      }
    case Updater => UpkeepKeepsCanceled(cfg, s, e);
  }

  /** When the updater cancels an emergency, nothing is left of its deadline. */
  lemma CanceledInTime(cfg: Config, s: State, e: nat)
    requires Invariant(cfg, s) && s.updater == Cancels(e)
    ensures e < |s.core.emergencies| && TimersSound(cfg, s.core.emergencies[e])
    ensures TimeLeft(cfg.table, s.core.emergencies[e].urgency) == Some(0)
  {
    hide Invariant, Sound, Conserved, TimeLeft, ValidTable, Placed;
    InvariantParts(cfg, s);
    assert At(s, AtUpdater, e);
    assert Suits(cfg, s, AtUpdater, s.core.emergencies[e]);
    WaitingTimers(cfg, s, e);
    ExpiredWhenNothingLeft(cfg.table, s.core.emergencies[e].urgency);
  }

  /** Cancelled, after as many updates as its deadline at the start of the run said, or more. */
  ghost predicate Overdue(cfg: Config, s: State, turns: seq<Turn>, e: nat)
    requires Invariant(cfg, s) && e < |s.core.emergencies| && TimersSound(cfg, s.core.emergencies[e])
  {
    && At(After(cfg, s, turns), InCanceled, e)
    && TimeLeft(cfg.table, s.core.emergencies[e].urgency).Some?
    && TimeLeft(cfg.table, s.core.emergencies[e].urgency).value <= Agings(cfg, s, turns)
  }

  lemma {:induction false} WaitsOrOverdue(cfg: Config, s: State, turns: seq<Turn>, e: nat)
    requires Invariant(cfg, s) && InWaiting(s, e) && Untaken(cfg, s, turns, e)
    ensures e < |s.core.emergencies| && TimersSound(cfg, s.core.emergencies[e])
    ensures WaitsOn(cfg, s, turns, e) || Overdue(cfg, s, turns, e)
    decreases |turns|
  {
    hide Invariant, TimersSound, InWaiting, TimeLeft, Act, HeldByNobody, At, Plus;
    WaitingTimers(cfg, s, e);
    if turns == [] {
    } else {
      var rest, last := turns[..|turns| - 1], turns[|turns| - 1];
      var b := After(cfg, s, rest);
      WaitsOrOverdue(cfg, s, rest, e);
      if WaitsOn(cfg, s, rest, e) {
        WaitingGoesOn(cfg, b, last, e);
        if !InWaiting(After(cfg, s, turns), e) {
          WaitingIsCounted(cfg, s, rest, e);
          CanceledInTime(cfg, b, e);
          PlusNothing(Agings(cfg, s, rest));
        }
      } else {
        CanceledStays(cfg, b, last, e);
      }
    }
  }

  /** Exact waiting.  An emergency that is queued with fresh timers and that no worker takes
      is, whenever the updater is between two updates, still in the queue if and only if it
      has been aged less often than its level's deadline says; and if it is not in the queue,
      it has been cancelled. */
  lemma WaitsExactlyAlongRun(cfg: Config, s: State, turns: seq<Turn>, e: nat, priority: int)
    requires Invariant(cfg, s) && At(s, InQueue, e) && Untaken(cfg, s, turns, e) && ValidTable(cfg.table)
    requires e < |s.core.emergencies| && s.core.emergencies[e].urgency == Fresh(cfg.table, priority)
    ensures Level(cfg.table, priority) < |cfg.table|
    ensures var t, d := After(cfg, s, turns), Deadline(cfg.table, Level(cfg.table, priority));
            && (InWaiting(t, e) || At(t, InCanceled, e))
            && (t.updater == Waits ==> (At(t, InQueue, e) <==> d.None? || Agings(cfg, s, turns) < d.value))
  {
    hide Invariant, Untaken, Agings, TimeLeft, Deadline, Level, Fresh, WaitsOn, ValidTable, TimersSound, After;
    WaitsOrOverdue(cfg, s, turns, e);
    FreshTimeLeft(cfg.table, priority);
    if WaitsOn(cfg, s, turns, e) {
      BoundedWaiting(cfg, s, turns, e, priority);
      AtEnd(cfg, s, turns, e);
    } else {
      CanceledOnly(cfg, After(cfg, s, turns), e);
    }
  }

  lemma CanceledOnly(cfg: Config, s: State, e: nat)
    requires Invariant(cfg, s) && At(s, InCanceled, e)
    ensures !At(s, InQueue, e)
  {
    hide Invariant, Sound, Settled, Conserved, At;
    InvariantParts(cfg, s);
    if At(s, InQueue, e) {
      Exclusive(s, InQueue, InCanceled, e);
    }
  }

  lemma DeliveredFresh(cfg: Config, s: State, e: nat, etype: nat, x: int, y: int)
    requires Invariant(cfg, s) && s.receiver == Some(e)
    ensures Well(cfg, s) && Invariant(cfg, Act(cfg, s, Receiver(etype, x, y)))
    ensures var t := Act(cfg, s, Receiver(etype, x, y));
            && e < |t.core.emergencies| && JustAccepted(cfg, t.core.emergencies[e]) && At(t, InQueue, e)
            && t.core.emergencies[e] == s.core.emergencies[e]
  {
    ActKeepsInvariant(cfg, s, Receiver(etype, x, y));
    InvariantParts(cfg, s);
    hide Invariant, Sound, Conserved, Fresh, ValidTable;
    assert At(s, AtReceiver, e);
    assert Suits(cfg, s, AtReceiver, s.core.emergencies[e]);
    TableNotEmpty(cfg.table);
    EntriesPush(cfg, s.core, s.queue, e, e);
  }

  lemma OneTurnOn(cfg: Config, s: State, before: seq<Turn>, turn: Turn)
    requires Initial(cfg, s)
    ensures Well(cfg, Reached(cfg, s, before))
    ensures Reached(cfg, s, before + [turn]) == Act(cfg, Reached(cfg, s, before), turn)
  {
    hide Invariant, Act, Initial;
    InitialInvariant(cfg, s);
    InvariantSound(cfg, Reached(cfg, s, before));
    var turns := before + [turn];
    assert turns[..|turns| - 1] == before;
  }

  /** Bounded waiting from acceptance.  In a run from the server's start, an emergency the
      receiver has accepted is delivered with the timers of its type's priority; from then
      on, while it waits, it is aged at most as often as that priority's deadline says. */
  lemma AcceptedWaitsBounded(cfg: Config, s: State, before: seq<Turn>, deliver: Turn, turns: seq<Turn>, e: nat)
    requires Initial(cfg, s) && Reached(cfg, s, before).receiver == Some(e) && deliver.Receiver?
    requires WaitsOn(cfg, Reached(cfg, s, before + [deliver]), turns, e)
    ensures ValidTable(cfg.table) && e < |Reached(cfg, s, before).core.emergencies|
    ensures Reached(cfg, s, before).core.emergencies[e].etype < |cfg.types|
    ensures
      var t := Reached(cfg, s, before + [deliver]);
      var l := Level(cfg.table, cfg.types[Reached(cfg, s, before).core.emergencies[e].etype].priority);
      && l < |cfg.table|
      && (Deadline(cfg.table, l).Some? ==>
            && Agings(cfg, t, turns) <= Deadline(cfg.table, l).value
            && (After(cfg, t, turns).updater == Waits ==> Agings(cfg, t, turns) < Deadline(cfg.table, l).value))
  {
    hide Invariant, Reached, Act, After, WaitsOn, Agings, Fresh, Deadline, Level, ValidTable, Initial;
    var t := Reached(cfg, s, before);
    OneTurnOn(cfg, s, before, deliver);
    DeliveredFresh(cfg, t, e, deliver.etype, deliver.x, deliver.y);
    StillKnown(cfg, t, e);
    BoundedWaiting(cfg, Reached(cfg, s, before + [deliver]), turns, e, cfg.types[t.core.emergencies[e].etype].priority);
  }

  lemma StillKnown(cfg: Config, s: State, e: nat)
    requires Invariant(cfg, s) && s.receiver == Some(e)
    ensures e < |s.core.emergencies|
  {
    InvariantParts(cfg, s);
    hide Invariant, Sound, Settled;
    Exclusive(s, AtReceiver, AtReceiver, e);
  }

  /** With the shipped table, that is 120, 60 or 30 times. */
  lemma ShippedWaitsBounded(cfg: Config, s: State, before: seq<Turn>, deliver: Turn, turns: seq<Turn>, e: nat,
                            priority: nat)
    requires cfg.table == SHIPPED && priority < 3
    requires Initial(cfg, s) && Reached(cfg, s, before).receiver == Some(e) && deliver.Receiver?
    requires WaitsOn(cfg, Reached(cfg, s, before + [deliver]), turns, e)
    requires e < |Reached(cfg, s, before).core.emergencies|
    requires var f := Reached(cfg, s, before).core.emergencies[e].etype;
             f < |cfg.types| && cfg.types[f].priority == priority
    ensures Agings(cfg, Reached(cfg, s, before + [deliver]), turns) <=
            if priority == 0 then 120 else if priority == 1 then 60 else 30
  {
    hide Invariant, Reached, Act, After, WaitsOn, Agings, Fresh, Deadline, Level, ValidTable, Initial;
    AcceptedWaitsBounded(cfg, s, before, deliver, turns, e);
    ShippedDeadline(priority);
  }

  /** An active emergency is not protected: while it is paused its timeout timer counts
      down whether it is on or off, so it passes through the value that means off. */
  lemma {:induction false} PausedTimerPassesOff(cfg: Config, em: Emergency, n: nat)
    requires ValidTable(cfg.table) && em.status == Paused && em.urgency.promotion == NO_PROMOTION
    ensures TicksOf(cfg, em, n) == em.(urgency := em.urgency.(timeout := em.urgency.timeout - n))
    ensures TicksOf(cfg, em, n).urgency.timeout == NO_TIMEOUT <==> n == em.urgency.timeout - NO_TIMEOUT
    decreases n
  {
    hide ValidTable;
    if n == 0 {
    } else {
      PausedTimerPassesOff(cfg, em, n - 1);
    }
  }

  function TicksOf(cfg: Config, em: Emergency, n: nat): Emergency
    requires ValidTable(cfg.table)
  {
    if n == 0 then em else TickEmergency(cfg, TicksOf(cfg, em, n - 1))
  }

  // ---------------------------------------------------------------- sorties

  /** How often the run moves the world. */
  ghost function Moves(cfg: Config, s: State, turns: seq<Turn>): nat
    requires Invariant(cfg, s)
    decreases |turns|
  {
    if turns == [] then 0
    else
      Moves(cfg, s, turns[..|turns| - 1])
      + if MovesWorld(After(cfg, s, turns[..|turns| - 1]), turns[|turns| - 1]) then 1 else 0
  }

  /** No search of the run sends the twin anywhere. */
  ghost predicate Undisturbed(cfg: Config, s: State, turns: seq<Turn>, i: nat)
    requires Invariant(cfg, s) && i < |s.core.twins|
    decreases |turns|
  {
    turns != [] ==>
      var b := After(cfg, s, turns[..|turns| - 1]);
      && Undisturbed(cfg, s, turns[..|turns| - 1], i)
      && i < |b.core.twins| == |After(cfg, s, turns).core.twins|
      && (!MovesWorld(b, turns[|turns| - 1]) ==> After(cfg, s, turns).core.twins[i] == b.core.twins[i])
  }

  lemma {:induction false} MovesAlone(cfg: Config, s: State, turns: seq<Turn>, i: nat)
    requires Invariant(cfg, s) && i < |s.core.twins| && Undisturbed(cfg, s, turns, i)
    requires s.core.twins[i].rtype < |cfg.rescuers|
    ensures i < |After(cfg, s, turns).core.twins|
    ensures After(cfg, s, turns).core.twins[i] ==
            Sortie.Ticks(cfg.rescuers[s.core.twins[i].rtype], s.core.twins[i], Moves(cfg, s, turns))
    decreases |turns|
  {
    hide Invariant, Sortie.Ticks, After, Moves, Undisturbed, TickAlone;
    if turns == [] {
      NoTick(cfg.rescuers[s.core.twins[i].rtype], s.core.twins[i]);
      NoTurn(cfg, s);
    } else {
      LastTurn(cfg, s, turns, i);
      MovesAlone(cfg, s, turns[..|turns| - 1], i);
      var r, t, n := cfg.rescuers[s.core.twins[i].rtype], s.core.twins[i], Moves(cfg, s, turns[..|turns| - 1]);
      OneMoreTick(r, t, n);
      TicksKeepType(r, t, n);
    }
  }

  lemma NoTurn(cfg: Config, s: State)
    requires Invariant(cfg, s)
    ensures After(cfg, s, []) == s && Moves(cfg, s, []) == 0
  {
    hide Invariant;
  }

  /** The last turn of a run that leaves the twin alone: it moves with the world, or not at all. */
  lemma LastTurn(cfg: Config, s: State, turns: seq<Turn>, i: nat)
    requires Invariant(cfg, s) && i < |s.core.twins| && turns != [] && Undisturbed(cfg, s, turns, i)
    ensures var rest := turns[..|turns| - 1];
            var b, t := After(cfg, s, rest), After(cfg, s, turns);
            && Undisturbed(cfg, s, rest, i)
            && i < |b.core.twins| == |t.core.twins| && b.core.twins[i].rtype < |cfg.rescuers|
            && (if Moves(cfg, s, turns) == Moves(cfg, s, rest)
                then t.core.twins[i] == b.core.twins[i]
                else Moves(cfg, s, turns) == Moves(cfg, s, rest) + 1
                     && t.core.twins[i] == TickAlone(cfg.rescuers[b.core.twins[i].rtype], b.core.twins[i]))
  {
    hide Invariant, Act, TickAlone;
    var b := After(cfg, s, turns[..|turns| - 1]);
    KnownType(cfg, b, i);
    if MovesWorld(b, turns[|turns| - 1]) {
      MovedTwin(cfg, b, turns[|turns| - 1], i);
    }
  }

  lemma KnownType(cfg: Config, s: State, i: nat)
    requires Invariant(cfg, s) && i < |s.core.twins|
    ensures s.core.twins[i].rtype < |cfg.rescuers|
  {
    hide Sound, Invariant, Books, Shape;
    InvariantSound(cfg, s);
    TwinHasType(cfg, s.core, i);
  }

  lemma NoTick(r: RescuerType, t: Twin)
    ensures Sortie.Ticks(r, t, 0) == t
  {
  }

  lemma MovedTwin(cfg: Config, s: State, turn: Turn, i: nat)
    requires Invariant(cfg, s) && i < |s.core.twins| && MovesWorld(s, turn)
    ensures Well(cfg, s) && |Act(cfg, s, turn).core.twins| == |s.core.twins| && s.core.twins[i].rtype < |cfg.rescuers|
    ensures Act(cfg, s, turn).core.twins[i] == TickAlone(cfg.rescuers[s.core.twins[i].rtype], s.core.twins[i])
  {
    hide Invariant, Act, TickAlone, Books, Sound, Shape;
    InvariantSound(cfg, s);
    TwinStep(cfg, s, turn, i);
  }

  lemma OneMoreTick(r: RescuerType, t: Twin, n: nat)
    ensures Sortie.Ticks(r, t, n + 1) == TickAlone(r, Sortie.Ticks(r, t, n))
  {
    hide TickAlone;
    Sortie.TicksAdd(r, t, n, 1);
    assert Sortie.Ticks(r, Sortie.Ticks(r, t, n), 1) == TickAlone(r, Sortie.Ticks(r, t, n));
  }

  lemma {:induction false} TicksKeepType(r: RescuerType, t: Twin, n: nat)
    ensures Sortie.Ticks(r, t, n).rtype == t.rtype
    decreases n
  {
    hide TickAlone;
    if n == 0 {
    } else {
      Ledger.TickAloneFacts(r, t);
      TicksKeepType(r, TickAlone(r, t), n - 1);
    }
  }

  /** Where a twin sent s cells away for m updates is after n moves of the world: the exact
      length of a sortie, in any run that does not re-route the twin. */
  lemma SortieAlongRun(cfg: Config, s: State, turns: seq<Turn>, i: nat)
    requires Invariant(cfg, s) && i < |s.core.twins| && Undisturbed(cfg, s, turns, i)
    requires s.core.twins[i].status == EnRoute
    ensures i < |After(cfg, s, turns).core.twins| && s.core.twins[i].rtype < |cfg.rescuers|
    ensures cfg.rescuers[s.core.twins[i].rtype].speed >= 1
    ensures
      var t, u, n := s.core.twins[i], After(cfg, s, turns).core.twins[i], Moves(cfg, s, turns);
      var r := cfg.rescuers[t.rtype];
      var arrives := Sortie.Arrival(Sortie.Left(t), r.speed);
      var leaves := arrives + t.timeToManage;
      var home := leaves + Sortie.Arrival(Manhattan(t.course.xt, t.course.yt, r.x, r.y), r.speed) - 1;
      && (u.status == EnRoute <==> n < arrives)
      && (u.status == OnScene <==> arrives <= n < leaves)
      && (u.status == Returning <==> leaves <= n < home)
      && (u.status == Idle <==> home <= n)
      && (u.status == OnScene ==> u.x == t.course.xt && u.y == t.course.yt)
      && (u.status == Idle ==> u.x == r.x && u.y == r.y)
  {
    hide Invariant, Sound, Books, Shape, After, Undisturbed, Moves, Sortie.Positioned, Sortie.Arrival;
    InvariantSound(cfg, s);
    TwinHasType(cfg, s.core, i);
    ValidRescuers(cfg, s.core.twins[i].rtype) by { SoundParts(cfg, s.core); }
    TimePositive(cfg, s.core, i);
    MovesAlone(cfg, s, turns, i);
    Sortie.SortieLength(cfg, cfg.rescuers[s.core.twins[i].rtype], s.core.twins[i], Moves(cfg, s, turns));
  }

  lemma TimePositive(cfg: Config, c: Core, i: nat)
    requires Sound(cfg, c) && i < |c.twins| && OnDuty(c.twins[i])
    ensures c.twins[i].timeToManage >= 1
  {
    hide Sound, Books, ValidConfig;
    SoundParts(cfg, c);
    TwinPage(cfg, c, i);
    Ledger.TimesPositive(cfg, c.emergencies[c.twins[i].emergency.value], c.twins[i].rtype);
  }

  lemma SpeedKnown(q: Quest, i: nat)
    requires Sensible(q) && i < |q.core.twins|
    ensures q.core.twins[i].rtype < |q.cfg.rescuers| && q.cfg.rescuers[q.core.twins[i].rtype].speed >= 1
  {
    assert ShapeTwin(q.cfg, q.core, q.core.twins[i]);
  }

  /** What the search's time test amounts to: a twin it lets through is on scene at most one
      update after the timeout, and a twin that would be on scene by the timeout is let through. */
  lemma ChosenArriveInTime(q: Quest, i: nat)
    requires Sensible(q) && i < |q.core.twins| && Self(q).urgency.timeout != NO_TIMEOUT
    ensures q.core.twins[i].rtype < |q.cfg.rescuers| && q.cfg.rescuers[q.core.twins[i].rtype].speed >= 1
    ensures var t := q.core.twins[i];
            var arrives := Sortie.Arrival(Manhattan(Self(q).x, Self(q).y, t.x, t.y), q.cfg.rescuers[t.rtype].speed);
            && (Eligible(q, i, {}) ==> arrives <= Self(q).urgency.timeout + 1)
            && (arrives <= Self(q).urgency.timeout ==>
                  (Eligible(q, i, {}) <==> Available(q, i) && q.core.twins[i].emergency != Some(q.e)))
  {
    hide Available, Sortie.Arrival, Shape;
    SpeedKnown(q, i);
    var t := q.core.twins[i];
    Sortie.EstimateOffByOne(Manhattan(Self(q).x, Self(q).y, t.x, t.y), q.cfg.rescuers[t.rtype].speed);
  }

  // ---------------------------------------------------------------- the passes miss nobody

  lemma QueuedIsPatient(cfg: Config, s: State, e: nat)
    requires Settled(cfg, s) && At(s, InQueue, e)
    ensures e < |s.core.emergencies| && Patient(s.updater, s.core.emergencies[e].urgency)
  {
    assert Suits(cfg, s, InQueue, s.core.emergencies[e]);
  }

  /** Whatever workers and receiver do to the queue during the updater's passes: after the
      expiry pass nobody who waits has expired, and after both nobody is due either. */
  lemma PassesMissNobody(cfg: Config, s: State, turns: seq<Turn>, e: nat)
    requires Initial(cfg, s) && At(Reached(cfg, s, turns), InQueue, e)
    ensures
      var t := Reached(cfg, s, turns);
      && e < |t.core.emergencies|
      && (t.updater == Promotes || t.updater.Boosts? ==> !Expired(t.core.emergencies[e].urgency))
      && (t.updater == Waits ==> !Expired(t.core.emergencies[e].urgency) && !Due(t.core.emergencies[e].urgency))
  {
    hide Invariant, Reached, Sound, Settled, Conserved, Initial, At, AtHome;
    var t := Reached(cfg, s, turns);
    InvariantParts(cfg, t);
    QueuedIsPatient(cfg, t, e);
  }

  // ---------------------------------------------------------------- where a twin stands

  /** Inside the map; idle on its base, homeward when returning, on its target when on scene;
      and off its target, with exactly the error of the line it follows. */
  predicate InPosition(cfg: Config, t: Twin) {
    && t.rtype < |cfg.rescuers| && InMap(cfg, t.x, t.y) && InMap(cfg, t.course.xt, t.course.yt)
    && var r := cfg.rescuers[t.rtype];
       && (t.status == Idle ==> t.x == r.x && t.y == r.y)
       && (t.status == Returning ==> t.course.xt == r.x && t.course.yt == r.y)
       && (t.status == OnScene ==> t.x == t.course.xt && t.y == t.course.yt)
       && (t.x != t.course.xt || t.y != t.course.yt ==>
             t.course.err == ErrAt(t.course.dx, t.course.dy, Abs(t.course.xt - t.x), Abs(t.course.yt - t.y)))
  }

  lemma LocatedInPosition(cfg: Config, t: Twin)
    requires TwinLocated(cfg, t)
    ensures InPosition(cfg, t)
  {
    hide ErrAt;
  }

  /** The position invariant, in every reachable state: in particular nobody is off the map. */
  lemma PositionInvariant(cfg: Config, s: State, turns: seq<Turn>, i: nat)
    requires Initial(cfg, s) && i < |Reached(cfg, s, turns).core.twins|
    ensures InPosition(cfg, Reached(cfg, s, turns).core.twins[i])
  {
    hide Invariant, Sound, Books, Shape, Reached, InPosition, Sortie.Positioned, Initial;
    InvariantSound(cfg, Reached(cfg, s, turns));
    TwinHasType(cfg, Reached(cfg, s, turns).core, i);
    LocatedInPosition(cfg, Reached(cfg, s, turns).core.twins[i]);
  }

  /** The twin heads for, or stands on, the cell of the emergency it works for. */
  predicate Aimed(c: Core, i: nat)
    requires i < |c.twins|
  {
    var t := c.twins[i];
    OnDuty(t) ==>
      && t.emergency.Some? && t.emergency.value < |c.emergencies|
      && var em := c.emergencies[t.emergency.value]; t.course.xt == em.x && t.course.yt == em.y
  }

  /** The twin stands on a cell its course only passes through. */
  predicate Passing(t: Twin, x: int, y: int) {
    t.x == x && t.y == y && !Sortie.AtTarget(t)
  }

  /** A newly sent twin heads for its scene exactly when it is not just passing through that
      very cell: then its old course stays, and it goes elsewhere first. */
  lemma SentIsAimedUnlessPassing(cfg: Config, c: Core, d: Core, e: nat, i: nat)
    requires Assignable(cfg, c, e, i) && |d.twins| == |c.twins| && d.twins[i] == Sent(cfg, c, e, i)
    requires e < |d.emergencies| && d.emergencies[e].x == c.emergencies[e].x && d.emergencies[e].y == c.emergencies[e].y
    ensures Aimed(d, i) <==> !Passing(c.twins[i], c.emergencies[e].x, c.emergencies[e].y)
  {
    hide RequestOf;
  }

  lemma TickKeepsAim(r: RescuerType, t: Twin)
    requires OnDuty(TickAlone(r, t))
    ensures TickAlone(r, t).course.xt == t.course.xt && TickAlone(r, t).course.yt == t.course.yt
    ensures OnDuty(t) && TickAlone(r, t).emergency == t.emergency
  {
    hide Step;
  }

  /** The step is a search that sends the twin somewhere. */
  ghost predicate Sends(cfg: Config, s: State, turn: Turn, i: nat)
    requires Well(cfg, s)
  {
    !MovesWorld(s, turn) && i < |s.core.twins| == |Act(cfg, s, turn).core.twins|
    && Act(cfg, s, turn).core.twins[i] != s.core.twins[i]
  }

  /** And to the very cell it is just passing through. */
  ghost predicate Diverts(cfg: Config, s: State, turn: Turn, i: nat)
    requires Well(cfg, s)
  {
    && Sends(cfg, s, turn, i)
    && Searcher(s, turn).Some? && Searcher(s, turn).value < |s.core.emergencies|
    && var em := s.core.emergencies[Searcher(s, turn).value]; Passing(s.core.twins[i], em.x, em.y)
  }

  /** A dispatch decides where its twin heads for; any other step leaves that as it is. */
  lemma AimStep(cfg: Config, s: State, turn: Turn, i: nat)
    requires Invariant(cfg, s) && Well(cfg, s) && i < |s.core.twins|
    ensures i < |Act(cfg, s, turn).core.twins|
    ensures OnDuty(Act(cfg, s, turn).core.twins[i]) ==>
              if Sends(cfg, s, turn, i) then Aimed(Act(cfg, s, turn).core, i) <==> !Diverts(cfg, s, turn, i)
              else OnDuty(s.core.twins[i]) && (Aimed(Act(cfg, s, turn).core, i) <==> Aimed(s.core, i))
  {
    hide Invariant, Well, Act, TickAlone, SentBy, Diverts, Evolves, TwinLevel;
    var t := Act(cfg, s, turn);
    TwinStep(cfg, s, turn, i);
    if OnDuty(t.core.twins[i]) {
      if Sends(cfg, s, turn, i) {
        SentAimed(cfg, s, turn, i);
      } else {
        if MovesWorld(s, turn) {
          TickKeepsAim(cfg.rescuers[s.core.twins[i].rtype], s.core.twins[i]);
        }
        TwinLevelIs(cfg, s, i);
        SameCell(cfg, s, turn, s.core.twins[i].emergency.value);
      }
    }
  }

  lemma SameCell(cfg: Config, s: State, turn: Turn, e: nat)
    requires Invariant(cfg, s) && Well(cfg, s) && e < |s.core.emergencies|
    ensures e < |Act(cfg, s, turn).core.emergencies|
    ensures var a, b := s.core.emergencies[e], Act(cfg, s, turn).core.emergencies[e]; b.x == a.x && b.y == a.y
  {
    hide Invariant, Well, Act;
    EmergencyStep(cfg, s, turn, e);
  }

  lemma SentAimed(cfg: Config, s: State, turn: Turn, i: nat)
    requires Invariant(cfg, s) && Well(cfg, s) && Sends(cfg, s, turn, i)
    requires SentBy(cfg, s, turn, i, Act(cfg, s, turn).core.twins[i])
    ensures Aimed(Act(cfg, s, turn).core, i) <==> !Diverts(cfg, s, turn, i)
  {
    hide Invariant, Well, Act, Sent;
    var e := Searcher(s, turn).value;
    SameCell(cfg, s, turn, e);
    SentIsAimedUnlessPassing(cfg, s.core, Act(cfg, s, turn).core, e, i);
  }

  /** The twin's last dispatch, if the run has one, did not divert it. */
  ghost predicate WellSent(cfg: Config, s: State, turns: seq<Turn>, i: nat)
    requires Invariant(cfg, s)
    decreases |turns|
  {
    turns != [] ==>
      var b, last := After(cfg, s, turns[..|turns| - 1]), turns[|turns| - 1];
      && Well(cfg, b)
      && (if Sends(cfg, b, last, i) then !Diverts(cfg, b, last, i) else WellSent(cfg, s, turns[..|turns| - 1], i))
  }

  lemma {:induction false} AimedIfWellSent(cfg: Config, s: State, turns: seq<Turn>, i: nat)
    requires Invariant(cfg, s) && i < |s.core.twins| && Aimed(s.core, i)
    ensures i < |After(cfg, s, turns).core.twins|
    ensures OnDuty(After(cfg, s, turns).core.twins[i]) ==>
              (Aimed(After(cfg, s, turns).core, i) <==> WellSent(cfg, s, turns, i))
    decreases |turns|
  {
    hide Invariant, Act, Aimed, Diverts, Sends, Sound;
    if turns == [] {
    } else {
      var b := After(cfg, s, turns[..|turns| - 1]);
      InvariantSound(cfg, b);
      AimedIfWellSent(cfg, s, turns[..|turns| - 1], i);
      AimStep(cfg, b, turns[|turns| - 1], i);
    }
  }

  /** So a twin on scene stands on the cell of the emergency it works for if and only if its
      own last dispatch did not divert it, whatever happened to any other twin. */
  lemma OnSceneMeansThere(cfg: Config, s: State, turns: seq<Turn>, i: nat)
    requires Initial(cfg, s) && i < |s.core.twins|
    ensures Invariant(cfg, s) && i < |Reached(cfg, s, turns).core.twins|
    ensures
      var c := Reached(cfg, s, turns).core;
      var t := c.twins[i];
      t.status == OnScene ==>
        && t.emergency.Some? && t.emergency.value < |c.emergencies|
        && (t.x == c.emergencies[t.emergency.value].x && t.y == c.emergencies[t.emergency.value].y <==>
            WellSent(cfg, s, turns, i))
  {
    InitialInvariant(cfg, s);
    assert Aimed(s.core, i);
    hide Invariant, Initial, WellSent, InPosition, After, TwinLevel;
    AimedIfWellSent(cfg, s, turns, i);
    StandsOnTarget(cfg, s, turns, i);
    if OnDuty(Reached(cfg, s, turns).core.twins[i]) {
      TwinLevelIs(cfg, Reached(cfg, s, turns), i);
    }
  }

  lemma StandsOnTarget(cfg: Config, s: State, turns: seq<Turn>, i: nat)
    requires Initial(cfg, s) && i < |Reached(cfg, s, turns).core.twins|
    ensures var t := Reached(cfg, s, turns).core.twins[i];
            t.status == OnScene ==> t.x == t.course.xt && t.y == t.course.yt
  {
    hide Invariant, Initial, Reached;
    PositionInvariant(cfg, s, turns, i);
  }
}
