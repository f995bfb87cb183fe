/** What one step of any thread can do to one twin and to one emergency. */
module Steps {
  import opened Common
  import opened PriorityTable
  import opened Urgency
  import opened Domain
  import opened Selection
  import opened Dispatcher
  import opened Accounting
  import opened Dispatch
  import opened World
  import opened Server
  import opened Custody
  import opened Protocol
  import Ledger
  import QueueSpec

  // ---------------------------------------------------------------- one twin

  /** The step in which the updater moves the world. */
  predicate MovesWorld(s: State, turn: Turn) {
    turn.Updater? && s.updater == Waits
  }

  /** The emergency a search step is made for. */
  function Searcher(s: State, turn: Turn): Option<nat> {
    if turn.Worker? && turn.w < |s.workers| && s.workers[turn.w].Searching? then Some(s.workers[turn.w].e) else None
  }

  /** Twin i may be sent to emergency e: it is idle, or works for a strictly lower level. */
  ghost predicate Choosable(cfg: Config, c: Core, e: nat, i: nat) {
    && Assignable(cfg, c, e, i)
    && (c.twins[i].status == Idle
        || (OnDuty(c.twins[i]) && WorkLevel(Quest(cfg, c, e), i) < LevelOf(cfg, c.emergencies[e])))
  }

  ghost predicate SentBy(cfg: Config, s: State, turn: Turn, i: nat, u: Twin) {
    && Searcher(s, turn).Some? && Choosable(cfg, s.core, Searcher(s, turn).value, i)
    && u == Sent(cfg, s.core, Searcher(s, turn).value, i)
  }

  lemma LookTwin(cfg: Config, s: State, w: nat, e: nat, i: nat)
    requires Well(cfg, s) && w < |s.workers| && e < |s.core.emergencies| && i < |s.core.twins|
    ensures var c, d := s.core, Look(cfg, s, w, e).core;
            && |d.twins| == |c.twins|
            && (d.twins[i] == c.twins[i] || (Choosable(cfg, c, e, i) && d.twins[i] == Sent(cfg, c, e, i)))
  {
    hide Sound, Books, FindRescuers, Sensible;
    BooksOf(cfg, s.core);
    SoundIsSensible(cfg, s.core, e);
    var q := Quest(cfg, s.core, e);
    if FindRescuers(q).Found? {
      FindSizes(q);
      FindTwins(q, i);
    }
  }

  lemma WorkTwin(cfg: Config, s: State, w: nat, i: nat)
    requires Well(cfg, s) && w < |s.workers| && i < |s.core.twins|
    ensures var c, d := s.core, Work(cfg, s, w).core;
            && |d.twins| == |c.twins|
            && (d.twins[i] == c.twins[i] || SentBy(cfg, s, Worker(w), i, d.twins[i]))
  {
    hide Sound, Look, Sent, Choosable;
    if s.workers[w].Searching? && s.workers[w].e < |s.core.emergencies| {
      LookTwin(cfg, s, w, s.workers[w].e, i);
    }
  }

  lemma ReceiveTwins(cfg: Config, s: State, etype: nat, x: int, y: int)
    requires Well(cfg, s)
    ensures Receive(cfg, s, etype, x, y).core.twins == s.core.twins
  {
    hide Sound, NewEmergency, Filed;
  }

  lemma UpkeepTwins(cfg: Config, s: State)
    requires Well(cfg, s) && s.updater != Waits
    ensures Upkeep(cfg, s).core.twins == s.core.twins
  {
    hide Sound, ValidTable, Filed, QueueSpec.ExtractFirst, Promote, AgeAll;
    TableValid(cfg, s.core);
  }

  lemma TickTwin(cfg: Config, s: State, i: nat)
    requires Well(cfg, s) && s.updater == Waits && i < |s.core.twins|
    ensures s.core.twins[i].rtype < |cfg.rescuers| && |Upkeep(cfg, s).core.twins| == |s.core.twins|
    ensures Upkeep(cfg, s).core.twins[i] == TickAlone(cfg.rescuers[s.core.twins[i].rtype], s.core.twins[i])
  {
    hide Sound, TickAlone, TickWorld;
    TickWorldTwins(cfg, s.core, s.active, i);
  }

  /** A twin moves with the world, or is sent somewhere by a search; otherwise it does not change. */
  lemma TwinStep(cfg: Config, s: State, turn: Turn, i: nat)
    requires Well(cfg, s) && i < |s.core.twins|
    ensures |Act(cfg, s, turn).core.twins| == |s.core.twins| && s.core.twins[i].rtype < |cfg.rescuers|
    ensures var t, u := s.core.twins[i], Act(cfg, s, turn).core.twins[i];
            if MovesWorld(s, turn) then u == TickAlone(cfg.rescuers[t.rtype], t)
            else u == t || SentBy(cfg, s, turn, i, u)
  {
    hide Sound, TickAlone, Receive, Work, Upkeep, SentBy;
    TwinHasType(cfg, s.core, i);
    match turn
    case Receiver(etype, x, y) => ReceiveTwins(cfg, s, etype, x, y);
    case Worker(w) =>
      if w < |s.workers| {
        WorkTwin(cfg, s, w, i);
      }
    case Updater =>
      if s.updater == Waits {
        TickTwin(cfg, s, i);
      } else {
        UpkeepTwins(cfg, s);
      }
  }

  // ---------------------------------------------------------------- one emergency

  /** How an emergency's status may change in one step. */
  predicate Edge(a: EmergencyStatus, b: EmergencyStatus) {
    || a == b
    || (a == Waiting && (b == Assigned || b == TimedOut))
    || (a == Assigned && (b == InProgress || b == Completed || b == Paused || b == TimedOut))
    || (a == InProgress && (b == Completed || b == Paused))
    || (a == Paused && b == TimedOut)
    || (a == TimedOut && b == Paused)
  }

  /** What any step leaves alone, and what it may add: an emergency keeps its type and
      cell, nobody is struck off its log, its level never falls, and once it is completed
      nothing but its condition variable changes. */
  ghost predicate Evolves(cfg: Config, a: Emergency, b: Emergency) {
    && Edge(a.status, b.status)
    && b.etype == a.etype && b.x == a.x && b.y == a.y
    && (forall i :: i in a.log ==> i in b.log && b.log[i] == a.log[i])
    && LevelOf(cfg, a) <= LevelOf(cfg, b)
    && (a.status == Completed ==> b == a.(cond := b.cond))
  }

  lemma SparedEvolves(cfg: Config, a: Emergency, b: Emergency)
    requires Spared(a, b) && a.status != Canceled
    ensures Evolves(cfg, a, b)
  {
  }

  lemma SameEvolves(cfg: Config, a: Emergency)
    ensures Evolves(cfg, a, a)
  {
  }

  lemma NoneCanceled(cfg: Config, c: Core, y: nat)
    requires Books(cfg, c) && y < |c.emergencies|
    ensures c.emergencies[y].status != Canceled
    ensures c.emergencies[y].status == Completed ==>
              c.emergencies[y].notDone == 0 && Sum(c.emergencies[y].missing) == 0
  {
    hide Books;
    EmergencyPage(cfg, c, y);
    Ledger.SumNonNegative(c.emergencies[y].missing);
  }

  lemma LookEvolves(cfg: Config, s: State, w: nat, e: nat)
    requires Well(cfg, s) && Settled(cfg, s) && w < |s.workers| && s.workers[w] == Searching(e)
             && e < |s.core.emergencies|
    ensures var d := Look(cfg, s, w, e).core;
            |d.emergencies| == |s.core.emergencies| && Evolves(cfg, s.core.emergencies[e], d.emergencies[e])
  {
    hide Sound, Books, Sensible, Settled, Sum, Search;
    BooksOf(cfg, s.core);
    SoundIsSensible(cfg, s.core, e);
    NoneCanceled(cfg, s.core, e);
    SameEvolves(cfg, s.core.emergencies[e]);
    LookKeepsCount(cfg, s, w, e);
    var q := Quest(cfg, s.core, e);
    if Sum(s.core.emergencies[e].missing) != 0 {
      hide FindRescuers;
      if FindRescuers(q).Found? {
        FindEmergencies(q, e);
      }
    }
  }

  lemma TouchEvolves(cfg: Config, a: Emergency, b: Emergency)
    requires Edge(a.status, b.status) && b == a.(status := b.status, cond := b.cond)
    requires a.status == Completed ==> b.status == Completed
    ensures Evolves(cfg, a, b)
  {
  }

  lemma OwnEvolves(cfg: Config, s: State, w: nat)
    requires Well(cfg, s) && Settled(cfg, s) && w < |s.workers| && Held(s.workers[w]).Some?
    ensures var e, d := s.workers[w].e, Work(cfg, s, w).core;
            && e < |s.core.emergencies| && |d.emergencies| == |s.core.emergencies|
            && Evolves(cfg, s.core.emergencies[e], d.emergencies[e])
  {
    hide Sound, Settled, Look, Level, Sum, Filed, Unstaffed, Evolves;
    SettledWorker(cfg, s, w);
    var a := s.core.emergencies[s.workers[w].e];
    var b := if |Work(cfg, s, w).core.emergencies| > s.workers[w].e
             then Work(cfg, s, w).core.emergencies[s.workers[w].e] else a;
    SameEvolves(cfg, a);
    if s.workers[w].Searching? {
      LookEvolves(cfg, s, w, s.workers[w].e);
    } else if Edge(a.status, b.status) && b == a.(status := b.status, cond := b.cond)
              && (a.status == Completed ==> b.status == Completed) {
      TouchEvolves(cfg, a, b);
    }
  }

  lemma WorkEvolves(cfg: Config, s: State, w: nat, y: nat)
    requires Well(cfg, s) && Settled(cfg, s) && w < |s.workers| && y < |s.core.emergencies|
    ensures var d := Work(cfg, s, w).core;
            |d.emergencies| == |s.core.emergencies| && Evolves(cfg, s.core.emergencies[y], d.emergencies[y])
  {
    hide Sound, Books, Settled, WorkOn, Evolves, Spared;
    WorkKeepsCount(cfg, s, w);
    BooksOf(cfg, s.core);
    NoneCanceled(cfg, s.core, y);
    SameEvolves(cfg, s.core.emergencies[y]);
    if Held(s.workers[w]).Some? {
      if s.workers[w].e == y {
        OwnEvolves(cfg, s, w);
      } else {
        WorkOnOwnStep(cfg, s, w);
        if Work(cfg, s, w) != s {
          SparedEvolves(cfg, s.core.emergencies[y], Work(cfg, s, w).core.emergencies[y]);
        }
      }
    }
  }

  lemma TickEvolves(cfg: Config, a: Emergency)
    requires ValidTable(cfg.table) && a.status != Canceled && (a.status == Completed ==> Over(a) && a.notDone == 0)
    requires a.status != Waiting && a.status != TimedOut
    ensures Evolves(cfg, a, TickEmergency(cfg, a))
  {
    PromoteIsRested(cfg.table, a.urgency);
  }

  lemma WorkedEvolves(cfg: Config, a: Emergency, b: Emergency)
    requires Worked(a, b) && (a.status == Completed ==> b == a)
    ensures Evolves(cfg, a, b)
  {
  }

  lemma EvolvesOn(cfg: Config, a: Emergency, b: Emergency, d: Emergency)
    requires Evolves(cfg, a, b) && Evolves(cfg, b, d) && b.status == a.status
    ensures Evolves(cfg, a, d)
  {
  }

  /** An emergency that shows in a slot has begun; a completed one is past any promotion. */
  lemma ActiveBegun(cfg: Config, s: State, y: nat)
    requires Conserved(s) && Settled(cfg, s) && SlotsShow(s) && y < |s.core.emergencies|
    ensures Some(y) in s.active ==> Begun(s.core.emergencies[y])
    ensures s.core.emergencies[y].status == Completed ==> Over(s.core.emergencies[y])
  {
    var p := Somewhere(s, y);
    ActiveAt(s, p, y);
    assert Suits(cfg, s, p, s.core.emergencies[y]);
  }

  lemma WorkedThenTicked(cfg: Config, a: Emergency, b: Emergency, active: bool)
    requires ValidTable(cfg.table) && Worked(a, b) && (a.notDone == Sum(a.missing) ==> b == a)
    requires a.status != Canceled && (a.status == Completed ==> Over(a) && a.notDone == 0 && Sum(a.missing) == 0)
    requires active ==> Begun(a)
    ensures Evolves(cfg, a, if active then TickEmergency(cfg, b) else b)
  {
    hide ValidTable, TickEmergency, Evolves, Worked, Sum;
    WorkedStays(a, b);
    WorkedEvolves(cfg, a, b);
    if active {
      TickEvolves(cfg, b);
      EvolvesOn(cfg, a, b, TickEmergency(cfg, b));
    }
  }

  lemma TickWorldEvolves(cfg: Config, s: State, y: nat)
    requires Well(cfg, s) && Conserved(s) && Settled(cfg, s) && SlotsShow(s) && y < |s.core.emergencies|
    ensures Evolves(cfg, s.core.emergencies[y], TickWorld(cfg, s.core, s.active).emergencies[y])
  {
    hide Sound, Books, Conserved, Settled, SlotsShow, ValidTable, Apart, TickEmergency, TickWorld, Evolves, Worked,
        Sum, Over, Begun;
    TableValid(cfg, s.core);
    BooksOf(cfg, s.core);
    NoneCanceled(cfg, s.core, y);
    ActiveApart(s);
    ActiveBegun(cfg, s, y);
    var b := TickWorldEmergencies(cfg, s.core, s.active, y);
    WorkedThenTicked(cfg, s.core.emergencies[y], b, Some(y) in s.active);
  }

  lemma AgeEvolves(cfg: Config, s: State, y: nat)
    requires Conserved(s) && Settled(cfg, s) && y < |s.core.emergencies|
    ensures var ems := AgeAll(s.core.emergencies, QueueSpec.Order<nat>(s.queue));
            Evolves(cfg, s.core.emergencies[y], ems[y])
  {
    QueueDistinct(s);
    AgeAllPoint(s.core.emergencies, QueueSpec.Order<nat>(s.queue), y);
    if y in QueueSpec.Order<nat>(s.queue) {
      assert At(s, InQueue, y);
      assert Suits(cfg, s, InQueue, s.core.emergencies[y]);
    }
  }

  lemma ReceiveEvolves(cfg: Config, s: State, etype: nat, x: int, z: int, y: nat)
    requires Well(cfg, s) && y < |s.core.emergencies|
    ensures var d := Receive(cfg, s, etype, x, z).core;
            |d.emergencies| >= |s.core.emergencies| && d.emergencies[y] == s.core.emergencies[y]
  {
    hide Sound, NewEmergency, Filed;
  }

  lemma CancelEvolves(cfg: Config, s: State, x: nat, y: nat)
    requires Settled(cfg, s) && s.updater == Cancels(x) && x < |s.core.emergencies| && y < |s.core.emergencies|
    ensures Evolves(cfg, s.core.emergencies[y], Marked(s.core, x, TimedOut).emergencies[y])
  {
    assert At(s, AtUpdater, x);
    assert Suits(cfg, s, AtUpdater, s.core.emergencies[x]);
  }

  lemma BoostEvolves(cfg: Config, s: State, x: nat, y: nat)
    requires Settled(cfg, s) && s.updater == Boosts(x) && x < |s.core.emergencies| && y < |s.core.emergencies|
    requires ValidTable(cfg.table)
    ensures var em := s.core.emergencies[x];
            Evolves(cfg, s.core.emergencies[y],
                    With(s.core, x, em.(urgency := Promote(cfg.table, em.urgency))).emergencies[y])
  {
    hide ValidTable, Level, Promote;
    assert At(s, AtUpdater, x);
    assert Suits(cfg, s, AtUpdater, s.core.emergencies[x]);
    PromoteIsRested(cfg.table, s.core.emergencies[x].urgency);
  }

  lemma UpkeepEvolves(cfg: Config, s: State, y: nat)
    requires Well(cfg, s) && Conserved(s) && Settled(cfg, s) && SlotsShow(s) && y < |s.core.emergencies|
    ensures var d := Upkeep(cfg, s).core;
            |d.emergencies| == |s.core.emergencies| && Evolves(cfg, s.core.emergencies[y], d.emergencies[y])
  {
    hide Sound, ValidTable, Evolves, Conserved, Settled, SlotsShow, Filed, Promote, AgeAll, TickWorld,
        QueueSpec.ExtractFirst;
    TableValid(cfg, s.core);
    SameEvolves(cfg, s.core.emergencies[y]);
    match s.updater
    case Waits => TickWorldEvolves(cfg, s, y);
    case Ages => AgeEvolves(cfg, s, y);
    case Expires =>
    case Cancels(e) =>
      if e < |s.core.emergencies| {
        CancelEvolves(cfg, s, e, y);
      }
    case Promotes =>
    case Boosts(e) =>
      if e < |s.core.emergencies| {
        BoostEvolves(cfg, s, e, y);
      }
  }

  /** Every step of every thread lets every emergency evolve lawfully. */
  lemma EmergencyStep(cfg: Config, s: State, turn: Turn, y: nat)
    requires Invariant(cfg, s) && y < |s.core.emergencies|
    ensures Well(cfg, s) && y < |Act(cfg, s, turn).core.emergencies|
    ensures Evolves(cfg, s.core.emergencies[y], Act(cfg, s, turn).core.emergencies[y])
  {
    hide Invariant, Sound, Settled, Conserved, SlotsShow, AtHome, ValidTable, Evolves, Work, Upkeep, Receive;
    InvariantParts(cfg, s);
    TableValid(cfg, s.core);
    SameEvolves(cfg, s.core.emergencies[y]);
    match turn
    case Receiver(etype, x, z) => ReceiveEvolves(cfg, s, etype, x, z, y);
    case Worker(w) =>
      if w < |s.workers| {
        WorkEvolves(cfg, s, w, y);
      }
    case Updater => UpkeepEvolves(cfg, s, y);
  }
}
