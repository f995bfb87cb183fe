/** How an emergency's story goes on: exactly when it completes, and what becomes of the
  worker of one that is preempted. */
module Outcomes {
  import opened Common
  import opened PriorityTable
  import opened Urgency
  import opened Domain
  import opened Selection
  import opened Dispatcher
  import opened Accounting
  import Bresenham
  import opened Dispatch
  import opened World
  import opened Server
  import opened Custody
  import opened Protocol
  import opened Steps
  import opened Runs
  import opened RunTimes
  import Sortie
  import QueueSpec

  // ---------------------------------------------------------------- a preempted emergency's worker

  /** A worker at work on a paused emergency: it searches, tests whether to wait, or has
      been woken. */
  ghost predicate Stuck(s: State, w: nat, e: nat) {
    && w < |s.workers| && e < |s.core.emergencies| && s.core.emergencies[e].status == Paused
    && (s.workers[w] == Searching(e) || s.workers[w] == Testing(e)
        || s.workers[w] == Sleeping(e) || s.workers[w] == Woken(e))
  }

  /** The only way out is a search that fails for want of rescuers. */
  lemma StuckStep(cfg: Config, s: State, turn: Turn, w: nat, e: nat)
    requires Invariant(cfg, s) && Stuck(s, w, e)
    ensures Well(cfg, s) && Sensible(Quest(cfg, s.core, e))
    ensures
      var t := Act(cfg, s, turn);
      || Stuck(t, w, e)
      || (turn == Worker(w) && s.workers[w] == Searching(e) && Lacking(Quest(cfg, s.core, e))
          && w < |t.workers| && t.workers[w] == TimingOut(e))
    ensures turn == Worker(w) ==> var t := Act(cfg, s, turn); w < |t.workers| && !t.workers[w].Sleeping?
  {
    hide Invariant, Sound, Sensible, Settled, Lacking, Evolves, Act, Books, Shape;
    InvariantSound(cfg, s);
    SoundIsSensible(cfg, s.core, e);
    ActKeepsInvariant(cfg, s, turn);
    EmergencyStep(cfg, s, turn, e);
    StuckTurn(cfg, s, turn, w, e);
    if Act(cfg, s, turn).workers[w] != TimingOut(e) {
      StillPaused(cfg, s, Act(cfg, s, turn), w, e);
    }
  }

  /** What the turn does to the worker itself. */
  lemma StuckTurn(cfg: Config, s: State, turn: Turn, w: nat, e: nat)
    requires Well(cfg, s) && Stuck(s, w, e) && Sensible(Quest(cfg, s.core, e))
    ensures
      var t := Act(cfg, s, turn);
      && |t.workers| == |s.workers|
      && (turn != Worker(w) ==> t.workers[w] == s.workers[w])
      && (turn == Worker(w) ==>
            || t.workers[w] == Searching(e) || t.workers[w] == Testing(e) || t.workers[w] == Woken(e)
            || (t.workers[w] == TimingOut(e) && s.workers[w] == Searching(e) && Lacking(Quest(cfg, s.core, e))))
  {
    hide Sound, Sensible, Lacking, FindRescuers, Upkeep, NewEmergency, Filed;
    SearchOutcome(Quest(cfg, s.core, e));
    UpkeepWorkers(cfg, s);
  }

  lemma UpkeepWorkers(cfg: Config, s: State)
    requires Well(cfg, s)
    ensures Upkeep(cfg, s).workers == s.workers
  {
    TableValid(cfg, s.core);
    hide Sound, ValidTable, Filed, QueueSpec.ExtractFirst, Promote, AgeAll, TickWorld;
  }

  /** A worker that searches, tests or has been woken cannot hold a timed-out emergency. */
  lemma StillPaused(cfg: Config, s: State, t: State, w: nat, e: nat)
    requires Invariant(cfg, t) && e < |s.core.emergencies| && e < |t.core.emergencies|
    requires s.core.emergencies[e].status == Paused && Evolves(cfg, s.core.emergencies[e], t.core.emergencies[e])
    requires w < |t.workers|
             && (t.workers[w] == Searching(e) || t.workers[w] == Testing(e)
                 || t.workers[w] == Sleeping(e) || t.workers[w] == Woken(e))
    ensures Stuck(t, w, e)
  {
    hide Invariant, Settled, Sound, Conserved;
    InvariantParts(cfg, t);
    SettledWorker(cfg, t, w);
  }

  /** Preemption costs a worker.  From the moment its emergency is paused, a worker goes on
      searching, testing and resuming, without ever going to sleep of its own accord, until
      one of its searches fails; if nobody is missing, none does. */
  lemma {:induction false} PausedKeepsItsWorker(cfg: Config, s: State, turns: seq<Turn>, w: nat, e: nat)
    requires Invariant(cfg, s) && Stuck(s, w, e)
    ensures || Stuck(After(cfg, s, turns), w, e)
            || exists n :: 0 <= n <= |turns| && GivesUp(cfg, s, turns[..n], w, e)
    decreases |turns|
  {
    hide Invariant, Act, Stuck, After;
    if turns == [] {
      NoTurn(cfg, s);
    } else {
      var rest, last := turns[..|turns| - 1], turns[|turns| - 1];
      PausedKeepsItsWorker(cfg, s, rest, w, e);
      if Stuck(After(cfg, s, rest), w, e) {
        StuckStep(cfg, After(cfg, s, rest), last, w, e);
        AfterTurn(cfg, s, turns);
        assert turns[..|turns|] == turns;
        assert Stuck(After(cfg, s, turns), w, e) || GivesUp(cfg, s, turns[..|turns|], w, e);
      } else {
        var n :| 0 <= n <= |rest| && GivesUp(cfg, s, rest[..n], w, e);
        assert turns[..n] == rest[..n];
      }
    }
  }

  ghost predicate GivesUp(cfg: Config, s: State, turns: seq<Turn>, w: nat, e: nat)
    requires Invariant(cfg, s)
  {
    w < |After(cfg, s, turns).workers| && After(cfg, s, turns).workers[w] == TimingOut(e)
  }

  lemma AfterTurn(cfg: Config, s: State, turns: seq<Turn>)
    requires Invariant(cfg, s) && turns != []
    ensures Well(cfg, After(cfg, s, turns[..|turns| - 1]))
    ensures After(cfg, s, turns) == Act(cfg, After(cfg, s, turns[..|turns| - 1]), turns[|turns| - 1])
  {
    hide Invariant, Act;
    InvariantSound(cfg, After(cfg, s, turns[..|turns| - 1]));
  }

  // ---------------------------------------------------------------- an emergency left in peace

  /** The worker waits, or is about to see that it has to wait. */
  predicate Attends(s: State, w: nat, e: nat) {
    w < |s.workers| && (s.workers[w] == Testing(e) || s.workers[w] == Sleeping(e))
  }

  predicate Member(s: State, e: nat, i: nat) {
    i < |s.core.twins| && s.core.twins[i].emergency == Some(e)
  }

  /** A search has just sent everyone: nobody is missing, nobody has finished, all are on their way. */
  ghost predicate Launched(s: State, w: nat, e: nat) {
    && Attends(s, w, e) && e < |s.core.emergencies|
    && var em := s.core.emergencies[e];
       && em.status == Assigned && Sum(em.missing) == 0 && em.log == map[] && em.slots != []
       && forall i: nat :: Member(s, e, i) ==> s.core.twins[i].status == EnRoute
  }

  /** The first search for an emergency that misses someone, when it succeeds, leaves it so. */
  lemma SearchLaunches(cfg: Config, s: State, w: nat, e: nat)
    requires Invariant(cfg, s) && w < |s.workers| && s.workers[w] == Searching(e)
    requires e < |s.core.emergencies| && s.core.emergencies[e].status == Assigned
    requires Sum(s.core.emergencies[e].missing) > 0
    ensures Well(cfg, s) && Sensible(Quest(cfg, s.core, e))
    ensures FindRescuers(Quest(cfg, s.core, e)).Found? ==> Launched(Act(cfg, s, Worker(w)), w, e)
  {
    hide Invariant, Sound, Books, Sensible, Settled, FindRescuers, Shape;
    InvariantSound(cfg, s);
    InvariantParts(cfg, s);
    SoundIsSensible(cfg, s.core, e);
    var q := Quest(cfg, s.core, e);
    if FindRescuers(q).Found? {
      SettledWorker(cfg, s, w);
      FindSizes(q);
      FindEmergencies(q, e);
      FreshSearch(q);
      forall i: nat | Member(Act(cfg, s, Worker(w)), e, i)
        ensures Act(cfg, s, Worker(w)).core.twins[i].status == EnRoute
      {
        FindTwins(q, i);
        if FindRescuers(q).core.twins[i] == s.core.twins[i] {
          NobodyWorks(cfg, s.core, e, i);
        } else {
          SentFacts(cfg, s.core, e, i);
        }
      }
    }
  }

  /** An emergency that misses everyone has nobody at work. */
  lemma NobodyWorks(cfg: Config, c: Core, e: nat, i: nat)
    requires Books(cfg, c) && e < |c.emergencies| && Unstaffed(c.emergencies[e]) && i < |c.twins|
    ensures c.twins[i].emergency != Some(e)
  {
    hide Books;
    TwinPage(cfg, c, i);
    if OnDuty(c.twins[i]) {
      AtWorkCounts(cfg, c, i);
    }
  }

  /** A search that sends someone does so for an emergency nobody has finished with. */
  lemma FreshSearch(q: Quest)
    requires Sensible(q) && Books(q.cfg, q.core) && q.e < |q.core.emergencies|
    requires FindRescuers(q).Found? && Sum(Self(q).missing) > 0
    ensures Self(q).log == map[] && Self(q).slots != []
  {
    hide Sensible, Books, FindRescuers;
    SearchOutcome(q);
    SpareSlotsMeanFinished(q.cfg, q.core, q.e);
  }

  // ---------------------------------------------------------------- when it completes

  /** Its type moves it, and its stay has a length. */
  predicate Paced(cfg: Config, t: Twin) {
    t.rtype < |cfg.rescuers| && cfg.rescuers[t.rtype].speed >= 1 && t.timeToManage >= 0
  }

  /** The update at which a twin on its way leaves the scene again. */
  ghost function Leaves(cfg: Config, t: Twin): nat
    requires Paced(cfg, t)
  {
    Sortie.Arrival(Sortie.Left(t), cfg.rescuers[t.rtype].speed) + t.timeToManage
  }

  lemma TwinPaced(cfg: Config, s: State, i: nat)
    requires Invariant(cfg, s) && i < |s.core.twins| && OnDuty(s.core.twins[i])
    ensures Paced(cfg, s.core.twins[i])
  {
    hide Invariant, Sound, Books, Shape;
    InvariantSound(cfg, s);
    TwinHasType(cfg, s.core, i);
    SoundParts(cfg, s.core);
    ValidRescuers(cfg, s.core.twins[i].rtype);
    TimePositive(cfg, s.core, i);
  }

  /** The last update at which one of the emergency's first n twins leaves. */
  ghost function LatestOf(cfg: Config, s: State, e: nat, n: nat): nat
    requires n <= |s.core.twins|
  {
    if n == 0 then 0
    else
      var before, t := LatestOf(cfg, s, e, n - 1), s.core.twins[n - 1];
      if Member(s, e, n - 1) && Paced(cfg, t) && Leaves(cfg, t) > before then Leaves(cfg, t) else before
  }

  ghost function Latest(cfg: Config, s: State, e: nat): nat {
    LatestOf(cfg, s, e, |s.core.twins|)
  }

  /** That is the maximum: by then everyone has left, and before then not everyone. */
  lemma {:induction false} LatestIsMaximum(cfg: Config, s: State, w: nat, e: nat, n: nat, k: nat)
    requires Invariant(cfg, s) && Launched(s, w, e) && n <= |s.core.twins|
    ensures forall i: nat :: i < n && Member(s, e, i) ==> LeftBy(cfg, s, i, LatestOf(cfg, s, e, n))
    ensures (forall i: nat :: i < n && Member(s, e, i) ==> LeftBy(cfg, s, i, k)) ==> LatestOf(cfg, s, e, n) <= k
  {
    hide Invariant, Leaves;
    if n == 0 {
    } else {
      LatestIsMaximum(cfg, s, w, e, n - 1, k);
      if Member(s, e, n - 1) {
        TwinPaced(cfg, s, n - 1);
      }
    }
  }

  ghost predicate LeftBy(cfg: Config, s: State, i: nat, k: nat)
    requires i < |s.core.twins|
  {
    Paced(cfg, s.core.twins[i]) && Leaves(cfg, s.core.twins[i]) <= k
  }

  lemma AttendedClimbs(cfg: Config, s: State, w: nat, e: nat)
    requires Invariant(cfg, s) && Attends(s, w, e)
    ensures ValidTable(cfg.table) && e < |s.core.emergencies| && Climbing(cfg.table, s.core.emergencies[e].urgency)
  {
    hide Invariant, Sound, Conserved, Climbing, WorkerSuits, ValidTable;
    InvariantParts(cfg, s);
    TableValid(cfg, s.core);
    assert At(s, AtWorker(w), e);
    assert Suits(cfg, s, AtWorker(w), s.core.emergencies[e]);
  }

  lemma LaunchedClimbs(cfg: Config, s: State, w: nat, e: nat)
    requires Invariant(cfg, s) && Launched(s, w, e)
    ensures ValidTable(cfg.table) && e < |s.core.emergencies| && Climbing(cfg.table, s.core.emergencies[e].urgency)
    ensures Attends(s, w, e)
  {
    hide Invariant, ValidTable, Climbing;
    AttendedClimbs(cfg, s, w, e);
  }

  /** The update at which the emergency completes if it is left in peace: when the last of
      its twins leaves, but not before the update after the last promotion. */
  ghost function CompletionTime(cfg: Config, s: State, w: nat, e: nat): nat
    requires Invariant(cfg, s) && Launched(s, w, e)
  {
    LaunchedClimbs(cfg, s, w, e);
    var latest, climbed := Latest(cfg, s, e), ClimbTime(cfg.table, s.core.emergencies[e].urgency) + 1;
    if latest > climbed then latest else climbed
  }

  /** After n updates that much less of the climb is left. */
  ghost predicate Climbed(table: seq<Rule>, u: Urgency, v: Urgency, n: nat) {
    && ValidTable(table) && Climbing(table, u) && Climbing(table, v)
    && ClimbTime(table, v) == if n < ClimbTime(table, u) then ClimbTime(table, u) - n else 0
  }

  /** In the state after n moves of the world: nobody is missing, who works for the emergency
      is who was sent and has not left yet, and it has completed exactly if it is time. */
  ghost predicate Underway(cfg: Config, s: State, t: State, w: nat, e: nat, n: nat)
    requires Invariant(cfg, s) && Launched(s, w, e)
  {
    && e < |t.core.emergencies| && |t.core.twins| == |s.core.twins|
    && var em := t.core.emergencies[e];
       && Sum(em.missing) == 0
       && (em.status == Assigned || em.status == InProgress || em.status == Completed)
       && (em.status == Completed <==> CompletionTime(cfg, s, w, e) <= n)
       && (em.status != Completed ==>
             Attends(t, w, e) && Climbed(cfg.table, s.core.emergencies[e].urgency, em.urgency, n))
       && Manned(cfg, s, t, e, n)
  }

  ghost predicate Manned(cfg: Config, s: State, t: State, e: nat, n: nat) {
    forall i: nat :: i < |s.core.twins| ==> Mans(cfg, s, t, e, n, i)
  }

  /** A twin that was sent works for the emergency until it leaves, n updates on from where it started. */
  ghost predicate Mans(cfg: Config, s: State, t: State, e: nat, n: nat, i: nat)
    requires i < |s.core.twins|
  {
    && (Member(t, e, i) <==> Member(s, e, i) && !LeftBy(cfg, s, i, n))
    && (Member(t, e, i) ==> s.core.twins[i].rtype < |cfg.rescuers|
                            && t.core.twins[i] == Sortie.Ticks(cfg.rescuers[s.core.twins[i].rtype], s.core.twins[i], n))
  }

  lemma MannedEach(cfg: Config, s: State, t: State, e: nat, n: nat, i: nat)
    requires Manned(cfg, s, t, e, n) && i < |s.core.twins|
    ensures Mans(cfg, s, t, e, n, i)
  {
    hide Mans;
  }

  lemma ManAll(cfg: Config, s: State, t: State, e: nat, n: nat)
    requires forall i: nat :: i < |s.core.twins| ==> Mans(cfg, s, t, e, n, i)
    ensures Manned(cfg, s, t, e, n)
  {
    hide Mans;
  }

  // ---------------------------------------------------------------- its twins

  lemma {:induction false} TicksKeepEmergency(r: RescuerType, t: Twin, n: nat)
    requires OnDuty(Sortie.Ticks(r, t, n))
    ensures Sortie.Ticks(r, t, n).emergency == t.emergency
    decreases n
  {
    hide TickAlone;
    if n == 0 {
    } else {
      OneMoreTick(r, t, n - 1);
      TickKeepsEmergency(r, Sortie.Ticks(r, t, n - 1));
      TicksKeepEmergency(r, t, n - 1);
    }
  }

  lemma OffDutyFree(cfg: Config, s: State, i: nat)
    requires Invariant(cfg, s) && i < |s.core.twins|
    ensures OnDuty(s.core.twins[i]) <==> s.core.twins[i].emergency.Some?
  {
    hide Invariant, Sound, Books;
    InvariantSound(cfg, s);
    TwinPage(cfg, s.core, i);
  }

  /** A twin that was sent and only moves with the world is on duty until it leaves. */
  lemma OnDutyUntilLeft(cfg: Config, s: State, w: nat, e: nat, i: nat, n: nat)
    requires Invariant(cfg, s) && Launched(s, w, e) && Member(s, e, i)
    ensures s.core.twins[i].rtype < |cfg.rescuers|
    ensures OnDuty(Sortie.Ticks(cfg.rescuers[s.core.twins[i].rtype], s.core.twins[i], n)) <==> !LeftBy(cfg, s, i, n)
  {
    hide Invariant, Sound, Books, Shape, Sortie.Positioned, Sortie.Arrival, Sortie.Ticks, Launched;
    InvariantSound(cfg, s);
    SentMember(s, w, e, i);
    TwinPaced(cfg, s, i);
    TimePositive(cfg, s.core, i);
    SoundParts(cfg, s.core);
    ValidRescuers(cfg, s.core.twins[i].rtype);
    LocatedOf(cfg, s.core, i);
    Sortie.SortieLength(cfg, cfg.rescuers[s.core.twins[i].rtype], s.core.twins[i], n);
  }

  lemma SentMember(s: State, w: nat, e: nat, i: nat)
    requires Launched(s, w, e) && Member(s, e, i)
    ensures s.core.twins[i].status == EnRoute
  {
  }

  /** The world's move brings nobody new. */
  lemma TickBringsNobody(r: RescuerType, t: Twin, e: nat)
    requires t.emergency != Some(e)
    ensures TickAlone(r, t).emergency != Some(e)
  {
    hide Bresenham.Step;
  }

  /** Someone was sent. */
  lemma SomeMember(cfg: Config, s: State, w: nat, e: nat) returns (i: nat)
    requires Invariant(cfg, s) && Launched(s, w, e)
    ensures Member(s, e, i)
  {
    hide Invariant, Sound, Books, Shape;
    InvariantSound(cfg, s);
    EmergencyPage(cfg, s.core, e);
    var a, b := Crew(s.core.twins, e, None, EnRoute), Crew(s.core.twins, e, None, OnScene);
    forall j: nat ensures j !in b {
      assert j in b ==> Member(s, e, j);
    }
    assert b == {};
    assert |a| > 0;
    i :| i in a;
  }

  /** Nobody is at work exactly when nobody is left to wait for. */
  lemma EmptyMeansDone(cfg: Config, s: State, e: nat)
    requires Invariant(cfg, s) && e < |s.core.emergencies| && Sum(s.core.emergencies[e].missing) == 0
    ensures s.core.emergencies[e].notDone <= 0 <==> forall i: nat :: !Member(s, e, i)
  {
    hide Invariant, Sound, Books, Shape;
    InvariantSound(cfg, s);
    EmergencyPage(cfg, s.core, e);
    var a, b := Crew(s.core.twins, e, None, EnRoute), Crew(s.core.twins, e, None, OnScene);
    forall i: nat | Member(s, e, i) ensures i in a || i in b {
      OffDutyFree(cfg, s, i);
    }
    if |a| + |b| > 0 {
      if |a| > 0 {
        var i :| i in a;
        assert Member(s, e, i);
      } else {
        var i :| i in b;
        assert Member(s, e, i);
      }
    }
  }

  /** And exactly when the latest has left. */
  lemma DoneWhenLatestLeft(cfg: Config, s: State, t: State, w: nat, e: nat, n: nat)
    requires Invariant(cfg, s) && Launched(s, w, e) && |t.core.twins| == |s.core.twins| && Manned(cfg, s, t, e, n)
    ensures (forall i: nat :: !Member(t, e, i)) <==> Latest(cfg, s, e) <= n
  {
    hide Invariant, Launched, LeftBy, LatestOf, Manned, Sortie.Ticks;
    LatestIsMaximum(cfg, s, w, e, |s.core.twins|, n);
    forall i: nat | i < |s.core.twins| ensures Member(t, e, i) <==> Member(s, e, i) && !LeftBy(cfg, s, i, n) {
      MannedEach(cfg, s, t, e, n, i);
    }
    if Latest(cfg, s, e) <= n {
      forall i: nat ensures !Member(t, e, i) {
        if i < |s.core.twins| && Member(s, e, i) {
          LeftLater(cfg, s, i, Latest(cfg, s, e), n);
        }
      }
    }
  }

  lemma LeftLater(cfg: Config, s: State, i: nat, m: nat, n: nat)
    requires i < |s.core.twins| && LeftBy(cfg, s, i, m) && m <= n
    ensures LeftBy(cfg, s, i, n)
  {
    hide Leaves;
  }

  // ---------------------------------------------------------------- the beginning

  lemma MannedAtFirst(cfg: Config, s: State, w: nat, e: nat)
    requires Invariant(cfg, s) && Launched(s, w, e)
    ensures Manned(cfg, s, s, e, 0)
  {
    hide Invariant, Launched, Leaves;
    forall i: nat | i < |s.core.twins| ensures Mans(cfg, s, s, e, 0, i) {
      if Member(s, e, i) {
        SentMember(s, w, e, i);
        TwinPaced(cfg, s, i);
        NotAtOnce(cfg, s, i);
        NoTick(cfg.rescuers[s.core.twins[i].rtype], s.core.twins[i]);
      }
    }
  }

  lemma NotAtOnce(cfg: Config, s: State, i: nat)
    requires i < |s.core.twins|
    ensures !LeftBy(cfg, s, i, 0)
  {
  }

  lemma UnderwayAtFirst(cfg: Config, s: State, w: nat, e: nat)
    requires Invariant(cfg, s) && Launched(s, w, e)
    ensures Underway(cfg, s, s, w, e, 0)
  {
    hide Invariant, Latest, Manned, ClimbTime, Climbing, ValidTable, Sum;
    LaunchedClimbs(cfg, s, w, e);
    MannedAtFirst(cfg, s, w, e);
  }

  // ---------------------------------------------------------------- a move of the world

  /** What an update makes of an active emergency: while a promotion is pending nothing but
      its timers moves, afterwards it completes as soon as nobody is left to wait for. */
  predicate Ticked(table: seq<Rule>, a: Emergency, b: Emergency)
    requires ValidTable(table)
  {
    && b.missing == a.missing
    && (a.urgency.promotion != NO_PROMOTION ==> b.status == a.status && b.urgency == CountDown(table, a.urgency))
    && (a.urgency.promotion == NO_PROMOTION ==>
          && b.urgency == a.urgency
          && (b.status == Assigned || b.status == InProgress || b.status == Completed)
          && (b.status == Completed <==> b.notDone <= 0))
  }

  lemma TickOutcome(cfg: Config, a: Emergency, b: Emergency)
    requires ValidTable(cfg.table) && (a.status == Assigned || a.status == InProgress) && Worked(a, b)
    ensures Ticked(cfg.table, a, TickEmergency(cfg, b))
  {
    hide ValidTable, CountDown;
  }

  /** What the update does to an emergency a worker attends. */
  lemma TickAttended(cfg: Config, s: State, w: nat, e: nat)
    requires Invariant(cfg, s) && s.updater == Waits && Attends(s, w, e) && e < |s.core.emergencies|
    requires s.core.emergencies[e].status == Assigned || s.core.emergencies[e].status == InProgress
    ensures Well(cfg, s) && ValidTable(cfg.table) && e < |Upkeep(cfg, s).core.emergencies|
    ensures Upkeep(cfg, s).workers == s.workers
    ensures Ticked(cfg.table, s.core.emergencies[e], Upkeep(cfg, s).core.emergencies[e])
  {
    hide Invariant, Sound, Conserved, Settled, Apart, TickWorld, TickEmergency, ValidTable, Ticked, Worked;
    InvariantParts(cfg, s);
    ActiveApart(s);
    ActiveAt(s, AtWorker(w), e);
    var m := TickWorldEmergencies(cfg, s.core, s.active, e);
    TickOutcome(cfg, s.core.emergencies[e], m);
  }

  lemma ClimbOn(table: seq<Rule>, u: Urgency, v: Urgency, n: nat)
    requires Climbed(table, u, v, n)
    ensures v.promotion == NO_PROMOTION <==> ClimbTime(table, u) <= n
    ensures Climbed(table, u, if v.promotion == NO_PROMOTION then v else CountDown(table, v), n + 1)
  {
    hide ValidTable, Climbing, ClimbTime, CountDown;
    CountDownClimbs(table, v);
  }

  lemma CompletedStays(cfg: Config, s: State, turn: Turn, e: nat)
    requires Invariant(cfg, s) && e < |s.core.emergencies| && s.core.emergencies[e].status == Completed
    ensures Well(cfg, s) && e < |Act(cfg, s, turn).core.emergencies|
    ensures var a, b := s.core.emergencies[e], Act(cfg, s, turn).core.emergencies[e]; b == a.(cond := b.cond)
  {
    hide Invariant, Act;
    EmergencyStep(cfg, s, turn, e);
  }

  lemma TwinsKept(cfg: Config, s: State, turn: Turn, i: nat)
    requires Invariant(cfg, s) && i < |s.core.twins|
    ensures Well(cfg, s) && |Act(cfg, s, turn).core.twins| == |s.core.twins|
  {
    hide Invariant, Act, SentBy;
    InvariantSound(cfg, s);
    TwinStep(cfg, s, turn, i);
  }

  /** Who works for the emergency after the world has moved once more. */
  lemma MannedByWorld(cfg: Config, s: State, b: State, turn: Turn, w: nat, e: nat, n: nat)
    requires Invariant(cfg, s) && Launched(s, w, e) && Invariant(cfg, b) && Well(cfg, b) && MovesWorld(b, turn)
    requires |b.core.twins| == |s.core.twins| && Manned(cfg, s, b, e, n)
    ensures Manned(cfg, s, Act(cfg, b, turn), e, n + 1)
  {
    hide Invariant, Well, Launched, Act, Manned, Mans;
    var t, m := Act(cfg, b, turn), n + 1;
    forall i: nat | i < |s.core.twins| ensures Mans(cfg, s, t, e, m, i) {
      MannedEach(cfg, s, b, e, n, i);
      MansOn(cfg, s, b, turn, w, e, n, i);
    }
    ManAll(cfg, s, t, e, m);
  }

  lemma MansOn(cfg: Config, s: State, b: State, turn: Turn, w: nat, e: nat, n: nat, i: nat)
    requires Invariant(cfg, s) && Launched(s, w, e) && Invariant(cfg, b) && Well(cfg, b) && MovesWorld(b, turn)
    requires i < |s.core.twins| == |b.core.twins| && Mans(cfg, s, b, e, n, i)
    ensures Mans(cfg, s, Act(cfg, b, turn), e, n + 1, i)
  {
    hide Invariant, Well, Launched, Act, LeftBy, Sortie.Ticks, TickAlone;
    ActKeepsInvariant(cfg, b, turn);
    MovedTwin(cfg, b, turn, i);
    if Member(b, e, i) {
      var r, t := cfg.rescuers[s.core.twins[i].rtype], s.core.twins[i];
      OneMoreTick(r, t, n);
      TicksKeepType(r, t, n);
      OnDutyUntilLeft(cfg, s, w, e, i, n + 1);
      OffDutyFree(cfg, Act(cfg, b, turn), i);
      if OnDuty(Sortie.Ticks(r, t, n + 1)) {
        TicksKeepEmergency(r, t, n + 1);
      }
    } else {
      TickBringsNobody(cfg.rescuers[b.core.twins[i].rtype], b.core.twins[i], e);
      if Member(s, e, i) {
        LeftLater(cfg, s, i, n, n + 1);
      }
    }
  }

  lemma WorldTurn(cfg: Config, s: State, b: State, turn: Turn, w: nat, e: nat, n: nat)
    requires Invariant(cfg, s) && Launched(s, w, e) && Invariant(cfg, b) && Underway(cfg, s, b, w, e, n)
    requires Well(cfg, b) && MovesWorld(b, turn)
    ensures Underway(cfg, s, Act(cfg, b, turn), w, e, n + 1)
  {
    hide Invariant, Well, Launched, Latest, Manned, Upkeep, Sum, ClimbTime, Climbed, CountDown, ValidTable, Climbing;
    var t := Act(cfg, b, turn);
    ActKeepsInvariant(cfg, b, turn);
    MannedByWorld(cfg, s, b, turn, w, e, n);
    var i := SomeMember(cfg, s, w, e);
    TwinsKept(cfg, b, turn, i);
    if b.core.emergencies[e].status == Completed {
      CompletedStays(cfg, b, turn, e);
    } else {
      LaunchedClimbs(cfg, s, w, e);
      TickAttended(cfg, b, w, e);
      ClimbOn(cfg.table, s.core.emergencies[e].urgency, b.core.emergencies[e].urgency, n);
      EmptyMeansDone(cfg, t, e);
      DoneWhenLatestLeft(cfg, s, t, w, e, n + 1);
    }
  }

  // ---------------------------------------------------------------- any other turn

  /** A search with nobody missing sends nobody. */
  lemma IdleSearch(cfg: Config, s: State, turn: Turn, e: nat)
    requires Invariant(cfg, s) && Searcher(s, turn) == Some(e) && e < |s.core.emergencies|
    requires Sum(s.core.emergencies[e].missing) == 0
    ensures Well(cfg, s) && Act(cfg, s, turn).core == s.core
  {
    hide Invariant, Sound, Sensible, FindRescuers, Sum, Shape, Books;
    InvariantSound(cfg, s);
    SoundIsSensible(cfg, s.core, e);
    SearchOutcome(Quest(cfg, s.core, e));
  }

  /** Whoever does not work for it yet is not sent to it. */
  lemma NobodyJoins(cfg: Config, s: State, turn: Turn, e: nat, i: nat)
    requires Invariant(cfg, s) && e < |s.core.emergencies| && Sum(s.core.emergencies[e].missing) == 0
    requires i < |s.core.twins| && s.core.twins[i].emergency != Some(e)
    ensures Well(cfg, s) && i < |Act(cfg, s, turn).core.twins|
    ensures Act(cfg, s, turn).core.twins[i].emergency != Some(e)
  {
    hide Invariant, Act, SentBy, Sum, TickAlone;
    InvariantSound(cfg, s);
    TwinStep(cfg, s, turn, i);
    if MovesWorld(s, turn) {
      TickBringsNobody(cfg.rescuers[s.core.twins[i].rtype], s.core.twins[i], e);
    } else if Searcher(s, turn) == Some(e) {
      IdleSearch(cfg, s, turn, e);
    } else if Act(cfg, s, turn).core.twins[i] != s.core.twins[i] {
      SentElsewhere(cfg, s, turn, i, Act(cfg, s, turn).core.twins[i]);
    }
  }

  lemma SentElsewhere(cfg: Config, s: State, turn: Turn, i: nat, u: Twin)
    requires SentBy(cfg, s, turn, i, u)
    ensures Searcher(s, turn).Some? && u.emergency == Searcher(s, turn)
  {
    SentFacts(cfg, s.core, Searcher(s, turn).value, i);
  }

  /** A worker's turn and an emergency it does not hold: nothing, unless it is a search that
      takes one of the emergency's twins. */
  lemma WorkElsewhere(cfg: Config, s: State, v: nat, e: nat) returns (i: nat)
    requires Invariant(cfg, s) && v < |s.workers| && e < |s.core.emergencies| && Held(s.workers[v]) != Some(e)
    ensures Well(cfg, s) && |Work(cfg, s, v).core.emergencies| == |s.core.emergencies|
    ensures |Work(cfg, s, v).workers| == |s.workers|
    ensures forall w :: 0 <= w < |s.workers| && w != v ==> Work(cfg, s, v).workers[w] == s.workers[w]
    ensures Work(cfg, s, v).core.emergencies[e] != s.core.emergencies[e] ==>
              i < |s.core.twins| == |Work(cfg, s, v).core.twins| && Member(s, e, i)
              && Work(cfg, s, v).core.twins[i] != s.core.twins[i]
  {
    hide Invariant, Sound, Look, Settled;
    InvariantParts(cfg, s);
    WorkKeepsCount(cfg, s, v);
    i := 0;
    if s.workers[v].Searching? {
      SettledWorker(cfg, s, v);
      i := LookElsewhere(cfg, s, v, s.workers[v].e, e);
    }
  }

  lemma LookElsewhere(cfg: Config, s: State, v: nat, x: nat, e: nat) returns (i: nat)
    requires Well(cfg, s) && v < |s.workers| && x < |s.core.emergencies| && e < |s.core.emergencies| && e != x
    ensures var t := Look(cfg, s, v, x);
            && |t.core.emergencies| == |s.core.emergencies| && |t.workers| == |s.workers|
            && (forall w :: 0 <= w < |s.workers| && w != v ==> t.workers[w] == s.workers[w])
            && (t.core.emergencies[e] != s.core.emergencies[e] ==>
                  i < |s.core.twins| == |t.core.twins| && Member(s, e, i) && t.core.twins[i] != s.core.twins[i])
  {
    hide Sound, Books, Sensible, FindRescuers;
    BooksOf(cfg, s.core);
    SoundIsSensible(cfg, s.core, x);
    LookKeepsCount(cfg, s, v, x);
    i := 0;
    var q := Quest(cfg, s.core, x);
    if FindRescuers(q).Found? && FindRescuers(q).core.emergencies[e] != s.core.emergencies[e] {
      i := FindRobs(q, e);
    }
  }

  /** The updater's passes and an emergency a worker holds. */
  lemma PassesElsewhere(cfg: Config, s: State, w: nat, e: nat)
    requires Invariant(cfg, s) && Attends(s, w, e) && e < |s.core.emergencies| && s.updater != Waits
    ensures Well(cfg, s) && |Upkeep(cfg, s).core.emergencies| == |s.core.emergencies|
    ensures Upkeep(cfg, s).core.emergencies[e] == s.core.emergencies[e] && Upkeep(cfg, s).workers == s.workers
  {
    hide Invariant, Sound, Settled, Conserved, Promote, Filed, QueueSpec.ExtractFirst, ValidTable;
    InvariantParts(cfg, s);
    TableValid(cfg, s.core);
    if Extracted(s.updater) == Some(e) {
      Exclusive(s, AtUpdater, AtWorker(w), e);
    }
    if s.updater == Ages {
      NotAged(cfg, s, w, e);
    }
  }

  lemma NotAged(cfg: Config, s: State, w: nat, e: nat)
    requires Conserved(s) && Attends(s, w, e) && e < |s.core.emergencies|
    ensures AgeAll(s.core.emergencies, QueueSpec.Order<nat>(s.queue))[e] == s.core.emergencies[e]
  {
    QueueDistinct(s);
    AgeAllPoint(s.core.emergencies, QueueSpec.Order<nat>(s.queue), e);
    if e in QueueSpec.Order<nat>(s.queue) {
      assert At(s, InQueue, e);
      Exclusive(s, InQueue, AtWorker(w), e);
    }
  }

  /** No other turn decides anything about an attended emergency none of whose twins is taken. */
  lemma AttendedStays(cfg: Config, s: State, turn: Turn, w: nat, e: nat)
    requires Invariant(cfg, s) && Well(cfg, s) && Attends(s, w, e) && e < |s.core.emergencies| && !MovesWorld(s, turn)
    requires s.core.emergencies[e].status == Assigned || s.core.emergencies[e].status == InProgress
    requires forall i: nat :: Member(s, e, i) && i < |Act(cfg, s, turn).core.twins| ==>
               Act(cfg, s, turn).core.twins[i] == s.core.twins[i]
    ensures e < |Act(cfg, s, turn).core.emergencies| && Attends(Act(cfg, s, turn), w, e)
    ensures var a, b := s.core.emergencies[e], Act(cfg, s, turn).core.emergencies[e]; b == a.(cond := b.cond)
  {
    hide Invariant, Well, Receive, Work, Upkeep;
    match turn
    case Receiver(etype, x, y) => ReceiveElsewhere(cfg, s, etype, x, y, e);
    case Worker(v) =>
      if v < |s.workers| {
        if v == w {
          TestAttended(cfg, s, w, e);
        } else {
          HeldOnce(cfg, s, v, w, e);
          var i := WorkElsewhere(cfg, s, v, e);
        }
      }
    case Updater => PassesElsewhere(cfg, s, w, e);
  }

  lemma HeldOnce(cfg: Config, s: State, v: nat, w: nat, e: nat)
    requires Invariant(cfg, s) && v < |s.workers| && v != w && Attends(s, w, e)
    ensures Held(s.workers[v]) != Some(e)
  {
    hide Invariant, Sound, Settled, Conserved;
    InvariantParts(cfg, s);
    if Held(s.workers[v]) == Some(e) {
      Exclusive(s, AtWorker(v), AtWorker(w), e);
    }
  }

  lemma ReceiveElsewhere(cfg: Config, s: State, etype: nat, x: int, y: int, e: nat)
    requires Well(cfg, s) && e < |s.core.emergencies|
    ensures var t := Receive(cfg, s, etype, x, y);
            e < |t.core.emergencies| && t.core.emergencies[e] == s.core.emergencies[e] && t.workers == s.workers
  {
    hide Sound, NewEmergency, Filed;
  }

  lemma TestAttended(cfg: Config, s: State, w: nat, e: nat)
    requires Well(cfg, s) && Attends(s, w, e) && e < |s.core.emergencies|
    requires s.core.emergencies[e].status == Assigned || s.core.emergencies[e].status == InProgress
    ensures var t := Work(cfg, s, w);
            && e < |t.core.emergencies| && Attends(t, w, e)
            && t.core.emergencies[e] == s.core.emergencies[e].(cond := t.core.emergencies[e].cond)
  {
    hide Sound;
  }

  /** None of the emergency's twins is taken away by the turn. */
  ghost predicate KeepsCrew(cfg: Config, b: State, turn: Turn, e: nat)
    requires Well(cfg, b)
  {
    !MovesWorld(b, turn) ==> forall i: nat :: Member(b, e, i) ==> Member(Act(cfg, b, turn), e, i)
  }

  /** Then none of them is touched. */
  lemma CrewUntouched(cfg: Config, b: State, turn: Turn, e: nat, i: nat)
    requires Invariant(cfg, b) && Well(cfg, b) && !MovesWorld(b, turn) && KeepsCrew(cfg, b, turn, e)
    requires e < |b.core.emergencies| && Sum(b.core.emergencies[e].missing) == 0 && Member(b, e, i)
    ensures i < |Act(cfg, b, turn).core.twins| && Act(cfg, b, turn).core.twins[i] == b.core.twins[i]
  {
    hide Invariant, Well, Act, SentBy, Sum;
    TwinStep(cfg, b, turn, i);
    if Act(cfg, b, turn).core.twins[i] != b.core.twins[i] {
      SentElsewhere(cfg, b, turn, i, Act(cfg, b, turn).core.twins[i]);
      IdleSearch(cfg, b, turn, e);
    }
  }

  /** Who works for the emergency after any other turn that takes nobody. */
  lemma MannedByOthers(cfg: Config, s: State, b: State, turn: Turn, e: nat, n: nat)
    requires Invariant(cfg, b) && Well(cfg, b) && !MovesWorld(b, turn) && KeepsCrew(cfg, b, turn, e)
    requires e < |b.core.emergencies| && Sum(b.core.emergencies[e].missing) == 0
    requires |b.core.twins| == |s.core.twins| && Manned(cfg, s, b, e, n)
    ensures Manned(cfg, s, Act(cfg, b, turn), e, n)
  {
    hide Invariant, Well, Act, Manned, LeftBy, KeepsCrew, Sum, Sortie.Ticks;
    forall i: nat | i < |s.core.twins| ensures Mans(cfg, s, Act(cfg, b, turn), e, n, i) {
      MannedEach(cfg, s, b, e, n, i);
      if Member(b, e, i) {
        CrewUntouched(cfg, b, turn, e, i);
      } else {
        NobodyJoins(cfg, b, turn, e, i);
      }
    }
    ManAll(cfg, s, Act(cfg, b, turn), e, n);
  }

  lemma OtherTurn(cfg: Config, s: State, b: State, turn: Turn, w: nat, e: nat, n: nat)
    requires Invariant(cfg, s) && Launched(s, w, e) && Invariant(cfg, b) && Underway(cfg, s, b, w, e, n)
    requires Well(cfg, b) && !MovesWorld(b, turn) && KeepsCrew(cfg, b, turn, e)
    ensures Underway(cfg, s, Act(cfg, b, turn), w, e, n)
  {
    hide Invariant, Well, Launched, CompletionTime, Climbed, Manned, Act, Sum, KeepsCrew;
    MannedByOthers(cfg, s, b, turn, e, n);
    var i := SomeMember(cfg, s, w, e);
    TwinsKept(cfg, b, turn, i);
    if b.core.emergencies[e].status == Completed {
      CompletedStays(cfg, b, turn, e);
    } else {
      forall i: nat | Member(b, e, i) && i < |Act(cfg, b, turn).core.twins|
        ensures Act(cfg, b, turn).core.twins[i] == b.core.twins[i]
      {
        CrewUntouched(cfg, b, turn, e, i);
      }
      AttendedStays(cfg, b, turn, w, e);
    }
  }

  // ---------------------------------------------------------------- the whole run

  /** No turn of the run takes a twin away from the emergency.  Whoever has finished with it
      may be sent anywhere. */
  ghost predicate Unrobbed(cfg: Config, s: State, turns: seq<Turn>, e: nat)
    requires Invariant(cfg, s)
    decreases |turns|
  {
    turns != [] ==>
      var b := After(cfg, s, turns[..|turns| - 1]);
      Unrobbed(cfg, s, turns[..|turns| - 1], e) && Well(cfg, b) && KeepsCrew(cfg, b, turns[|turns| - 1], e)
  }

  lemma MovesOn(cfg: Config, s: State, turns: seq<Turn>)
    requires Invariant(cfg, s) && turns != []
    ensures var rest := turns[..|turns| - 1];
            Moves(cfg, s, turns) == Moves(cfg, s, rest)
                                    + if MovesWorld(After(cfg, s, rest), turns[|turns| - 1]) then 1 else 0
  {
    hide Invariant, After;
  }

  lemma {:induction false} UnderwayThroughout(cfg: Config, s: State, turns: seq<Turn>, w: nat, e: nat)
    requires Invariant(cfg, s) && Launched(s, w, e) && Unrobbed(cfg, s, turns, e)
    ensures Underway(cfg, s, After(cfg, s, turns), w, e, Moves(cfg, s, turns))
    decreases |turns|
  {
    hide Invariant, After, Moves, Launched, Underway, Act, KeepsCrew, Well;
    if turns == [] {
      NoTurn(cfg, s);
      UnderwayAtFirst(cfg, s, w, e);
    } else {
      var rest, last := turns[..|turns| - 1], turns[|turns| - 1];
      var b, n := After(cfg, s, rest), Moves(cfg, s, rest);
      UnderwayThroughout(cfg, s, rest, w, e);
      AfterTurn(cfg, s, turns);
      MovesOn(cfg, s, turns);
      if MovesWorld(b, last) {
        WorldTurn(cfg, s, b, last, w, e, n);
      } else {
        OtherTurn(cfg, s, b, last, w, e, n);
      }
    }
  }

  // ---------------------------------------------------------------- and if a twin is taken

  /** The slot of a twin that is taken becomes empty. */
  lemma TakenChanges(cfg: Config, s: State, t: State, e: nat, i: nat)
    requires Invariant(cfg, s) && Invariant(cfg, t) && Member(s, e, i) && !Member(t, e, i)
    requires |t.core.twins| == |s.core.twins| && e < |s.core.emergencies| && e < |t.core.emergencies|
    ensures t.core.emergencies[e].slots != s.core.emergencies[e].slots
  {
    hide Invariant, Sound, Books, Shape;
    InvariantSound(cfg, s);
    InvariantSound(cfg, t);
    OffDutyFree(cfg, s, i);
    TwinPage(cfg, s.core, i);
    EmergencyPage(cfg, t.core, e);
  }

  /** A search changes the slots of another emergency only by pausing it. */
  lemma SearchPauses(cfg: Config, s: State, turn: Turn, x: nat, e: nat)
    requires Invariant(cfg, s) && Searcher(s, turn) == Some(x) && x != e && e < |s.core.emergencies|
    ensures Well(cfg, s) && e < |Act(cfg, s, turn).core.emergencies|
    ensures Act(cfg, s, turn).core.emergencies[e] == s.core.emergencies[e]
            || Act(cfg, s, turn).core.emergencies[e].status == Paused
  {
    hide Invariant, Sound, Books, Sensible, Settled, FindRescuers, Shape;
    InvariantParts(cfg, s);
    BooksOf(cfg, s.core);
    SettledWorker(cfg, s, turn.w);
    SoundIsSensible(cfg, s.core, x);
    var q := Quest(cfg, s.core, x);
    if FindRescuers(q).Found? {
      FindSizes(q);
      FindEmergencies(q, e);
    }
  }

  /** A turn that takes a twin away leaves the emergency paused. */
  lemma TheftPauses(cfg: Config, s: State, turn: Turn, e: nat)
    requires Invariant(cfg, s) && Well(cfg, s) && e < |s.core.emergencies| && !KeepsCrew(cfg, s, turn, e)
    requires Sum(s.core.emergencies[e].missing) == 0
    ensures e < |Act(cfg, s, turn).core.emergencies| && Act(cfg, s, turn).core.emergencies[e].status == Paused
  {
    hide Invariant, Well, Act, SentBy, Sum;
    var i: nat :| Member(s, e, i) && !Member(Act(cfg, s, turn), e, i);
    ActKeepsInvariant(cfg, s, turn);
    TwinStep(cfg, s, turn, i);
    SentElsewhere(cfg, s, turn, i, Act(cfg, s, turn).core.twins[i]);
    if Searcher(s, turn) == Some(e) {
      IdleSearch(cfg, s, turn, e);
    } else {
      SearchPauses(cfg, s, turn, Searcher(s, turn).value, e);
      TakenChanges(cfg, s, Act(cfg, s, turn), e, i);
    }
  }

  lemma {:induction false} RobbedNeverCompletes(cfg: Config, s: State, turns: seq<Turn>, w: nat, e: nat)
    requires Invariant(cfg, s) && Launched(s, w, e) && !Unrobbed(cfg, s, turns, e)
    ensures e < |After(cfg, s, turns).core.emergencies| && Interrupted(After(cfg, s, turns).core.emergencies[e].status)
    decreases |turns|
  {
    hide Invariant, After, Moves, Launched, Act, KeepsCrew, Well, Evolves;
    var rest, last := turns[..|turns| - 1], turns[|turns| - 1];
    AfterTurn(cfg, s, turns);
    if Unrobbed(cfg, s, rest, e) {
      UnderwayThroughout(cfg, s, rest, w, e);
      NobodyMissing(cfg, s, After(cfg, s, rest), w, e, Moves(cfg, s, rest));
      TheftPauses(cfg, After(cfg, s, rest), last, e);
    } else {
      RobbedNeverCompletes(cfg, s, rest, w, e);
      EmergencyStep(cfg, After(cfg, s, rest), last, e);
      StaysInterrupted(cfg, After(cfg, s, rest).core.emergencies[e], After(cfg, s, turns).core.emergencies[e]);
    }
  }

  lemma StaysInterrupted(cfg: Config, a: Emergency, b: Emergency)
    requires Evolves(cfg, a, b) && Interrupted(a.status)
    ensures Interrupted(b.status)
  {
  }

  lemma NobodyMissing(cfg: Config, s: State, t: State, w: nat, e: nat, n: nat)
    requires Invariant(cfg, s) && Launched(s, w, e) && Underway(cfg, s, t, w, e, n)
    ensures e < |t.core.emergencies| && Sum(t.core.emergencies[e].missing) == 0
  {
    hide Invariant, Launched, CompletionTime, Climbed, Manned, Sum;
  }

  /** The exact completion time, under every schedule.  After a search has sent everyone an
      emergency needs, it is completed if and only if none of them has been taken away again
      and the world has moved as often as it takes: until the last of its twins has arrived
      and stayed its time, and at least once after the last promotion. */
  lemma CompletesExactlyAt(cfg: Config, s: State, turns: seq<Turn>, w: nat, e: nat)
    requires Invariant(cfg, s) && Launched(s, w, e)
    ensures e < |After(cfg, s, turns).core.emergencies|
    ensures After(cfg, s, turns).core.emergencies[e].status == Completed <==>
            Unrobbed(cfg, s, turns, e) && CompletionTime(cfg, s, w, e) <= Moves(cfg, s, turns)
  {
    hide Invariant, After, Moves, Launched, Unrobbed, CompletionTime, Manned, Sum, Climbed;
    if Unrobbed(cfg, s, turns, e) {
      UnderwayThroughout(cfg, s, turns, w, e);
    } else {
      RobbedNeverCompletes(cfg, s, turns, w, e);
    }
  }

  // ---------------------------------------------------------------- at the top level

  predicate AtTop(cfg: Config, em: Emergency) {
    LevelOf(cfg, em) == |cfg.table| - 1
  }

  /** Nobody takes a twin from an emergency of the highest level. */
  lemma TopKeepsCrew(cfg: Config, s: State, turn: Turn, e: nat)
    requires Invariant(cfg, s) && e < |s.core.emergencies| && AtTop(cfg, s.core.emergencies[e])
    ensures Well(cfg, s) && KeepsCrew(cfg, s, turn, e)
    ensures e < |Act(cfg, s, turn).core.emergencies| && AtTop(cfg, Act(cfg, s, turn).core.emergencies[e])
  {
    hide Invariant, Act, SentBy, Evolves, TwinLevel, Sound;
    InvariantSound(cfg, s);
    ActKeepsInvariant(cfg, s, turn);
    EmergencyStep(cfg, s, turn, e);
    EvolvesClimbs(cfg, s.core.emergencies[e], Act(cfg, s, turn).core.emergencies[e]);
    LevelKnown(cfg, Act(cfg, s, turn), e);
    if !MovesWorld(s, turn) {
      forall i: nat | Member(s, e, i) ensures Member(Act(cfg, s, turn), e, i) {
        OffDutyFree(cfg, s, i);
        TwinStep(cfg, s, turn, i);
        if Act(cfg, s, turn).core.twins[i] != s.core.twins[i] {
          SentClimbs(cfg, s, turn, i, Act(cfg, s, turn).core.twins[i]);
          TwinLevelIs(cfg, s, i);
          LevelKnown(cfg, s, Act(cfg, s, turn).core.twins[i].emergency.value);
        }
      }
    }
  }

  lemma LevelKnown(cfg: Config, s: State, e: nat)
    requires Invariant(cfg, s) && e < |s.core.emergencies|
    ensures LevelOf(cfg, s.core.emergencies[e]) < |cfg.table|
  {
    hide Invariant, Sound, Books;
    InvariantSound(cfg, s);
    TableValid(cfg, s.core);
    LevelIsRow(cfg.table, s.core.emergencies[e].urgency.priority);
  }

  lemma {:induction false} TopUnrobbed(cfg: Config, s: State, turns: seq<Turn>, e: nat)
    requires Invariant(cfg, s) && e < |s.core.emergencies| && AtTop(cfg, s.core.emergencies[e])
    ensures Unrobbed(cfg, s, turns, e)
    ensures e < |After(cfg, s, turns).core.emergencies| && AtTop(cfg, After(cfg, s, turns).core.emergencies[e])
    decreases |turns|
  {
    hide Invariant, Act, KeepsCrew, Well, AtTop;
    if turns == [] {
    } else {
      TopUnrobbed(cfg, s, turns[..|turns| - 1], e);
      TopKeepsCrew(cfg, After(cfg, s, turns[..|turns| - 1]), turns[|turns| - 1], e);
    }
  }

  /** At the highest level nothing can come between: under every schedule the emergency is
      completed exactly from the update on at which the last of its twins leaves. */
  lemma TopCompletesExactlyAt(cfg: Config, s: State, turns: seq<Turn>, w: nat, e: nat)
    requires Invariant(cfg, s) && Launched(s, w, e) && AtTop(cfg, s.core.emergencies[e])
    ensures e < |After(cfg, s, turns).core.emergencies|
    ensures After(cfg, s, turns).core.emergencies[e].status == Completed <==>
            Latest(cfg, s, e) <= Moves(cfg, s, turns)
  {
    hide Invariant, After, Moves, Launched, Unrobbed, Latest, LeftBy;
    LaunchedClimbs(cfg, s, w, e);
    AtLeastOne(cfg, s, w, e);
    TopNotClimbing(cfg, s, w, e);
    TopUnrobbed(cfg, s, turns, e);
    CompletesExactlyAt(cfg, s, turns, w, e);
  }

  lemma TopNotClimbing(cfg: Config, s: State, w: nat, e: nat)
    requires Invariant(cfg, s) && Launched(s, w, e) && e < |s.core.emergencies| && AtTop(cfg, s.core.emergencies[e])
    ensures ValidTable(cfg.table) && Climbing(cfg.table, s.core.emergencies[e].urgency)
    ensures ClimbTime(cfg.table, s.core.emergencies[e].urgency) == 0
  {
    hide Invariant, ValidTable, Launched;
    LaunchedClimbs(cfg, s, w, e);
  }

  lemma AtLeastOne(cfg: Config, s: State, w: nat, e: nat)
    requires Invariant(cfg, s) && Launched(s, w, e)
    ensures Latest(cfg, s, e) >= 1
  {
    hide Invariant, LatestOf, Launched, LeftBy;
    var i := SomeMember(cfg, s, w, e);
    LatestIsMaximum(cfg, s, w, e, |s.core.twins|, 0);
    NotAtOnce(cfg, s, i);
  }
}
