/** A small town in which a run goes wrong twice: a twin is sent to the very cell it is
  passing through and ends up on scene elsewhere, and a search reads past its candidates.

  Emergency 0 needs both twins; emergency 1, which is more important, takes twin 0 from it.
  When the two twins have served their time and are home again, emergency 0 misses one
  rescuer but has two empty slots. */
module Pitfalls {
  import opened Common
  import opened Bresenham
  import opened PriorityTable
  import opened Urgency
  import opened Domain
  import opened Selection
  import opened Dispatcher
  import opened Accounting
  import opened Dispatch
  import opened World
  import opened Server
  import opened Runs
  import opened RunTimes
  import QueueSpec

  /** One type of rescuer with two twins that walk a cell per update; a type of emergency
      that asks for both of them, and a more important one that asks for one. */
  const TOWN := Config(SHIPPED, [RescuerType(1, 0, 0, [0, 1])],
                       [EmergencyType(1, [Request(0, 2, 1)]), EmergencyType(2, [Request(0, 1, 1)])], 5, 5)

  const NOBODY: seq<seq<nat>> := [[], [], []]

  // ---------------------------------------------------------------- what there is to see

  const THERE := Course(2, 0, 2, 0, 1, -1, 2)
  const BACK := Course(0, 0, 2, 0, -1, -1, 2)

  const AT_BASE := Twin(0, 0, 0, Idle, Aim(0, 0, 0, 0), None, INVALID_TIME, INVALID_TIME, 0)

  /** A twin on its way from x to cell (2, 0), for emergency e. */
  function OnTheWay(x: int, e: nat, left: int): Twin {
    Twin(0, x, 0, EnRoute, THERE, Some(e), 1, left, 0)
  }

  /** A twin on scene there. */
  function Busy(e: nat): Twin {
    Twin(0, 2, 0, OnScene, THERE, Some(e), 1, 1, 0)
  }

  const GOING_HOME := Twin(0, 1, 0, Returning, BACK, None, INVALID_TIME, INVALID_TIME, 1)
  const HOME := Twin(0, 0, 0, Idle, BACK, None, INVALID_TIME, INVALID_TIME, 1)

  const FIRST :=
    Emergency(0, Urgency(1, NO_PROMOTION, 60, 0), Waiting, 2, 0, [2], [None, None], 2, 2, 0, NoWaiter, map[])
  const SECOND :=
    Emergency(1, Urgency(2, NO_PROMOTION, 30, 0), Waiting, 1, 0, [1], [None], 1, 1, 0, NoWaiter, map[])

  /** The first emergency with its rescuers on the way, and robbed of one of them. */
  const STAFFED := FIRST.(status := Assigned, missing := [0], slots := [Some(0), Some(1)])
  const ROBBED := STAFFED.(status := Paused, missing := [1], slots := [None, Some(1)], paused := 1)

  const TAKEN := SECOND.(status := Assigned, missing := [0], slots := [Some(0)])

  /** Both when their twins are on scene, and when these have gone home again: the first
      emergency then still misses one rescuer, and has two empty slots. */
  const WAITING := ROBBED.(notArrived := 1, urgency := FIRST.urgency.(timeout := 59))
  const SERVED := TAKEN.(notArrived := 0, status := InProgress)
  const DONE := SERVED.(notDone := 0, slots := [None], status := Completed, log := map[0 := Service(0, 1)])

  function Forsaken(timeout: int): Emergency {
    WAITING.(notDone := 1, slots := [None, None], urgency := FIRST.urgency.(timeout := timeout),
             log := map[1 := Service(0, 1)])
  }

  function Town(twins: seq<Twin>, ems: seq<Emergency>, u: Phase, a: Worker, b: Worker): State {
    State(Core(twins, ems), None, u, [a, b], [Opened(a), Opened(b)], NOBODY, NOBODY, NOBODY)
  }

  const OPENING := Town([AT_BASE, AT_BASE], [], Waits, Ready, Ready)

  lemma TownIsValid()
    ensures ValidTable(SHIPPED) && ValidConfig(TOWN)
    ensures Level(SHIPPED, 1) == 1 && Level(SHIPPED, 2) == 2
  {
    ShippedIsValid();
    assert ValidRequests(TOWN, TOWN.types[0].requests) && ValidRequests(TOWN, TOWN.types[1].requests);
    assert Level(SHIPPED, 1 as nat) == 1 && Level(SHIPPED, 2 as nat) == 2;
  }

  /** The theorems about runs are about something: this server starts as they ask. */
  lemma TownStarts()
    ensures Initial(TOWN, OPENING)
  {
    TownIsValid();
    assert TOWN.rescuers[0].twins[0] == 0 && TOWN.rescuers[0].twins[1] == 1;
    assert NOBODY == QueueSpec.Empty<nat>(3);
  }

  /** Where a schedule takes the town from its start. */
  function Played(turns: seq<Turn>): (s: State)
    ensures Invariant(TOWN, s)
  {
    TownStarts();
    Reached(TOWN, OPENING, turns)
  }

  // ---------------------------------------------------------------- one turn after the other

  /** One more turn of the run. */
  lemma Next(turns: seq<Turn>, turn: Turn, s: State)
    requires Played(turns) == s
    ensures Well(TOWN, s) && Played(turns + [turn]) == Act(TOWN, s, turn)
  {
    hide Initial, Reached, Act;
    TownStarts();
    OneTurnOn(TOWN, OPENING, turns, turn);
  }

  lemma PopOnly(l: nat, e: nat)
    requires 1 <= l <= 2
    ensures QueueSpec.Pop<nat>(NOBODY[l := [e]]) == Some((e, NOBODY))
  {
    var q, want := NOBODY[l := [e]], QueueSpec.Always<nat>();
    assert QueueSpec.IndexOf<nat>([e], want) == 0;
    assert QueueSpec.IndexOf<nat>([], want) == 0;
    assert QueueSpec.Find<nat>(q, 2, want) == if l == 2 then QueueSpec.Find<nat>(q, 2, want) else QueueSpec.At(1, 0);
    assert QueueSpec.Find<nat>(q, 3, want) == QueueSpec.At(l, 0);
    assert QueueSpec.Take<nat>(q, QueueSpec.At(l, 0)) == NOBODY;
  }

  lemma NothingThere(want: nat -> bool)
    ensures QueueSpec.ExtractFirst<nat>(NOBODY, want) == None && QueueSpec.Order<nat>(NOBODY) == []
  {
    assert NOBODY == QueueSpec.Empty<nat>(3);
    QueueSpec.EmptyOrder<nat>(3);
    QueueSpec.ExtractFirstIsFirst<nat>(NOBODY, want);
  }

  /** With nobody waiting, the updater's passes only lead back to the next tick. */
  lemma Passes(turns: seq<Turn>, twins: seq<Twin>, ems: seq<Emergency>, a: Worker, b: Worker)
    requires Played(turns) == Town(twins, ems, Ages, a, b)
    ensures Played(turns + [Updater] + [Updater] + [Updater]) == Town(twins, ems, Waits, a, b)
  {
    hide Played, Well, QueueSpec.ExtractFirst;
    var s := Town(twins, ems, Ages, a, b);
    NothingThere(ExpiredIn(s.core));
    NothingThere(DueIn(s.core));
    Next(turns, Updater, s);
    AgesNobody(s);
    Next(turns + [Updater], Updater, Town(twins, ems, Expires, a, b));
    LooksForNobody(Town(twins, ems, Expires, a, b));
    Next(turns + [Updater] + [Updater], Updater, Town(twins, ems, Promotes, a, b));
    LooksForNobody(Town(twins, ems, Promotes, a, b));
  }

  lemma AgesNobody(s: State)
    requires Well(TOWN, s) && s.updater == Ages && s.queue == NOBODY
    ensures Act(TOWN, s, Updater) == s.(updater := Expires)
  {
    hide Sound;
    NothingThere(DueIn(s.core));
    TownIsValid();
  }

  lemma LooksForNobody(s: State)
    requires Well(TOWN, s) && s.queue == NOBODY && (s.updater == Expires || s.updater == Promotes)
    ensures Act(TOWN, s, Updater) == s.(updater := if s.updater == Expires then Promotes else Waits)
  {
    hide Sound, QueueSpec.ExtractFirst;
    NothingThere(ExpiredIn(s.core));
    NothingThere(DueIn(s.core));
    TownIsValid();
  }

  // ---------------------------------------------------------------- accepting an emergency

  lemma FirstIsNew()
    ensures ValidTable(TOWN.table) && NewEmergency(TOWN, 0, 2, 0) == FIRST && LevelOf(TOWN, FIRST) == 1
  {
    hide ValidConfig, Level;
    TownIsValid();
    assert Required([Request(0, 2, 1)]) == 2 && Counts([Request(0, 2, 1)]) == [2];
    assert FIRST.slots == seq(2, _ => None);
  }

  lemma SecondIsNew()
    ensures ValidTable(TOWN.table) && NewEmergency(TOWN, 1, 1, 0) == SECOND && LevelOf(TOWN, SECOND) == 2
  {
    hide ValidConfig, Level;
    TownIsValid();
    assert Required([Request(0, 1, 1)]) == 1 && Counts([Request(0, 1, 1)]) == [1];
    assert SECOND.slots == seq(1, _ => None);
  }

  /** A request arrives and is queued, a worker takes it and opens its slot. */
  function Arrival(w: nat, etype: nat, x: int): seq<Turn> {
    [Receiver(etype, x, 0)] + [Receiver(etype, x, 0)] + [Worker(w)] + [Worker(w)]
  }

  /** The town while the request is on its way to worker w. */
  function Accepting(s: State, em: Emergency, receiver: Option<nat>, queue: seq<seq<nat>>, w: nat, v: Worker): State
    requires w < |s.workers|
  {
    s.(core := Core(s.core.twins, s.core.emergencies + [em]), receiver := receiver, queue := queue,
       workers := s.workers[w := v])
  }

  lemma Accepts(s: State, w: nat, etype: nat, x: int, em: Emergency)
    requires Well(TOWN, s) && s.receiver == None && w < |s.workers| && s.workers[w] == Ready && s.queue == NOBODY
    requires etype < 2 && 0 <= x < 5 && ValidTable(TOWN.table) && em == NewEmergency(TOWN, etype, x, 0)
    ensures Act(TOWN, s, Receiver(etype, x, 0)) == Accepting(s, em, Some(|s.core.emergencies|), NOBODY, w, Ready)
  {
    hide Sound, NewEmergency, ValidTable;
    assert s.workers[w := Ready] == s.workers;
  }

  lemma Delivers(s: State, w: nat, turn: Turn, em: Emergency, l: nat)
    requires w < |s.workers| && turn.Receiver? && 1 <= l <= 2 && LevelOf(TOWN, em) == l
    requires Well(TOWN, Accepting(s, em, Some(|s.core.emergencies|), NOBODY, w, Ready))
    ensures Act(TOWN, Accepting(s, em, Some(|s.core.emergencies|), NOBODY, w, Ready), turn) ==
            Accepting(s, em, None, NOBODY[l := [|s.core.emergencies|]], w, Ready)
  {
    hide Sound, LevelOf;
    var n := |s.core.emergencies|;
    Joins(n, l);
    var c := Accepting(s, em, Some(n), NOBODY, w, Ready).core;
    assert c.emergencies[n] == em;
    assert Filed(TOWN, c, NOBODY, n) == NOBODY[l := [n]];
  }

  lemma Joins(n: nat, l: nat)
    requires 1 <= l <= 2
    ensures QueueSpec.Push<nat>(NOBODY, n, l) == NOBODY[l := [n]]
  {
    assert NOBODY[l] + [n] == [n];
  }

  lemma Takes(s: State, w: nat, em: Emergency, l: nat)
    requires w < |s.workers| && 1 <= l <= 2
    requires Well(TOWN, Accepting(s, em, None, NOBODY[l := [|s.core.emergencies|]], w, Ready))
    ensures Act(TOWN, Accepting(s, em, None, NOBODY[l := [|s.core.emergencies|]], w, Ready), Worker(w)) ==
            Accepting(s, em, None, NOBODY, w, Holding(|s.core.emergencies|))
  {
    hide Sound, QueueSpec.Pop;
    PopOnly(l, |s.core.emergencies|);
  }

  lemma Opens(s: State, w: nat, em: Emergency)
    requires w < |s.workers| == |s.active|
    requires Well(TOWN, Accepting(s, em, None, NOBODY, w, Holding(|s.core.emergencies|)))
    ensures Act(TOWN, Accepting(s, em, None, NOBODY, w, Holding(|s.core.emergencies|)), Worker(w)) ==
            Accepting(s, em.(status := Assigned), None, NOBODY, w, Searching(|s.core.emergencies|))
              .(active := s.active[w := Some(|s.core.emergencies|)])
  {
    hide Sound;
  }

  /** Two workers, and both their slots as they should be. */
  lemma SlotIsOpen(s: State, twins: seq<Twin>, ems: seq<Emergency>, a: Worker, b: Worker, w: nat, em: Emergency)
    requires s == Town(twins, ems, Waits, a, b) && w < 2
    ensures Accepting(s, em, None, NOBODY, w, Searching(|ems|)).(active := s.active[w := Some(|ems|)]) ==
            Town(twins, ems + [em], Waits,
                 if w == 0 then Searching(|ems|) else a, if w == 1 then Searching(|ems|) else b)
  {
  }

  lemma Call(turns: seq<Turn>, s: State, w: nat, etype: nat, x: int, em: Emergency, l: nat)
    requires Played(turns) == s
    requires s.receiver == None && w < |s.workers| == |s.active| && s.workers[w] == Ready && s.queue == NOBODY
    requires etype < 2 && 0 <= x < 5 && ValidTable(TOWN.table) && em == NewEmergency(TOWN, etype, x, 0)
    requires 1 <= l <= 2 && LevelOf(TOWN, em) == l
    ensures Played(turns + Arrival(w, etype, x)) ==
            Accepting(s, em.(status := Assigned), None, NOBODY, w, Searching(|s.core.emergencies|))
              .(active := s.active[w := Some(|s.core.emergencies|)])
  {
    hide Played, Well, Act, NewEmergency, ValidTable, Accepting, LevelOf;
    var n, receive := |s.core.emergencies|, Receiver(etype, x, 0);
    Next(turns, receive, s);
    Accepts(s, w, etype, x, em);
    Next(turns + [receive], receive, Accepting(s, em, Some(n), NOBODY, w, Ready));
    Delivers(s, w, receive, em, l);
    Next(turns + [receive] + [receive], Worker(w), Accepting(s, em, None, NOBODY[l := [n]], w, Ready));
    Takes(s, w, em, l);
    Next(turns + [receive] + [receive] + [Worker(w)], Worker(w), Accepting(s, em, None, NOBODY, w, Holding(n)));
    Opens(s, w, em);
    assert turns + Arrival(w, etype, x) == turns + [receive] + [receive] + [Worker(w)] + [Worker(w)];
  }

  // ---------------------------------------------------------------- an update of the world

  lemma CellByCell()
    ensures Step(THERE, 0, 0, 1) == StepResult(false, 1, 0, 2) && Step(THERE, 1, 0, 1) == StepResult(true, 1, 0, 2)
    ensures Step(BACK, 2, 0, 1) == StepResult(false, -1, 0, 2) && Step(BACK, 1, 0, 1) == StepResult(true, -1, 0, 2)
  {
    OneMove(THERE, Cell(0, 0, 2));
    OneMove(BACK, Cell(2, 0, 2));
  }

  lemma OneMove(c: Course, w: Cell)
    requires (w.x != c.xt || w.y != c.yt) && 2 * w.err >= -c.dy
    ensures WalkEnd(c, w, 1) == AfterX(c, w)
  {
    assert FirstMoves(c, w, 1) == [AfterX(c, w)];
    assert UnitMoves(c, AfterX(c, w), 0) == [];
  }

  /** A twin walks to (2, 0), stays one update, and walks home, a cell per update. */
  lemma Sorties(e: nat, left: int)
    ensures TickAlone(TOWN.rescuers[0], OnTheWay(0, e, left)) == OnTheWay(1, e, left)
    ensures TickAlone(TOWN.rescuers[0], OnTheWay(1, e, left)) == Busy(e)
    ensures TickAlone(TOWN.rescuers[0], Busy(e)) == GOING_HOME
    ensures TickAlone(TOWN.rescuers[0], GOING_HOME) == HOME
  {
    hide Step;
    CellByCell();
    assert Aim(2, 0, 0, 0) == BACK;
  }

  lemma TheRoster(c: Core)
    requires |c.twins| == 2
    ensures Roster(TOWN, 1) == [0, 1] && ValidIds(c, [0, 1])
  {
    assert Roster(TOWN, 0) == [];
  }

  lemma TwoTwins(c: Core)
    requires Sound(TOWN, c) && |c.twins| == 2
    ensures Shape(TOWN, c) && Sound(TOWN, TickTwin(TOWN, c, 0)) && Shape(TOWN, TickTwin(TOWN, c, 0))
    ensures ValidIds(c, [0, 1]) && TickTwins(TOWN, c, [0, 1]) == TickTwin(TOWN, TickTwin(TOWN, c, 0), 1)
  {
    hide Sound, TickTwin, Shape, Books, Rostered, Staffed, Located, ValidConfig, ValidTable, Roster, TickTwins;
    FirstTicked(c);
    SoundParts(TOWN, TickTwin(TOWN, c, 0));
    TickedLast(c, [0], 1);
    assert [0] + [1] == [0, 1];
  }

  lemma FirstTicked(c: Core)
    requires Sound(TOWN, c) && |c.twins| == 2
    ensures Shape(TOWN, c) && Sound(TOWN, TickTwin(TOWN, c, 0))
    ensures ValidIds(c, [0]) && TickTwins(TOWN, c, [0]) == TickTwin(TOWN, c, 0)
  {
    hide Sound, TickTwin, Shape, Books, Rostered, Staffed, Located, ValidConfig, ValidTable, Roster;
    SoundParts(TOWN, c);
    TickTwinKeepsSound(TOWN, c, 0);
    TickedLast(c, [], 0);
    assert [] + [0] == [0];
  }

  lemma TickedLast(c: Core, ids: seq<nat>, i: nat)
    requires Sound(TOWN, c) && ValidIds(c, ids) && i < |c.twins| && i !in ids
    ensures ValidIds(c, ids + [i]) && Shape(TOWN, TickTwins(TOWN, c, ids))
    ensures TickTwins(TOWN, c, ids + [i]) == TickTwin(TOWN, TickTwins(TOWN, c, ids), i)
  {
    hide Sound, TickTwin, Shape;
    SoundParts(TOWN, TickTwins(TOWN, c, ids));
    assert (ids + [i])[..|ids|] == ids;
  }

  lemma TwoSlots(c: Core, a: Option<nat>, b: Option<nat>)
    requires Sound(TOWN, c)
    ensures ValidTable(TOWN.table) && TickSlots(TOWN, c, [a, b]) == TickSlot(TOWN, TickSlot(TOWN, c, a), b)
  {
    hide Sound, TickSlot, ValidTable;
    TownIsValid();
    assert [a, b][..1] == [a] && [a][..0] == [];
    assert TickSlots(TOWN, c, [a]) == TickSlot(TOWN, c, a);
  }

  /** An update of the world, twin by twin and slot by slot. */
  lemma Update(turns: seq<Turn>, s: State)
    requires Played(turns) == s
    requires s.updater == Waits && |s.core.twins| == 2 && |s.active| == 2
    ensures ValidTable(TOWN.table) && Shape(TOWN, s.core) && Shape(TOWN, TickTwin(TOWN, s.core, 0))
    ensures Played(turns + [Updater]) ==
            var d := TickTwin(TOWN, TickTwin(TOWN, s.core, 0), 1);
            s.(core := TickSlot(TOWN, TickSlot(TOWN, d, s.active[0]), s.active[1]), updater := Ages)
  {
    hide Played, Sound, TickTwin, TickTwins, TickSlot, TickSlots, Roster, ValidTable;
    Next(turns, Updater, s);
    TwoTwins(s.core);
    TheRoster(s.core);
    var d := TickTwin(TOWN, TickTwin(TOWN, s.core, 0), 1);
    TickTwinKeepsSound(TOWN, TickTwin(TOWN, s.core, 0), 1);
    TwoSlots(d, s.active[0], s.active[1]);
    assert s.active == [s.active[0], s.active[1]];
  }

  /** Twins that walk on change no emergency. */
  lemma WalksOn(c: Core, i: nat, u: Twin)
    requires Shape(TOWN, c) && i < |c.twins| && c.twins[i].rtype == 0 && u == TickAlone(TOWN.rescuers[0], c.twins[i])
    requires !Finishes(c.twins[i], u) && !Arrives(c.twins[i], u)
    ensures TickTwin(TOWN, c, i) == Core(c.twins[i := u], c.emergencies)
  {
    hide Shape, TickAlone;
  }

  lemma Comes(c: Core, i: nat, u: Twin, e: nat)
    requires Shape(TOWN, c) && i < |c.twins| && c.twins[i].rtype == 0 && u == TickAlone(TOWN.rescuers[0], c.twins[i])
    requires Arrives(c.twins[i], u) && c.twins[i].emergency == Some(e) && e < |c.emergencies|
    ensures TickTwin(TOWN, c, i) ==
            Core(c.twins[i := u], c.emergencies[e := c.emergencies[e].(notArrived := c.emergencies[e].notArrived - 1)])
  {
    hide Shape, TickAlone;
  }

  lemma Goes(c: Core, i: nat, u: Twin, e: nat)
    requires Shape(TOWN, c) && i < |c.twins| && c.twins[i].rtype == 0 && u == TickAlone(TOWN.rescuers[0], c.twins[i])
    requires Finishes(c.twins[i], u) && c.twins[i].emergency == Some(e) && e < |c.emergencies|
    ensures TickTwin(TOWN, c, i) == Core(c.twins[i := u], c.emergencies[e := Released(c.emergencies[e], c.twins[i], i)])
  {
    hide Shape, TickAlone;
  }

  // ---------------------------------------------------------------- the first emergency

  /** The first emergency is accepted and its worker searches. */
  const CALLED := [] + Arrival(0, 0, 2)

  lemma FirstCall()
    ensures Played(CALLED) ==
            Town([AT_BASE, AT_BASE], [FIRST.(status := Assigned)], Waits, Searching(0), Ready)
  {
    hide Played, NewEmergency, ValidTable, LevelOf, After;
    TownStarts();
    NoTurns();
    FirstIsNew();
    Call([], OPENING, 0, 0, 2, FIRST, 1);
    SlotIsOpen(OPENING, [AT_BASE, AT_BASE], [], Ready, Ready, 0, FIRST.(status := Assigned));
  }

  lemma NoTurns()
    ensures Played([]) == OPENING
  {
    hide Initial, Invariant;
  }

  // ---------------------------------------------------------------- the searches

  /** The first of two equally good twins is taken first. */
  lemma TwoAlike(q: Quest)
    requires Sensible(q) && q.cfg == TOWN && |q.core.twins| == 2
    requires Eligible(q, 0, {}) && Eligible(q, 1, {}) && CompareTwins(q, 0, 1) >= 0
    ensures Best(q, 0, {}) == Some(0) && Best(q, 0, {0}) == Some(1)
  {
    hide Sensible, CompareTwins;
    assert TwinsOf(q, 0) == [0, 1];
    assert BestOf(q, 0, 0, {}) == None && BestOf(q, 0, 1, {}) == Some(0);
    assert BestOf(q, 0, 0, {0}) == None && BestOf(q, 0, 1, {0}) == None;
  }

  /** With such twins, the one request of an emergency is served in their order. */
  lemma OneSearch(q: Quest, n: nat)
    requires Sensible(q) && q.cfg == TOWN && |q.core.twins| == 2 && Self(q).missing == [n] && 1 <= n <= 2
    requires Best(q, 0, {}) == Some(0) && Best(q, 0, {0}) == Some(1)
    ensures Search(q) == Some(if n == 1 then [0] else [0, 1])
  {
    hide Sensible, Best;
    assert ShapeEmergency(TOWN, Self(q)) by {
      SensibleShape(q);
    }
    assert TypeOf(q, 0) == 0 && Missing(q, 0) == n && |Sought(q)| == 1;
    assert Greedy(q, 0, 0, {0}) == [] && Greedy(q, 0, 0, {0} + {1}) == [];
    assert Greedy(q, 0, 1, {0}) == [1] + [];
    assert {} + {0} == {0};
    assert Greedy(q, 0, n, {}) == if n == 1 then [0] else [0, 1];
    assert Flagged([]) == {} && SearchUpTo(q, 0) == Some([]);
    assert [] + Greedy(q, 0, n, {}) == Greedy(q, 0, n, {});
    assert SearchUpTo(q, 1) == Some([] + Greedy(q, 0, n, {}));
  }

  lemma FirstPicks(q: Quest)
    requires q == Quest(TOWN, Core([AT_BASE, AT_BASE], [FIRST.(status := Assigned)]), 0) && Sensible(q)
    ensures Search(q) == Some([0, 1])
  {
    hide Sensible, Search;
    TwoAlike(q);
    OneSearch(q, 2);
  }

  const SENT := Core([OnTheWay(0, 0, INVALID_TIME), OnTheWay(0, 0, INVALID_TIME)], [STAFFED])

  lemma FirstIsSent(c: Core, slots: seq<Option<nat>>, i: nat)
    requires Shape(TOWN, c) && i < |c.twins| && c.twins[i] == AT_BASE && i < |slots|
    requires c.emergencies == [FIRST.(status := Assigned, slots := slots)]
    ensures Assignable(TOWN, c, 0, i)
    ensures Assign(TOWN, c, 0, i, i) ==
            Core(c.twins[i := OnTheWay(0, 0, INVALID_TIME)], [FIRST.(status := Assigned, slots := slots[i := Some(i)])])
  {
    hide Shape;
    OnlyRequest(0);
    assert Aim(0, 0, 2, 0) == THERE;
  }

  lemma OnlyRequest(y: nat)
    requires y < 2
    ensures RequestOf(TOWN.types[y].requests, 0) == 0
  {
    var r := TOWN.types[y].requests;
    assert r[..|r| - 1] == [];
  }

  lemma FirstSearch(q: Quest)
    requires q == Quest(TOWN, Core([AT_BASE, AT_BASE], [FIRST.(status := Assigned)]), 0) && Sensible(q)
    ensures FindRescuers(q) == Found(SENT)
  {
    hide Sensible, Search, Assign, Shape, Assignable;
    SensibleShape(q);
    FirstPicks(q);
    SearchSendable(q);
    FirstFill(q.core);
    assert Sum([2]) == 2;
    assert NothingMissing(FIRST.(status := Assigned, slots := [Some(0), Some(1)])) == STAFFED;
  }

  lemma FirstFill(c: Core)
    requires Shape(TOWN, c) && c == Core([AT_BASE, AT_BASE], [FIRST.(status := Assigned)])
    requires Sendable(TOWN, c, 0, [0, 1])
    ensures Fill(TOWN, c, 0, 0, [0, 1]) ==
            Some(Core(SENT.twins, [FIRST.(status := Assigned, slots := [Some(0), Some(1)])]))
  {
    hide Shape, Assign, Assignable;
    var none: seq<Option<nat>>, one: seq<Option<nat>>, two: seq<Option<nat>> :=
        [None, None], [Some(0), None], [Some(0), Some(1)];
    assert none[0 := Some(0)] == one && one[1 := Some(1)] == two;
    FirstIsSent(c, none, 0);
    AssignSendable(TOWN, c, 0, 0, [0, 1]);
    var d := Assign(TOWN, c, 0, 0, 0);
    FirstIsSent(d, one, 1);
    assert [0, 1][1..] == [1];
    AssignSendable(TOWN, d, 0, 1, [1]);
    assert [1][1..] == [];
    var last := Assign(TOWN, d, 0, 1, 1);
    assert last == Core(SENT.twins, [FIRST.(status := Assigned, slots := two)]);
    assert Fill(TOWN, last, 0, 2, []) == Some(last);
    assert Fill(TOWN, d, 0, 1, [1]) == Some(last);
  }

  // ---------------------------------------------------------------- the second search

  const ONE_CELL_ON := Core([OnTheWay(1, 0, INVALID_TIME), OnTheWay(1, 0, INVALID_TIME)],
                            [STAFFED, SECOND.(status := Assigned)])
  const DIVERTED := Core([OnTheWay(1, 1, 1), OnTheWay(1, 0, INVALID_TIME)], [ROBBED, TAKEN])

  lemma SecondPicks(q: Quest)
    requires q == Quest(TOWN, ONE_CELL_ON, 1) && Sensible(q)
    ensures Search(q) == Some([0])
  {
    hide Sensible, Search, Level;
    TownIsValid();
    TwoAlike(q);
    OneSearch(q, 1);
  }

  lemma SecondRobs()
    ensures RequestOf([Request(0, 2, 1)], 0) == 0
    ensures Bereft([Request(0, 2, 1)], STAFFED, 0, false, 0) == ROBBED
  {
    OnlyRequest(0);
    var two: seq<Option<nat>>, rest: seq<Option<nat>> := [Some(0), Some(1)], [None, Some(1)];
    assert two[..1] == [Some(0)] && SlotOf(two[..1], 0) == 0 && two[0 := None] == rest;
    assert Without(two, 0) == rest;
  }

  lemma SecondIsSent(c: Core)
    requires Shape(TOWN, c) && c == ONE_CELL_ON
    ensures Assignable(TOWN, c, 1, 0)
    ensures Assign(TOWN, c, 1, 0, 0) ==
            Core(DIVERTED.twins, [ROBBED, SECOND.(status := Assigned, slots := [Some(0)])])
  {
    hide Shape, Bereft;
    OnlyRequest(0);
    OnlyRequest(1);
    SecondRobs();
    var none: seq<Option<nat>> := [None];
    assert none[0 := Some(0)] == [Some(0)];
  }

  lemma SecondSearch(q: Quest)
    requires q == Quest(TOWN, ONE_CELL_ON, 1) && Sensible(q)
    ensures FindRescuers(q) == Found(DIVERTED)
  {
    hide Sensible, Search, Assign, Shape, Assignable;
    SensibleShape(q);
    SecondPicks(q);
    SearchSendable(q);
    SecondIsSent(q.core);
    AssignSendable(TOWN, q.core, 1, 0, [0]);
    assert [0][1..] == [];
    var d := Assign(TOWN, q.core, 1, 0, 0);
    assert Fill(TOWN, d, 1, 1, []) == Some(d);
    assert Fill(TOWN, q.core, 1, 0, [0]) == Some(d);
    assert Sum([1]) == 1;
    assert NothingMissing(d.emergencies[1]) == TAKEN;
  }

  // ---------------------------------------------------------------- the run up to the theft

  /** A worker whose search succeeds goes on to wait for its rescuers. */
  lemma Finds(turns: seq<Turn>, s: State, w: nat, e: nat, d: Core)
    requires Played(turns) == s
    requires w < |s.workers| && s.workers[w] == Searching(e) && e < |s.core.emergencies|
    requires Sensible(Quest(TOWN, s.core, e)) && FindRescuers(Quest(TOWN, s.core, e)) == Found(d)
    ensures Played(turns + [Worker(w)]) == s.(core := d, workers := s.workers[w := Testing(e)])
  {
    hide Played, Sensible, FindRescuers, Sound;
    Next(turns, Worker(w), s);
  }

  lemma Searchable(turns: seq<Turn>, e: nat)
    requires e < |Played(turns).core.emergencies|
    ensures Sensible(Quest(TOWN, Played(turns).core, e))
  {
    hide Initial, Invariant, Sound, Reached, Sensible;
    InvariantSound(TOWN, Played(turns));
    SoundIsSensible(TOWN, Played(turns).core, e);
  }

  /** Its rescuers are found and sent. */
  const STAFFING := CALLED + [Worker(0)]

  lemma FirstStaffed()
    ensures Played(STAFFING) == Town(SENT.twins, [STAFFED], Waits, Testing(0), Ready)
  {
    hide Played, FindRescuers, Sensible;
    FirstCall();
    var s := Town([AT_BASE, AT_BASE], [FIRST.(status := Assigned)], Waits, Searching(0), Ready);
    Searchable(CALLED, 0);
    FirstSearch(Quest(TOWN, s.core, 0));
    Finds(CALLED, s, 0, 0, SENT);
    assert s.(core := SENT, workers := s.workers[0 := Testing(0)]) ==
           Town(SENT.twins, [STAFFED], Waits, Testing(0), Ready);
  }

  /** An update of the world, and the passes over nobody. */
  function Round(turns: seq<Turn>): seq<Turn> {
    turns + [Updater] + [Updater] + [Updater] + [Updater]
  }

  lemma FirstTick(c: Core)
    requires Shape(TOWN, c) && c == SENT && Shape(TOWN, TickTwin(TOWN, c, 0)) && ValidTable(TOWN.table)
    ensures var d := TickTwin(TOWN, TickTwin(TOWN, c, 0), 1);
            TickSlot(TOWN, TickSlot(TOWN, d, Some(0)), None) == Core(ONE_CELL_ON.twins, [STAFFED])
  {
    hide Shape, TickAlone, TickTwin, ValidTable;
    Sorties(0, INVALID_TIME);
    var u := OnTheWay(1, 0, INVALID_TIME);
    WalksOn(c, 0, u);
    WalksOn(TickTwin(TOWN, c, 0), 1, u);
    assert TickEmergency(TOWN, STAFFED) == STAFFED;
  }

  /** Both twins are one cell on their way. */
  const HALF_WAY := Round(STAFFING)

  lemma HalfWay()
    ensures Played(HALF_WAY) == Town(ONE_CELL_ON.twins, [STAFFED], Waits, Testing(0), Ready)
  {
    hide Played, Shape, TickTwin, TickSlot, ValidTable;
    FirstStaffed();
    var s := Town(SENT.twins, [STAFFED], Waits, Testing(0), Ready);
    Update(STAFFING, s);
    FirstTick(s.core);
    Passes(STAFFING + [Updater], ONE_CELL_ON.twins, [STAFFED], Testing(0), Ready);
  }

  /** The second emergency is accepted, and its worker takes a twin from the first. */
  const ROBBERY := HALF_WAY + Arrival(1, 1, 1) + [Worker(1)]

  lemma SecondCall()
    ensures Played(HALF_WAY + Arrival(1, 1, 1)) ==
            Town(ONE_CELL_ON.twins, ONE_CELL_ON.emergencies, Waits, Testing(0), Searching(1))
  {
    hide Played, NewEmergency, ValidTable, LevelOf;
    HalfWay();
    SecondIsNew();
    Call(HALF_WAY, Town(ONE_CELL_ON.twins, [STAFFED], Waits, Testing(0), Ready), 1, 1, 1, SECOND, 2);
    var s, em := Town(ONE_CELL_ON.twins, [STAFFED], Waits, Testing(0), Ready), SECOND.(status := Assigned);
    SlotIsOpen(s, ONE_CELL_ON.twins, [STAFFED], Testing(0), Ready, 1, em);
  }

  lemma Robbery()
    ensures Played(ROBBERY) == Town(DIVERTED.twins, DIVERTED.emergencies, Waits, Testing(0), Testing(1))
  {
    hide Played, FindRescuers, Sensible;
    SecondCall();
    var s := Town(ONE_CELL_ON.twins, ONE_CELL_ON.emergencies, Waits, Testing(0), Searching(1));
    Searchable(HALF_WAY + Arrival(1, 1, 1), 1);
    SecondSearch(Quest(TOWN, s.core, 1));
    Finds(HALF_WAY + Arrival(1, 1, 1), s, 1, 1, DIVERTED);
    assert s.(core := DIVERTED, workers := s.workers[1 := Testing(1)])
        == Town(DIVERTED.twins, DIVERTED.emergencies, Waits, Testing(0), Testing(1));
  }

  /** A run in which a twin is taken from one emergency to a more important one; the robbed
      emergency is paused. */
  lemma TheftHappens()
    ensures var s, t := Played(HALF_WAY + Arrival(1, 1, 1)), Played(ROBBERY);
            && |t.core.emergencies| == 2 && t.core.emergencies[0].status == Paused
            && |s.core.twins| == |t.core.twins| == 2 && TwinLevel(TOWN, s, 0) == 1 && TwinLevel(TOWN, t, 0) == 2
            && After(TOWN, s, [Worker(1)]) == t
            && OneSortie(TOWN, s, [Worker(1)], 0) && Thefts(TOWN, s, [Worker(1)], 0) == 1
  {
    hide Played, After, Invariant, Act, OneSortie, Thefts, LevelOf;
    SecondCall();
    Robbery();
    var s := Played(HALF_WAY + Arrival(1, 1, 1));
    Next(HALF_WAY + Arrival(1, 1, 1), Worker(1), s);
    OneTheft(s, Worker(1), 0);
    TwinLevels();
  }

  lemma TwinLevels()
    ensures LevelOf(TOWN, STAFFED) == 1 && LevelOf(TOWN, TAKEN) == 2
  {
    hide Level;
    TownIsValid();
  }

  lemma OneTheft(s: State, turn: Turn, i: nat)
    requires Invariant(TOWN, s) && Well(TOWN, s)
    requires var t := Act(TOWN, s, turn);
             && i < |s.core.twins| == |t.core.twins| && OnDuty(s.core.twins[i]) && OnDuty(t.core.twins[i])
             && s.core.twins[i].emergency != t.core.twins[i].emergency
    ensures After(TOWN, s, [turn]) == Act(TOWN, s, turn)
    ensures OneSortie(TOWN, s, [turn], i) && Thefts(TOWN, s, [turn], i) == 1
  {
    hide Invariant, Act, After;
    OneTurn(s, turn);
    assert [turn][..0] == [];
    assert OneSortie(TOWN, s, [], i) && Thefts(TOWN, s, [], i) == 0;
  }

  lemma OneTurn(s: State, turn: Turn)
    requires Invariant(TOWN, s)
    ensures Well(TOWN, s) && After(TOWN, s, []) == s && After(TOWN, s, [turn]) == Act(TOWN, s, turn)
  {
    hide Sound, Conserved, Settled, AtHome, Act;
    assert [turn][..0] == [];
    assert After(TOWN, s, []) == s;
  }

  // ---------------------------------------------------------------- the other updates

  const ON_SCENE := Core([Busy(1), Busy(0)], [WAITING, SERVED])

  lemma SecondTick(c: Core)
    requires Shape(TOWN, c) && c == DIVERTED && Shape(TOWN, TickTwin(TOWN, c, 0)) && ValidTable(TOWN.table)
    ensures var d := TickTwin(TOWN, TickTwin(TOWN, c, 0), 1);
            TickSlot(TOWN, TickSlot(TOWN, d, Some(0)), Some(1)) == ON_SCENE
  {
    hide Shape, TickAlone, TickTwin, ValidTable;
    Sorties(1, 1);
    Sorties(0, INVALID_TIME);
    Comes(c, 0, Busy(1), 1);
    Comes(TickTwin(TOWN, c, 0), 1, Busy(0), 0);
    assert TickEmergency(TOWN, ROBBED.(notArrived := 1)) == WAITING;
    assert TickEmergency(TOWN, TAKEN.(notArrived := 0)) == SERVED;
  }

  const LEAVING := Core([GOING_HOME, GOING_HOME], [Forsaken(58), DONE])

  lemma Emptied()
    ensures Without([None, Some(1)], 1) == [None, None]
    ensures Without([Some(0)], 0) == [None]
  {
    var rest: seq<Option<nat>>, none: seq<Option<nat>> := [None, Some(1)], [None, None];
    assert rest[..1] == [None] && [Some(0)][..0] == [];
    assert SlotOf(rest[..1], 1) == 1 && SlotOf(rest, 1) == 1;
    assert rest[1 := None] == none && [Some(0)][0 := None] == [None];
  }

  lemma ThirdTick(c: Core)
    requires Shape(TOWN, c) && c == ON_SCENE && Shape(TOWN, TickTwin(TOWN, c, 0)) && ValidTable(TOWN.table)
    ensures var d := TickTwin(TOWN, TickTwin(TOWN, c, 0), 1);
            TickSlot(TOWN, TickSlot(TOWN, d, Some(0)), Some(1)) == LEAVING
  {
    hide Shape, TickAlone, TickTwin, ValidTable, Without;
    Sorties(1, 1);
    Sorties(0, 1);
    Goes(c, 0, GOING_HOME, 1);
    Goes(TickTwin(TOWN, c, 0), 1, GOING_HOME, 0);
    Emptied();
    assert TickEmergency(TOWN, Released(SERVED, Busy(1), 0)) == DONE;
    assert TickEmergency(TOWN, Released(WAITING, Busy(0), 1)) == Forsaken(58);
  }

  lemma FourthTick(c: Core)
    requires Shape(TOWN, c) && c == LEAVING && Shape(TOWN, TickTwin(TOWN, c, 0)) && ValidTable(TOWN.table)
    ensures var d := TickTwin(TOWN, TickTwin(TOWN, c, 0), 1);
            TickSlot(TOWN, TickSlot(TOWN, d, Some(0)), Some(1)) == Core([HOME, HOME], [Forsaken(57), DONE])
  {
    hide Shape, TickAlone, TickTwin, ValidTable;
    Sorties(0, 1);
    WalksOn(c, 0, HOME);
    WalksOn(TickTwin(TOWN, c, 0), 1, HOME);
    assert TickEmergency(TOWN, Forsaken(58)) == Forsaken(57);
    assert TickEmergency(TOWN, DONE) == DONE;
  }

  // ---------------------------------------------------------------- the run after the theft

  lemma BothArrive()
    ensures Played(ROBBERY + [Updater]) ==
            Town(ON_SCENE.twins, ON_SCENE.emergencies, Ages, Testing(0), Testing(1))
  {
    hide Played, Shape, TickTwin, TickSlot, ValidTable;
    Robbery();
    var s := Town(DIVERTED.twins, DIVERTED.emergencies, Waits, Testing(0), Testing(1));
    Update(ROBBERY, s);
    SecondTick(s.core);
  }

  lemma Leaving()
    ensures Played(Round(Round(ROBBERY))) ==
            Town(LEAVING.twins, LEAVING.emergencies, Waits, Testing(0), Testing(1))
  {
    hide Played, Shape, TickTwin, TickSlot, ValidTable;
    BothArrive();
    Passes(ROBBERY + [Updater], ON_SCENE.twins, ON_SCENE.emergencies, Testing(0), Testing(1));
    var s := Town(ON_SCENE.twins, ON_SCENE.emergencies, Waits, Testing(0), Testing(1));
    Update(Round(ROBBERY), s);
    ThirdTick(s.core);
    Passes(Round(ROBBERY) + [Updater], LEAVING.twins, LEAVING.emergencies, Testing(0), Testing(1));
  }

  const HOMECOMING := Round(Round(ROBBERY)) + [Updater]

  lemma Homecoming()
    ensures Played(HOMECOMING) == Town([HOME, HOME], [Forsaken(57), DONE], Ages, Testing(0), Testing(1))
  {
    hide Played, Shape, TickTwin, TickSlot, ValidTable;
    Leaving();
    var s := Town(LEAVING.twins, LEAVING.emergencies, Waits, Testing(0), Testing(1));
    Update(Round(Round(ROBBERY)), s);
    FourthTick(s.core);
  }

  /** The worker of the first emergency sees that it is paused, and searches once more. */
  const OVERRUN := HOMECOMING + [Worker(0)] + [Worker(0)]

  lemma SearchesAgain()
    ensures Played(OVERRUN) == Town([HOME, HOME], [Forsaken(57), DONE], Ages, Searching(0), Testing(1))
  {
    hide Played, Sound;
    Homecoming();
    var c, slots := Core([HOME, HOME], [Forsaken(57), DONE]), [Some(0), Some(1)];
    var s := Town(c.twins, c.emergencies, Ages, Testing(0), Testing(1));
    Next(HOMECOMING, Worker(0), s);
    assert Act(TOWN, s, Worker(0)) == Town(c.twins, c.emergencies, Ages, Woken(0), Testing(1)).(active := slots);
    Next(HOMECOMING + [Worker(0)], Worker(0), Town(c.twins, c.emergencies, Ages, Woken(0), Testing(1)));
  }

  lemma BothWouldDo(q: Quest)
    requires q == Quest(TOWN, Core([HOME, HOME], [Forsaken(57), DONE]), 0) && Sensible(q)
    ensures !Lacking(q)
  {
    hide Sensible;
    assert ShapeEmergency(TOWN, Self(q)) by {
      SensibleShape(q);
    }
    assert TypeOf(q, 0) == 0 && Missing(q, 0) == 1 && |Sought(q)| == 1 && TwinsOf(q, 0) == [0, 1];
    assert Eligible(q, 0, {});
    assert 0 in EligibleTwins(q, 0, {});
  }

  /** A run in which a search reads past its candidates. */
  lemma OverrunHappens()
    ensures var s := Played(OVERRUN);
            && |s.workers| == 2 && s.workers[0] == Searching(0) && |s.core.emergencies| == 2
            && Sensible(Quest(TOWN, s.core, 0)) && FindRescuers(Quest(TOWN, s.core, 0)) == Overrun
  {
    hide Played, Sensible, FindRescuers, Lacking;
    SearchesAgain();
    Searchable(OVERRUN, 0);
    var q := Quest(TOWN, Core([HOME, HOME], [Forsaken(57), DONE]), 0);
    BothWouldDo(q);
    SearchOutcome(q);
    assert Sum([1]) == 1 && Free([None]) == 1;
    var none: seq<Option<nat>> := [None, None];
    assert none[..1] == [None] && Free(none) == 2;
  }

  /** In the same run the stolen twin is just passing through the cell of the emergency that
      takes it: it walks on, is on scene elsewhere, and the emergency is completed. */
  lemma PassingTwinGoesAstray()
    ensures var s, t := Played(HALF_WAY + Arrival(1, 1, 1)), Played(ROBBERY);
            && Well(TOWN, s) && Diverts(TOWN, s, Worker(1), 0)
            && |s.core.twins| == |t.core.twins| == |s.core.emergencies| == 2
            && Passing(s.core.twins[0], s.core.emergencies[1].x, s.core.emergencies[1].y)
            && t.core.twins[0].emergency == Some(1) && !Aimed(t.core, 0)
    ensures var t := Played(ROBBERY + [Updater]);
            && |t.core.twins| == |t.core.emergencies| == 2
            && t.core.twins[0].status == OnScene && t.core.twins[0].emergency == Some(1)
            && t.core.twins[0].x != t.core.emergencies[1].x
    ensures var t := Played(HOMECOMING);
            && |t.core.emergencies| == 2 && t.core.emergencies[1].status == Completed
            && t.core.emergencies[1].log.Keys == {0}
  {
    hide Played, Act, Sound;
    SecondCall();
    Robbery();
    BothArrive();
    Homecoming();
    var s := Played(HALF_WAY + Arrival(1, 1, 1));
    Next(HALF_WAY + Arrival(1, 1, 1), Worker(1), s);
    assert Act(TOWN, s, Worker(1)).core.twins[0] != s.core.twins[0];
    assert Passing(s.core.twins[0], 1, 0);
  }
}
