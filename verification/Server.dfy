/** The server as a state machine: its threads, its queues, and the atomic step each
  thread takes next (src/server/thread_functions/thread_worker.c:5-93,
  thread_updater.c:12-40 and 163-206, thread_reciever.c:9-43).

  A step is what a thread does while it holds the lock of the data it touches, or
  between two such sections.  Which thread moves next is up to the scheduler. */
module Server {
  import opened Common
  import opened PriorityTable
  import opened Urgency
  import opened Domain
  import opened Selection
  import opened Dispatcher
  import opened World
  import QueueSpec

  /** What a worker does next, and the emergency it does it for. */
  datatype Worker =
    | Ready                // will pop the queue
    | Holding(e: nat)      // has popped, will open its slot
    | Searching(e: nat)    // will search for rescuers
    | TimingOut(e: nat)    // has found too few, will give up
    | Testing(e: nat)      // will look whether it has to wait
    | Sleeping(e: nat)     // waits on the emergency's condition
    | Woken(e: nat)        // has seen the emergency paused or completed
    | Ending(e: nat)       // is not to resume, will look why
    | Storing(e: nat)      // will store the completed emergency
    | Closing              // will clear its slot once more

  /** Where the updater is in its cycle. */
  datatype Phase =
    | Waits                // for a tick, then updates the world
    | Ages                 // will age the waiting emergencies
    | Expires              // will look for one that has expired
    | Cancels(e: nat)      // has taken an expired one out
    | Promotes             // will look for one that is due for promotion
    | Boosts(e: nat)       // has taken a due one out

  /** Queues hold emergencies by their index in the store. */
  datatype State = State(
    core: Core,
    receiver: Option<nat>,
    updater: Phase,
    workers: seq<Worker>,
    active: seq<Option<nat>>,
    queue: seq<seq<nat>>,
    completed: seq<seq<nat>>,
    canceled: seq<seq<nat>>)

  /** Who takes the next step.  The receiver's step carries the request it would read. */
  datatype Turn = Receiver(etype: nat, x: int, y: int) | Worker(w: nat) | Updater

  function Held(w: Worker): Option<nat> {
    if w.Ready? || w.Closing? then None else Some(w.e)
  }

  /** What the worker's slot shows. */
  function Opened(w: Worker): Option<nat> {
    if w.Ready? || w.Closing? || w.Holding? then None else Some(w.e)
  }

  function Extracted(u: Phase): Option<nat> {
    match u
    case Cancels(e) => Some(e)
    case Boosts(e) => Some(e)
    case _ => None
  }

  /** Enough for every step to make sense. */
  ghost predicate Well(cfg: Config, s: State) {
    && Sound(cfg, s.core)
    && |s.queue| == |s.completed| == |s.canceled| == |cfg.table|
    && |s.active| == |s.workers|
  }

  function Filed(cfg: Config, c: Core, q: seq<seq<nat>>, e: nat): (r: seq<seq<nat>>)
    requires |q| > 0 && e < |c.emergencies|
    ensures |r| == |q|
  {
    QueueSpec.Push<nat>(q, e, LevelOf(cfg, c.emergencies[e]))
  }

  function Marked(c: Core, e: nat, status: EmergencyStatus): Core
    requires e < |c.emergencies|
  {
    With(c, e, c.emergencies[e].(status := status))
  }

  // ---------------------------------------------------------------- the receiver

  /** thread_reciever: a valid request becomes a waiting emergency, then enters the queue. */
  function Receive(cfg: Config, s: State, etype: nat, x: int, y: int): State
    requires Well(cfg, s)
  {
    SoundParts(cfg, s.core);
    match s.receiver
    case Some(e) =>
      if e < |s.core.emergencies| then s.(receiver := None, queue := Filed(cfg, s.core, s.queue, e)) else s
    case None =>
      if etype < |cfg.types| && InMap(cfg, x, y) then
        s.(core := Arrived(s.core, NewEmergency(cfg, etype, x, y)), receiver := Some(|s.core.emergencies|))
      else s
  }

  // ---------------------------------------------------------------- a worker

  function Becomes(s: State, w: nat, v: Worker): State
    requires w < |s.workers|
  {
    s.(workers := s.workers[w := v])
  }

  function Take(s: State, w: nat): State
    requires w < |s.workers|
  {
    match QueueSpec.Pop<nat>(s.queue)
    case None => s
    case Some((e, rest)) => Becomes(s, w, Holding(e)).(queue := rest)
  }

  /** open_slot */
  function Open(s: State, w: nat, e: nat): State
    requires w < |s.workers| == |s.active| && e < |s.core.emergencies|
  {
    Becomes(s, w, Searching(e)).(core := Marked(s.core, e, Assigned), active := s.active[w := Some(e)])
  }

  /** find_rescuers, and what the worker makes of it.  A search that would overrun its
      candidates is not taken: that step has no defined outcome in the server. */
  function Look(cfg: Config, s: State, w: nat, e: nat): State
    requires Well(cfg, s) && w < |s.workers| && e < |s.core.emergencies|
  {
    SoundIsSensible(cfg, s.core, e);
    match FindRescuers(Quest(cfg, s.core, e))
    case NotFound => Becomes(s, w, TimingOut(e))
    case Found(d) => Becomes(s, w, Testing(e)).(core := d)
    case Overrun => s
  }

  /** change_status_store_close, to the cancelled queue */
  function GiveUp(cfg: Config, s: State, w: nat, e: nat): State
    requires Well(cfg, s) && w < |s.workers| && e < |s.core.emergencies|
  {
    SoundParts(cfg, s.core);
    Becomes(s, w, Closing).(core := Marked(s.core, e, TimedOut), active := s.active[w := None],
                            canceled := Filed(cfg, s.core, s.canceled, e))
  }

  /** The waiting loop: leave it when the emergency is paused or completed, else sleep. */
  function Test(s: State, w: nat, e: nat): State
    requires w < |s.workers| && e < |s.core.emergencies|
  {
    var em := s.core.emergencies[e];
    if em.status == Paused || em.status == Completed then
      Becomes(s, w, Woken(e)).(core := With(s.core, e, em.(cond := NoWaiter)))
    else
      Becomes(s, w, Sleeping(e)).(core := With(s.core, e, em.(cond := Parked)))
  }

  /** A paused emergency is searched for again; a completed one is stored.  Anything else
      would be dropped (nothing is cancelled before the server stops). */
  function Resume(s: State, w: nat, e: nat): State
    requires w < |s.workers| && e < |s.core.emergencies|
  {
    Becomes(s, w, if s.core.emergencies[e].status == Paused then Searching(e) else Ending(e))
  }

  function Finish(s: State, w: nat, e: nat): State
    requires w < |s.workers| && e < |s.core.emergencies|
  {
    Becomes(s, w, if s.core.emergencies[e].status == Completed then Storing(e) else Closing)
  }

  /** change_status_store_close, to the completed queue */
  function Store(cfg: Config, s: State, w: nat, e: nat): State
    requires Well(cfg, s) && w < |s.workers| && e < |s.core.emergencies|
  {
    SoundParts(cfg, s.core);
    Becomes(s, w, Closing).(core := Marked(s.core, e, Completed), active := s.active[w := None],
                            completed := Filed(cfg, s.core, s.completed, e))
  }

  function WorkOn(cfg: Config, s: State, w: nat, e: nat): State
    requires Well(cfg, s) && w < |s.workers| && e < |s.core.emergencies|
  {
    match s.workers[w]
    case Ready => s
    case Holding(_) => Open(s, w, e)
    case Searching(_) => Look(cfg, s, w, e)
    case TimingOut(_) => GiveUp(cfg, s, w, e)
    case Testing(_) => Test(s, w, e)
    case Sleeping(_) => Test(s, w, e)
    case Woken(_) => Resume(s, w, e)
    case Ending(_) => Finish(s, w, e)
    case Storing(_) => Store(cfg, s, w, e)
    case Closing => s
  }

  /** thread_worker */
  function Work(cfg: Config, s: State, w: nat): State
    requires Well(cfg, s) && w < |s.workers|
  {
    if s.workers[w].Ready? then Take(s, w)
    else if s.workers[w].Closing? then Becomes(s, w, Ready).(active := s.active[w := None])
    else if s.workers[w].e < |s.core.emergencies| then WorkOn(cfg, s, w, s.workers[w].e)
    else s
  }

  // ---------------------------------------------------------------- the updater

  function ExpiredIn(c: Core): nat -> bool {
    (e: nat) => e < |c.emergencies| && Expired(c.emergencies[e].urgency)
  }

  function DueIn(c: Core): nat -> bool {
    (e: nat) => e < |c.emergencies| && Due(c.emergencies[e].urgency)
  }

  /** thread_updater */
  function Upkeep(cfg: Config, s: State): State
    requires Well(cfg, s)
  {
    SoundParts(cfg, s.core);
    match s.updater
    case Waits => s.(core := TickWorld(cfg, s.core, s.active), updater := Ages)
    case Ages =>
      s.(core := Core(s.core.twins, AgeAll(s.core.emergencies, QueueSpec.Order<nat>(s.queue))), updater := Expires)
    case Expires =>
      (match QueueSpec.ExtractFirst<nat>(s.queue, ExpiredIn(s.core))
       case None => s.(updater := Promotes)
       case Some((e, rest)) => s.(updater := Cancels(e), queue := rest))
    case Cancels(e) =>
      if e < |s.core.emergencies| then
        s.(core := Marked(s.core, e, TimedOut), updater := Expires, canceled := Filed(cfg, s.core, s.canceled, e))
      else s
    case Promotes =>
      (match QueueSpec.ExtractFirst<nat>(s.queue, DueIn(s.core))
       case None => s.(updater := Waits)
       case Some((e, rest)) => s.(updater := Boosts(e), queue := rest))
    case Boosts(e) =>
      if e < |s.core.emergencies| then
        var em := s.core.emergencies[e];
        var d := With(s.core, e, em.(urgency := Promote(cfg.table, em.urgency)));
        s.(core := d, updater := Promotes, queue := Filed(cfg, d, s.queue, e))
      else s
  }

  function Act(cfg: Config, s: State, turn: Turn): State
    requires Well(cfg, s)
  {
    match turn
    case Receiver(etype, x, y) => Receive(cfg, s, etype, x, y)
    case Worker(w) => if w < |s.workers| then Work(cfg, s, w) else s
    case Updater => Upkeep(cfg, s)
  }

  // ---------------------------------------------------------------- where an emergency is

  datatype Place = InQueue | AtReceiver | AtUpdater | AtWorker(w: nat) | InCompleted | InCanceled

  /** How often a queue lists an emergency. */
  ghost function Entries(q: seq<seq<nat>>, e: nat): nat {
    multiset(QueueSpec.Order<nat>(q))[e]
  }

  ghost predicate At(s: State, p: Place, e: nat) {
    match p
    case InQueue => Entries(s.queue, e) > 0
    case AtReceiver => s.receiver == Some(e)
    case AtUpdater => Extracted(s.updater) == Some(e)
    case AtWorker(w) => w < |s.workers| && Held(s.workers[w]) == Some(e)
    case InCompleted => Entries(s.completed, e) > 0
    case InCanceled => Entries(s.canceled, e) > 0
  }

  function Here(o: Option<nat>, e: nat): nat {
    if o == Some(e) then 1 else 0
  }

  function Carriers(ws: seq<Worker>, e: nat): nat {
    if ws == [] then 0 else Carriers(ws[..|ws| - 1], e) + Here(Held(ws[|ws| - 1]), e)
  }

  /** How many times the emergency is anywhere. */
  ghost function Copies(s: State, e: nat): nat {
    Entries(s.queue, e) + Here(s.receiver, e) + Here(Extracted(s.updater), e) + Carriers(s.workers, e)
    + Entries(s.completed, e) + Entries(s.canceled, e)
  }

  /** Every accepted emergency is in exactly one place, once. */
  ghost predicate Conserved(s: State) {
    forall e: nat :: Copies(s, e) == if e < |s.core.emergencies| then 1 else 0
  }

  // ---------------------------------------------------------------- what each place implies

  predicate Calm(em: Emergency) {
    em.status == Waiting && em.cond == NoWaiter
  }

  /** The timers of a waiting emergency at each point of the updater's cycle. */
  predicate Patient(u: Phase, t: Urgency) {
    match u
    case Waits => Rested(t)
    case Ages => Rested(t)
    case Expires => Aged(t)
    case Cancels(_) => Aged(t)
    case Promotes => Aged(t) && !Expired(t)
    case Boosts(_) => Aged(t) && !Expired(t)
  }

  /** Completed, and past any promotion. */
  predicate Over(em: Emergency) {
    em.status == Completed && em.urgency.promotion == NO_PROMOTION
  }

  predicate Begun(em: Emergency) {
    em.status == Assigned || em.status == InProgress || em.status == Paused || Over(em)
  }

  predicate WorkerSuits(w: Worker, em: Emergency) {
    match w
    case Ready => true
    case Holding(_) => Calm(em)
    case Searching(_) =>
      && em.cond == NoWaiter
      && (em.status == Paused || ((em.status == Assigned || Over(em)) && Unstaffed(em)))
    case TimingOut(_) =>
      && em.cond == NoWaiter && Sum(em.missing) > 0
      && (em.status == Paused || (em.status == Assigned && Unstaffed(em)))
    case Testing(_) => em.cond == NoWaiter && Begun(em)
    case Sleeping(_) =>
      && em.cond != NoWaiter && Begun(em)
      && (em.cond == Parked ==> em.status != Paused && em.status != Completed)
    case Woken(_) => em.cond == NoWaiter && (em.status == Paused || Over(em))
    case Ending(_) => em.cond == NoWaiter && Over(em)
    case Storing(_) => em.cond == NoWaiter && Over(em)
    case Closing => true
  }

  /** With the priority of its type, and timers that have not run. */
  ghost predicate JustAccepted(cfg: Config, em: Emergency) {
    && ValidTable(cfg.table) && em.etype < |cfg.types|
    && em.urgency == Fresh(cfg.table, cfg.types[em.etype].priority)
  }

  ghost predicate UpdaterSuits(cfg: Config, u: Phase, em: Emergency) {
    && Calm(em) && Aged(em.urgency) && Placed(cfg.table, em.urgency)
    && (u.Cancels? ==> Expired(em.urgency))
    && (u.Boosts? ==> !Expired(em.urgency) && Due(em.urgency))
  }

  ghost predicate Suits(cfg: Config, s: State, p: Place, em: Emergency) {
    match p
    case InQueue => Calm(em) && Patient(s.updater, em.urgency) && Placed(cfg.table, em.urgency)
    case AtReceiver => Calm(em) && Rested(em.urgency) && Placed(cfg.table, em.urgency) && JustAccepted(cfg, em)
    case AtUpdater => UpdaterSuits(cfg, s.updater, em)
    case AtWorker(w) => w < |s.workers| && WorkerSuits(s.workers[w], em) && Climbing(cfg.table, em.urgency)
    case InCompleted => Over(em) && em.cond == NoWaiter
    case InCanceled => (em.status == TimedOut || em.status == Paused) && em.cond == NoWaiter
  }

  ghost predicate Settled(cfg: Config, s: State) {
    forall p: Place, e: nat :: At(s, p, e) ==> e < |s.core.emergencies| && Suits(cfg, s, p, s.core.emergencies[e])
  }

  /** Each worker's slot shows the emergency it works on. */
  predicate SlotsShow(s: State) {
    |s.active| == |s.workers| && forall w :: 0 <= w < |s.workers| ==> s.active[w] == Opened(s.workers[w])
  }

  /** Every waiting emergency is in the list of its own level. */
  ghost predicate AtHome(cfg: Config, c: Core, q: seq<seq<nat>>) {
    forall l, k :: 0 <= l < |q| && 0 <= k < |q[l]| ==>
      q[l][k] < |c.emergencies| && LevelOf(cfg, c.emergencies[q[l][k]]) == l
  }

  ghost predicate Invariant(cfg: Config, s: State) {
    Well(cfg, s) && Conserved(s) && Settled(cfg, s) && SlotsShow(s) && AtHome(cfg, s.core, s.queue)
  }

  /** The server before its threads start: every twin idle on its base, nothing received. */
  ghost predicate Initial(cfg: Config, s: State) {
    && ValidConfig(cfg) && Rostered(cfg, s.core) && Staffed(cfg, s.core)
    && (forall i :: 0 <= i < |s.core.twins| ==>
          var t := s.core.twins[i];
          && t.rtype < |cfg.rescuers| && t.status == Idle && t.emergency == None
          && t.x == t.course.xt == cfg.rescuers[t.rtype].x && t.y == t.course.yt == cfg.rescuers[t.rtype].y
          && t.course.dx == 0 && t.course.dy == 0)
    && s.core.emergencies == []
    && s.receiver == None && s.updater == Waits
    && |s.active| == |s.workers|
    && (forall w :: 0 <= w < |s.workers| ==> s.workers[w] == Ready && s.active[w] == None)
    && s.queue == s.completed == s.canceled == QueueSpec.Empty<nat>(|cfg.table|)
  }
}
