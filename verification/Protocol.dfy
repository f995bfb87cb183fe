/** Every step of every thread keeps the server's invariant. */
module Protocol {
  import opened Common
  import opened PriorityTable
  import opened Urgency
  import opened Domain
  import opened Selection
  import opened Dispatcher
  import opened Accounting
  import Ledger
  import opened Dispatch
  import opened World
  import opened Server
  import opened Custody
  import QueueSpec

  // ---------------------------------------------------------------- a worker's step

  /** What a worker's step can do to the emergency of another place. */
  predicate Spared(a: Emergency, b: Emergency) {
    Softened(a, b) && (b != a ==> a.status != Waiting && a.status != Completed)
  }

  lemma SparedSuits(cfg: Config, s: State, t: State, p: Place, a: Emergency, b: Emergency)
    requires Suits(cfg, s, p, a) && Spared(a, b) && t.updater == s.updater
    requires p.AtWorker? ==> p.w < |s.workers| == |t.workers| && t.workers[p.w] == s.workers[p.w]
    ensures Suits(cfg, t, p, b)
  {
  }

  /** What worker w may do with emergency x, which it holds. */
  ghost predicate OwnStep(cfg: Config, s: State, t: State, w: nat, x: nat) {
    && w < |s.workers| == |t.workers| && Held(s.workers[w]) == Some(x)
    && t.workers == s.workers[w := t.workers[w]]
    && t.receiver == s.receiver && t.updater == s.updater && t.queue == s.queue
    && |t.core.emergencies| == |s.core.emergencies| && x < |s.core.emergencies|
    && |s.completed| > 0 && |s.canceled| > 0
    && (forall y :: 0 <= y < |s.core.emergencies| && y != x ==> Spared(s.core.emergencies[y], t.core.emergencies[y]))
    && var em := t.core.emergencies[x];
       && em.urgency == s.core.emergencies[x].urgency
       && (Held(t.workers[w]) == None || (Held(t.workers[w]) == Some(x) && WorkerSuits(t.workers[w], em)))
       && (t.completed == s.completed
             || (t.completed == Filed(cfg, s.core, s.completed, x) && Suits(cfg, t, InCompleted, em)))
       && (t.canceled == s.canceled
             || (t.canceled == Filed(cfg, s.core, s.canceled, x) && Suits(cfg, t, InCanceled, em)))
  }

  lemma OwnStepElsewhere(cfg: Config, s: State, t: State, w: nat, x: nat, p: Place, e: nat)
    requires OwnStep(cfg, s, t, w, x) && e != x && At(t, p, e)
    ensures At(s, p, e)
  {
    EntriesPush(cfg, s.core, s.completed, x, e);
    EntriesPush(cfg, s.core, s.canceled, x, e);
  }

  lemma OwnStepSettles(cfg: Config, s: State, t: State, w: nat, x: nat)
    requires Conserved(s) && Settled(cfg, s) && OwnStep(cfg, s, t, w, x)
    ensures Settled(cfg, t)
  {
    forall p: Place, e: nat | At(t, p, e) ensures e < |t.core.emergencies| && Suits(cfg, t, p, t.core.emergencies[e]) {
      if e == x {
        OwnPlace(cfg, s, t, w, x, p);
      } else {
        OwnStepElsewhere(cfg, s, t, w, x, p, e);
        SparedSuits(cfg, s, t, p, s.core.emergencies[e], t.core.emergencies[e]);
      }
    }
  }

  lemma OwnPlace(cfg: Config, s: State, t: State, w: nat, x: nat, p: Place)
    requires Conserved(s) && Settled(cfg, s) && OwnStep(cfg, s, t, w, x) && At(t, p, x)
    ensures Suits(cfg, t, p, t.core.emergencies[x])
  {
    hide Conserved;
    assert At(s, AtWorker(w), x);
    assert Suits(cfg, s, AtWorker(w), s.core.emergencies[x]);
    if p != AtWorker(w) && At(s, p, x) {
      Exclusive(s, p, AtWorker(w), x);
    }
  }

  lemma SettledWorker(cfg: Config, s: State, w: nat)
    requires Settled(cfg, s) && w < |s.workers| && Held(s.workers[w]).Some?
    ensures s.workers[w].e < |s.core.emergencies| && WorkerSuits(s.workers[w], s.core.emergencies[s.workers[w].e])
  {
    assert At(s, AtWorker(w), s.workers[w].e);
  }

  lemma TakeSettles(cfg: Config, s: State, w: nat)
    requires Settled(cfg, s) && w < |s.workers| && s.workers[w].Ready?
    ensures Settled(cfg, Take(s, w))
  {
    var t := Take(s, w);
    if QueueSpec.Pop<nat>(s.queue).Some? {
      forall p: Place, e: nat | At(t, p, e)
        ensures e < |t.core.emergencies| && Suits(cfg, t, p, t.core.emergencies[e])
      {
        EntriesExtract(s.queue, QueueSpec.Always<nat>(), e);
        assert At(s, if p == AtWorker(w) then InQueue else p, e);
      }
    }
  }

  /** A step that changes no emergency but the worker's own. */
  lemma OwnStepAlone(cfg: Config, s: State, t: State, w: nat, x: nat)
    requires w < |s.workers| == |t.workers| && Held(s.workers[w]) == Some(x)
    requires t.workers == s.workers[w := t.workers[w]]
    requires t.receiver == s.receiver && t.updater == s.updater && t.queue == s.queue
    requires x < |s.core.emergencies| && |s.completed| > 0 && |s.canceled| > 0
    requires |t.core.emergencies| == |s.core.emergencies|
    requires t.core.emergencies == s.core.emergencies[x := t.core.emergencies[x]]
    requires
      var em := t.core.emergencies[x];
      && em.urgency == s.core.emergencies[x].urgency
      && (Held(t.workers[w]) == None || (Held(t.workers[w]) == Some(x) && WorkerSuits(t.workers[w], em)))
      && (t.completed == s.completed
            || (t.completed == Filed(cfg, s.core, s.completed, x) && Suits(cfg, t, InCompleted, em)))
      && (t.canceled == s.canceled
            || (t.canceled == Filed(cfg, s.core, s.canceled, x) && Suits(cfg, t, InCanceled, em)))
    ensures OwnStep(cfg, s, t, w, x)
  {
  }

  /** What the worker finds of its own emergency after a search. */
  lemma FoundOwnStep(cfg: Config, s: State, w: nat, e: nat)
    requires Well(cfg, s) && Settled(cfg, s) && w < |s.workers| && s.workers[w] == Searching(e)
    requires e < |s.core.emergencies| && Sensible(Quest(cfg, s.core, e)) && FindRescuers(Quest(cfg, s.core, e)).Found?
    ensures OwnStep(cfg, s, Look(cfg, s, w, e), w, e)
  {
    hide Sound, Books, Sensible, Settled, FindRescuers, Softened, Sum, ValidTable, ValidConfig, Shape, Rostered,
        Staffed, Located;
    SettledWorker(cfg, s, w);
    SoundParts(cfg, s.core);
    var q, t := Quest(cfg, s.core, e), Look(cfg, s, w, e);
    FindSizes(q);
    FindEmergencies(q, e);
    forall y | 0 <= y < |s.core.emergencies| && y != e ensures Spared(s.core.emergencies[y], t.core.emergencies[y]) {
      FindEmergencies(q, y);
      SoftenedSelf(s.core.emergencies[y]);
    }
  }

  lemma LookOwnStep(cfg: Config, s: State, w: nat, e: nat)
    requires Well(cfg, s) && Settled(cfg, s) && w < |s.workers| && s.workers[w] == Searching(e)
    requires e < |s.core.emergencies|
    ensures Look(cfg, s, w, e) == s || OwnStep(cfg, s, Look(cfg, s, w, e), w, e)
  {
    hide Sound, Books, Sensible, FindRescuers, OwnStep, Settled, Sum;
    SoundIsSensible(cfg, s.core, e);
    TableValid(cfg, s.core);
    BooksOf(cfg, s.core);
    var q := Quest(cfg, s.core, e);
    if FindRescuers(q).Found? {
      FoundOwnStep(cfg, s, w, e);
    } else if FindRescuers(q).NotFound? {
      NotFoundMisses(q);
      SettledWorker(cfg, s, w);
      OwnStepAlone(cfg, s, Look(cfg, s, w, e), w, e);
    }
  }

  /** A search fails only for want of rescuers, so the emergency cannot complete meanwhile. */
  lemma NotFoundMisses(q: Quest)
    requires Sensible(q) && Books(q.cfg, q.core) && FindRescuers(q).NotFound?
    ensures Sum(Self(q).missing) > 0 && Self(q).status != Completed
  {
    hide Sensible, Books;
    SensibleShape(q);
    EmergencyPage(q.cfg, q.core, q.e);
    Ledger.SumNonNegative(Self(q).missing);
  }

  lemma OpenOwnStep(cfg: Config, s: State, w: nat, e: nat)
    requires Well(cfg, s) && Settled(cfg, s) && w < |s.workers| && s.workers[w] == Holding(e)
             && e < |s.core.emergencies|
    ensures OwnStep(cfg, s, Open(s, w, e), w, e)
  {
    hide Books, Sound, Settled, OwnStep;
    TableValid(cfg, s.core);
    SettledWorker(cfg, s, w);
    BooksOf(cfg, s.core);
    WaitingUnstaffed(cfg, s.core, e);
    OwnStepAlone(cfg, s, Open(s, w, e), w, e);
  }

  /** An emergency that has not begun misses everyone. */
  lemma WaitingUnstaffed(cfg: Config, c: Core, e: nat)
    requires Books(cfg, c) && e < |c.emergencies| && c.emergencies[e].status == Waiting
    ensures Unstaffed(c.emergencies[e])
  {
    hide Books;
    EmergencyPage(cfg, c, e);
    forall i: nat | i < |c.twins| && c.twins[i].emergency == Some(e) ensures false {
      TwinPage(cfg, c, i);
    }
    assert Crew(c.twins, e, None, EnRoute) == {} && Crew(c.twins, e, None, OnScene) == {};
  }

  lemma FileOwnStep(cfg: Config, s: State, w: nat, e: nat)
    requires Well(cfg, s) && Settled(cfg, s) && w < |s.workers| && e < |s.core.emergencies|
    ensures s.workers[w] == TimingOut(e) ==> OwnStep(cfg, s, GiveUp(cfg, s, w, e), w, e)
    ensures s.workers[w] == Storing(e) ==> OwnStep(cfg, s, Store(cfg, s, w, e), w, e)
  {
    hide Sound, Settled, OwnStep, Filed, Sum;
    TableValid(cfg, s.core);
    if s.workers[w] == TimingOut(e) {
      SettledWorker(cfg, s, w);
      OwnStepAlone(cfg, s, GiveUp(cfg, s, w, e), w, e);
    } else if s.workers[w] == Storing(e) {
      SettledWorker(cfg, s, w);
      OwnStepAlone(cfg, s, Store(cfg, s, w, e), w, e);
    }
  }

  lemma TestOwnStep(cfg: Config, s: State, w: nat, e: nat)
    requires Well(cfg, s) && Settled(cfg, s) && w < |s.workers| && e < |s.core.emergencies|
    requires s.workers[w] == Testing(e) || s.workers[w] == Sleeping(e)
    ensures OwnStep(cfg, s, Test(s, w, e), w, e)
  {
    hide Sound, Settled, OwnStep, Filed, Suits, Sum;
    TableValid(cfg, s.core);
    SettledWorker(cfg, s, w);
    OwnStepAlone(cfg, s, Test(s, w, e), w, e);
  }

  lemma WakeOwnStep(cfg: Config, s: State, w: nat, e: nat)
    requires Well(cfg, s) && Settled(cfg, s) && w < |s.workers| && e < |s.core.emergencies|
    ensures s.workers[w] == Woken(e) ==> OwnStep(cfg, s, Resume(s, w, e), w, e)
    ensures s.workers[w] == Ending(e) ==> OwnStep(cfg, s, Finish(s, w, e), w, e)
  {
    hide Sound, Settled, OwnStep;
    TableValid(cfg, s.core);
    if s.workers[w] == Woken(e) {
      SettledWorker(cfg, s, w);
      OwnStepAlone(cfg, s, Resume(s, w, e), w, e);
    } else if s.workers[w] == Ending(e) {
      SettledWorker(cfg, s, w);
      OwnStepAlone(cfg, s, Finish(s, w, e), w, e);
    }
  }

  lemma WorkOnOwnStep(cfg: Config, s: State, w: nat)
    requires Well(cfg, s) && Settled(cfg, s) && w < |s.workers| && Held(s.workers[w]).Some?
    ensures Work(cfg, s, w) == s || OwnStep(cfg, s, Work(cfg, s, w), w, s.workers[w].e)
  {
    hide Sound, Settled, OwnStep, Open, Look, GiveUp, Test, Resume, Finish, Store;
    SettledWorker(cfg, s, w);
    var e := s.workers[w].e;
    match s.workers[w]
    case Ready =>
    case Holding(_) => OpenOwnStep(cfg, s, w, e);
    case Searching(_) => LookOwnStep(cfg, s, w, e);
    case TimingOut(_) => FileOwnStep(cfg, s, w, e);
    case Testing(_) => TestOwnStep(cfg, s, w, e);
    case Sleeping(_) => TestOwnStep(cfg, s, w, e);
    case Woken(_) => WakeOwnStep(cfg, s, w, e);
    case Ending(_) => WakeOwnStep(cfg, s, w, e);
    case Storing(_) => FileOwnStep(cfg, s, w, e);
    case Closing =>
  }

  lemma WorkSettles(cfg: Config, s: State, w: nat)
    requires Well(cfg, s) && Conserved(s) && Settled(cfg, s) && w < |s.workers|
    ensures Settled(cfg, Work(cfg, s, w))
  {
    hide Conserved, Sound, OwnStep, FindRescuers;
    var t := Work(cfg, s, w);
    if s.workers[w].Ready? {
      TakeSettles(cfg, s, w);
    } else if s.workers[w].Closing? {
      forall p: Place, e: nat | At(t, p, e)
        ensures e < |t.core.emergencies| && Suits(cfg, t, p, t.core.emergencies[e])
      {
        assert At(s, p, e);
      }
    } else {
      WorkOnOwnStep(cfg, s, w);
      if t != s {
        OwnStepSettles(cfg, s, t, w, s.workers[w].e);
      }
    }
  }

  /** The world stays sound. */
  lemma WorkKeepsWell(cfg: Config, s: State, w: nat)
    requires Well(cfg, s) && Settled(cfg, s) && w < |s.workers|
    ensures Well(cfg, Work(cfg, s, w))
  {
    hide Sound, Settled, FindRescuers, Conserved, WorkerSuits;
    if Held(s.workers[w]).Some? {
      SettledWorker(cfg, s, w);
      var e := s.workers[w].e;
      var em := s.core.emergencies[e];
      match s.workers[w]
      case Ready =>
      case Holding(_) => TouchKeepsSound(cfg, s.core, e, em.(status := Assigned));
      case Searching(_) => LookKeepsWell(cfg, s, w, e);
      case TimingOut(_) => TouchKeepsSound(cfg, s.core, e, em.(status := TimedOut));
      case Testing(_) => TestKeepsSound(cfg, s.core, e);
      case Sleeping(_) => TestKeepsSound(cfg, s.core, e);
      case Woken(_) =>
      case Ending(_) =>
      case Storing(_) => StoreKeepsSound(cfg, s, w, e);
      case Closing =>
    }
  }

  lemma TestKeepsSound(cfg: Config, c: Core, e: nat)
    requires Sound(cfg, c) && e < |c.emergencies|
    ensures Sound(cfg, With(c, e, c.emergencies[e].(cond := NoWaiter)))
    ensures Sound(cfg, With(c, e, c.emergencies[e].(cond := Parked)))
  {
    hide Sound;
    TouchKeepsSound(cfg, c, e, c.emergencies[e].(cond := NoWaiter));
    TouchKeepsSound(cfg, c, e, c.emergencies[e].(cond := Parked));
  }

  lemma StoreKeepsSound(cfg: Config, s: State, w: nat, e: nat)
    requires Well(cfg, s) && Settled(cfg, s) && w < |s.workers| && s.workers[w] == Storing(e)
             && e < |s.core.emergencies|
    ensures Sound(cfg, Marked(s.core, e, Completed))
  {
    hide Sound, Settled;
    SettledWorker(cfg, s, w);
    assert Marked(s.core, e, Completed) == s.core;
  }

  lemma LookKeepsWell(cfg: Config, s: State, w: nat, e: nat)
    requires Well(cfg, s) && Settled(cfg, s) && w < |s.workers| && s.workers[w] == Searching(e)
    requires e < |s.core.emergencies|
    ensures Well(cfg, Look(cfg, s, w, e))
  {
    hide Sound, Settled, FindRescuers;
    SettledWorker(cfg, s, w);
    FindKeepsSound(Quest(cfg, s.core, e));
  }

  lemma WorkKeepsSlots(cfg: Config, s: State, w: nat)
    requires Well(cfg, s) && Settled(cfg, s) && SlotsShow(s) && w < |s.workers|
    ensures SlotsShow(Work(cfg, s, w))
  {
    hide Sound, FindRescuers, Settled;
    if s.workers[w].Ending? {
      SettledWorker(cfg, s, w);
    }
  }

  // ---------------------------------------------------------------- the levels of the waiting queue

  lemma Queued(q: seq<seq<nat>>, l: nat, k: nat)
    requires l < |q| && k < |q[l]|
    ensures Entries(q, q[l][k]) > 0
  {
    QueueSpec.RankIsOrder<nat>(q, QueueSpec.At(l, k));
    assert q[l][k] in QueueSpec.Order<nat>(q);
  }

  lemma PushAtHome(cfg: Config, c: Core, q: seq<seq<nat>>, e: nat)
    requires ValidTable(cfg.table) && |q| == |cfg.table| && AtHome(cfg, c, q) && e < |c.emergencies|
    ensures AtHome(cfg, c, Filed(cfg, c, q, e))
  {
    LevelIsRow(cfg.table, c.emergencies[e].urgency.priority);
  }

  lemma ExtractAtHome(cfg: Config, c: Core, q: seq<seq<nat>>, want: nat -> bool)
    requires AtHome(cfg, c, q) && QueueSpec.ExtractFirst<nat>(q, want).Some?
    ensures AtHome(cfg, c, QueueSpec.ExtractFirst<nat>(q, want).value.1)
  {
  }

  /** Whoever waits in the queue keeps its priority. */
  lemma StillAtHome(cfg: Config, c: Core, d: Core, q: seq<seq<nat>>)
    requires AtHome(cfg, c, q) && |d.emergencies| >= |c.emergencies|
    requires forall e: nat :: Entries(q, e) > 0 && e < |c.emergencies| ==>
               d.emergencies[e].urgency.priority == c.emergencies[e].urgency.priority
    ensures AtHome(cfg, d, q)
  {
    forall l, k | 0 <= l < |q| && 0 <= k < |q[l]|
      ensures q[l][k] < |d.emergencies| && LevelOf(cfg, d.emergencies[q[l][k]]) == l
    {
      Queued(q, l, k);
    }
  }

  lemma LookKeepsUrgency(cfg: Config, s: State, w: nat, e: nat, y: nat)
    requires Well(cfg, s) && w < |s.workers| && e < |s.core.emergencies| && y < |s.core.emergencies|
    ensures var d := Look(cfg, s, w, e).core;
            |d.emergencies| == |s.core.emergencies| && d.emergencies[y].urgency == s.core.emergencies[y].urgency
  {
    hide Sound, Books, FindRescuers, Sensible;
    BooksOf(cfg, s.core);
    SoundIsSensible(cfg, s.core, e);
    var q := Quest(cfg, s.core, e);
    if FindRescuers(q).Found? {
      FindSizes(q);
      FindEmergencies(q, y);
    }
  }

  /** No worker changes a priority. */
  lemma WorkKeepsUrgency(cfg: Config, s: State, w: nat, y: nat)
    requires Well(cfg, s) && w < |s.workers| && y < |s.core.emergencies|
    ensures var d := Work(cfg, s, w).core;
            |d.emergencies| == |s.core.emergencies| && d.emergencies[y].urgency == s.core.emergencies[y].urgency
  {
    hide Sound, Look;
    if s.workers[w].Searching? && s.workers[w].e < |s.core.emergencies| {
      LookKeepsUrgency(cfg, s, w, s.workers[w].e, y);
    }
  }

  lemma WorkKeepsCount(cfg: Config, s: State, w: nat)
    requires Well(cfg, s) && w < |s.workers|
    ensures |Work(cfg, s, w).core.emergencies| == |s.core.emergencies|
    ensures !s.workers[w].Ready? ==> Work(cfg, s, w).queue == s.queue
  {
    hide Sound, Look;
    if s.workers[w].Searching? && s.workers[w].e < |s.core.emergencies| {
      LookKeepsCount(cfg, s, w, s.workers[w].e);
    }
  }

  lemma LookKeepsCount(cfg: Config, s: State, w: nat, e: nat)
    requires Well(cfg, s) && w < |s.workers| && e < |s.core.emergencies|
    ensures |Look(cfg, s, w, e).core.emergencies| == |s.core.emergencies| && Look(cfg, s, w, e).queue == s.queue
  {
    hide Sound, FindRescuers, Sensible;
    SoundIsSensible(cfg, s.core, e);
    if FindRescuers(Quest(cfg, s.core, e)).Found? {
      FindSizes(Quest(cfg, s.core, e));
    }
  }

  lemma WorkKeepsHome(cfg: Config, s: State, w: nat)
    requires Well(cfg, s) && Settled(cfg, s) && AtHome(cfg, s.core, s.queue) && w < |s.workers|
    ensures AtHome(cfg, Work(cfg, s, w).core, Work(cfg, s, w).queue)
  {
    hide Sound, Settled, FindRescuers, AtHome, WorkOn;
    var t := Work(cfg, s, w);
    if s.workers[w].Ready? {
      if QueueSpec.Pop<nat>(s.queue).Some? {
        ExtractAtHome(cfg, s.core, s.queue, QueueSpec.Always<nat>());
      }
    } else {
      forall y: nat | y < |s.core.emergencies|
        ensures y < |t.core.emergencies| && t.core.emergencies[y].urgency == s.core.emergencies[y].urgency
      {
        WorkKeepsUrgency(cfg, s, w, y);
      }
      WorkKeepsCount(cfg, s, w);
      StillAtHome(cfg, s.core, t.core, s.queue);
    }
  }

  // ---------------------------------------------------------------- the receiver's step

  lemma ReceiveKeeps(cfg: Config, s: State, etype: nat, x: int, y: int)
    requires Well(cfg, s) && Settled(cfg, s) && SlotsShow(s) && AtHome(cfg, s.core, s.queue)
    ensures var t := Receive(cfg, s, etype, x, y);
            Well(cfg, t) && Settled(cfg, t) && SlotsShow(t) && AtHome(cfg, t.core, t.queue)
  {
    hide Sound, AtHome, Settled, ValidTable;
    TableValid(cfg, s.core);
    var t := Receive(cfg, s, etype, x, y);
    if s.receiver.Some? {
      if s.receiver.value < |s.core.emergencies| {
        DeliverSettles(cfg, s, s.receiver.value);
        PushAtHome(cfg, s.core, s.queue, s.receiver.value);
      }
    } else if etype < |cfg.types| && InMap(cfg, x, y) {
      NewKeepsSound(cfg, s.core, etype, x, y);
      NewSettles(cfg, s, etype, x, y);
      StillAtHome(cfg, s.core, t.core, s.queue);
    }
  }

  lemma RestedIsPatient(u: Phase, t: Urgency)
    requires Rested(t)
    ensures Patient(u, t)
  {
  }

  lemma DeliverSettles(cfg: Config, s: State, x: nat)
    requires Well(cfg, s) && Settled(cfg, s) && s.receiver == Some(x) && x < |s.core.emergencies| && |s.queue| > 0
    ensures Settled(cfg, s.(receiver := None, queue := Filed(cfg, s.core, s.queue, x)))
  {
    hide Sound;
    var t := s.(receiver := None, queue := Filed(cfg, s.core, s.queue, x));
    forall p: Place, e: nat | At(t, p, e) ensures e < |t.core.emergencies| && Suits(cfg, t, p, t.core.emergencies[e]) {
      EntriesPush(cfg, s.core, s.queue, x, e);
      if At(s, p, e) {
        assert Suits(cfg, s, p, s.core.emergencies[e]);
      } else {
        assert Suits(cfg, s, AtReceiver, s.core.emergencies[e]);
        RestedIsPatient(s.updater, s.core.emergencies[e].urgency);
      }
    }
  }

  lemma NewSettles(cfg: Config, s: State, etype: nat, x: int, y: int)
    requires Well(cfg, s) && Settled(cfg, s) && s.receiver == None && ValidTable(cfg.table) && etype < |cfg.types|
    ensures Settled(cfg, s.(core := Arrived(s.core, NewEmergency(cfg, etype, x, y)),
                            receiver := Some(|s.core.emergencies|)))
  {
    hide Sound, ValidTable;
    var t := s.(core := Arrived(s.core, NewEmergency(cfg, etype, x, y)), receiver := Some(|s.core.emergencies|));
    FreshIsRested(cfg.table, cfg.types[etype].priority);
    forall p: Place, e: nat | At(t, p, e) ensures e < |t.core.emergencies| && Suits(cfg, t, p, t.core.emergencies[e]) {
      if p != AtReceiver {
        assert At(s, p, e);
        assert Suits(cfg, s, p, s.core.emergencies[e]);
      }
    }
  }

  // ---------------------------------------------------------------- the updater's step

  /** Whose emergency an active slot shows. */
  lemma ActiveAt(s: State, p: Place, e: nat)
    requires Conserved(s) && SlotsShow(s) && At(s, p, e)
    ensures Some(e) in s.active <==> p.AtWorker? && !s.workers[p.w].Holding?
  {
    if Some(e) in s.active {
      var v :| 0 <= v < |s.active| && s.active[v] == Some(e);
      Exclusive(s, p, AtWorker(v), e);
    }
    if p.AtWorker? && !s.workers[p.w].Holding? {
      assert s.active[p.w] == Some(e);
    }
  }

  /** The tick of an active emergency leaves it fit for its worker. */
  lemma TickSuits(cfg: Config, w: Worker, em: Emergency)
    requires ValidTable(cfg.table) && WorkerSuits(w, em) && Opened(w).Some?
             && Sum(em.missing) <= em.notArrived <= em.notDone
    ensures WorkerSuits(w, TickEmergency(cfg, em))
  {
    hide ValidTable;
  }

  lemma WorkedSuits(w: Worker, a: Emergency, b: Emergency)
    requires WorkerSuits(w, a) && Worked(a, b) && (a.notDone == Sum(a.missing) ==> b == a)
    ensures WorkerSuits(w, b)
  {
  }

  lemma TickClimbs(cfg: Config, em: Emergency)
    requires ValidTable(cfg.table) && Climbing(cfg.table, em.urgency)
    ensures Climbing(cfg.table, TickEmergency(cfg, em).urgency)
  {
    hide ValidTable, Climbing, Placed, CountDown;
    CountDownClimbs(cfg.table, em.urgency);
    PausedClimbs(cfg.table, em.urgency);
  }

  /** The timeout timer has no part in it. */
  lemma PausedClimbs(table: seq<Rule>, u: Urgency)
    requires Climbing(table, u)
    ensures Climbing(table, u.(timeout := u.timeout - 1))
  {
  }

  /** The emergency of a worker, after its twins have worked and, if it shows in a slot, it has ticked. */
  lemma WorkerTickSuits(cfg: Config, w: Worker, a: Emergency, b: Emergency)
    requires ValidTable(cfg.table) && WorkerSuits(w, a) && Climbing(cfg.table, a.urgency) && Held(w).Some?
    requires Worked(a, b) && (a.notDone == Sum(a.missing) ==> b == a)
    requires Sum(b.missing) <= b.notArrived <= b.notDone
    ensures var d := if w.Holding? then b else TickEmergency(cfg, b);
            WorkerSuits(w, d) && Climbing(cfg.table, d.urgency)
  {
    hide ValidTable, Worked, WorkerSuits, Climbing, TickEmergency, Sum;
    WorkedSuits(w, a, b);
    WorkedStays(a, b);
    if !w.Holding? {
      TickSuits(cfg, w, b);
      TickClimbs(cfg, b);
    }
  }

  lemma TickSettlesOne(cfg: Config, s: State, p: Place, e: nat)
    requires Well(cfg, s) && Conserved(s) && Settled(cfg, s) && SlotsShow(s) && s.updater == Waits && At(s, p, e)
    ensures var t := s.(core := TickWorld(cfg, s.core, s.active), updater := Ages);
            e < |t.core.emergencies| && Suits(cfg, t, p, t.core.emergencies[e])
  {
    hide Sound, Conserved, ValidTable, Apart, SlotsShow, TickWorld, TickEmergency, Worked, WorkerSuits, Climbing,
        Placed, Sum, Patient;
    TableValid(cfg, s.core);
    ActiveApart(s);
    ActiveAt(s, p, e);
    assert Suits(cfg, s, p, s.core.emergencies[e]);
    hide Settled;
    var b := TickWorldEmergencies(cfg, s.core, s.active, e);
    if p.AtWorker? {
      WorkerTickSuits(cfg, s.workers[p.w], s.core.emergencies[e], b);
    } else {
      hide Suits;
      WorkedStays(s.core.emergencies[e], b);
      WaitingTicked(cfg, s, p, s.core.emergencies[e], b);
    }
  }

  /** Nothing a tick can do to an emergency outside the slots makes it unfit for its place. */
  lemma WaitingTicked(cfg: Config, s: State, p: Place, a: Emergency, b: Emergency)
    requires s.updater == Waits && !p.AtWorker? && Suits(cfg, s, p, a)
    requires b.status == a.status && b.cond == a.cond && b.urgency == a.urgency && b.etype == a.etype
    ensures Suits(cfg, s.(updater := Ages), p, b)
  {
  }

  lemma WorkedStays(a: Emergency, b: Emergency)
    requires Worked(a, b)
    ensures b.status == a.status && b.cond == a.cond && b.urgency == a.urgency && b.etype == a.etype
  {
  }

  lemma AgeSettlesOne(cfg: Config, s: State, p: Place, e: nat)
    requires Well(cfg, s) && Conserved(s) && Settled(cfg, s) && s.updater == Ages && At(s, p, e)
    ensures var ems := AgeAll(s.core.emergencies, QueueSpec.Order<nat>(s.queue));
            e < |ems| && Suits(cfg, s.(updater := Expires), p, ems[e])
  {
    TableValid(cfg, s.core);
    QueueDistinct(s);
    assert Suits(cfg, s, p, s.core.emergencies[e]);
    AgeAllPoint(s.core.emergencies, QueueSpec.Order<nat>(s.queue), e);
    if e in QueueSpec.Order<nat>(s.queue) {
      Exclusive(s, p, InQueue, e);
      AgeTimeLeft(cfg.table, s.core.emergencies[e].urgency);
    }
  }

  lemma NobodyLeft(q: seq<seq<nat>>, want: nat -> bool, e: nat)
    requires QueueSpec.ExtractFirst<nat>(q, want).None? && Entries(q, e) > 0
    ensures !want(e)
  {
    QueueSpec.ExtractFirstIsFirst<nat>(q, want);
    assert e in QueueSpec.Order<nat>(q);
  }

  /** Once nobody in the queue has expired, or nobody is due, the updater moves on. */
  lemma MoveOnSettles(cfg: Config, s: State)
    requires Well(cfg, s) && Settled(cfg, s)
    ensures s.updater == Expires && QueueSpec.ExtractFirst<nat>(s.queue, ExpiredIn(s.core)).None? ==>
              Settled(cfg, s.(updater := Promotes))
    ensures s.updater == Promotes && QueueSpec.ExtractFirst<nat>(s.queue, DueIn(s.core)).None? ==>
              Settled(cfg, s.(updater := Waits))
  {
    hide Sound;
    if s.updater == Expires && QueueSpec.ExtractFirst<nat>(s.queue, ExpiredIn(s.core)).None? {
      var t := s.(updater := Promotes);
      forall p: Place, e: nat | At(t, p, e)
        ensures e < |t.core.emergencies| && Suits(cfg, t, p, t.core.emergencies[e])
      {
        assert At(s, p, e);
        if p == InQueue {
          NobodyLeft(s.queue, ExpiredIn(s.core), e);
        }
      }
    } else if s.updater == Promotes && QueueSpec.ExtractFirst<nat>(s.queue, DueIn(s.core)).None? {
      var t := s.(updater := Waits);
      forall p: Place, e: nat | At(t, p, e)
        ensures e < |t.core.emergencies| && Suits(cfg, t, p, t.core.emergencies[e])
      {
        assert At(s, p, e);
        if p == InQueue {
          NobodyLeft(s.queue, DueIn(s.core), e);
        }
      }
    }
  }

  /** Whoever the updater takes out fits its hand. */
  lemma ExtractSettles(cfg: Config, s: State, want: nat -> bool, v: Phase)
    requires Settled(cfg, s) && QueueSpec.ExtractFirst<nat>(s.queue, want).Some? && Extracted(s.updater) == None
    requires var x := QueueSpec.ExtractFirst<nat>(s.queue, want).value.0;
             || (s.updater == Expires && want == ExpiredIn(s.core) && v == Cancels(x))
             || (s.updater == Promotes && want == DueIn(s.core) && v == Boosts(x))
    ensures Settled(cfg, s.(updater := v, queue := QueueSpec.ExtractFirst<nat>(s.queue, want).value.1))
  {
    var t := s.(updater := v, queue := QueueSpec.ExtractFirst<nat>(s.queue, want).value.1);
    forall p: Place, e: nat | At(t, p, e) ensures e < |t.core.emergencies| && Suits(cfg, t, p, t.core.emergencies[e]) {
      EntriesExtract(s.queue, want, e);
      if p == AtUpdater {
        assert At(s, InQueue, e);
      } else {
        assert At(s, p, e);
      }
    }
  }

  /** The updater files what it holds. */
  lemma CancelSettles(cfg: Config, s: State, x: nat)
    requires Conserved(s) && Settled(cfg, s) && s.updater == Cancels(x) && x < |s.core.emergencies| && |s.canceled| > 0
    ensures Settled(cfg, s.(core := Marked(s.core, x, TimedOut), updater := Expires,
                            canceled := Filed(cfg, s.core, s.canceled, x)))
  {
    var t := s.(core := Marked(s.core, x, TimedOut), updater := Expires, canceled := Filed(cfg, s.core, s.canceled, x));
    assert Suits(cfg, s, AtUpdater, s.core.emergencies[x]);
    forall p: Place, e: nat | At(t, p, e) ensures e < |t.core.emergencies| && Suits(cfg, t, p, t.core.emergencies[e]) {
      EntriesPush(cfg, s.core, s.canceled, x, e);
      if At(s, p, e) {
        assert Suits(cfg, s, p, s.core.emergencies[e]);
        if e == x {
          Exclusive(s, p, AtUpdater, e);
        }
      }
    }
  }

  lemma BoostSettles(cfg: Config, s: State, x: nat)
    requires Conserved(s) && Settled(cfg, s) && s.updater == Boosts(x) && x < |s.core.emergencies| && |s.queue| > 0
    requires ValidTable(cfg.table)
    ensures var em := s.core.emergencies[x];
            var d := With(s.core, x, em.(urgency := Promote(cfg.table, em.urgency)));
            Settled(cfg, s.(core := d, updater := Promotes, queue := Filed(cfg, d, s.queue, x)))
  {
    hide ValidTable, Conserved;
    var em := s.core.emergencies[x];
    var d := With(s.core, x, em.(urgency := Promote(cfg.table, em.urgency)));
    var t := s.(core := d, updater := Promotes, queue := Filed(cfg, d, s.queue, x));
    assert Suits(cfg, s, AtUpdater, em);
    PromoteIsRested(cfg.table, em.urgency);
    RestedIsPatient(Promotes, d.emergencies[x].urgency);
    forall p: Place, e: nat | At(t, p, e) ensures e < |t.core.emergencies| && Suits(cfg, t, p, t.core.emergencies[e]) {
      EntriesPush(cfg, d, s.queue, x, e);
      if At(s, p, e) {
        assert Suits(cfg, s, p, s.core.emergencies[e]);
        if e == x {
          Exclusive(s, p, AtUpdater, e);
        }
      }
    }
  }

  lemma UpdateSettles(cfg: Config, s: State)
    requires Well(cfg, s) && Conserved(s) && Settled(cfg, s) && SlotsShow(s)
    ensures Settled(cfg, Upkeep(cfg, s))
  {
    TableValid(cfg, s.core);
    match s.updater
    case Waits =>
      var t := Upkeep(cfg, s);
      forall p: Place, e: nat | At(t, p, e)
        ensures e < |t.core.emergencies| && Suits(cfg, t, p, t.core.emergencies[e])
      {
        TickSettlesOne(cfg, s, p, e);
      }
    case Ages =>
      var t := Upkeep(cfg, s);
      forall p: Place, e: nat | At(t, p, e)
        ensures e < |t.core.emergencies| && Suits(cfg, t, p, t.core.emergencies[e])
      {
        AgeSettlesOne(cfg, s, p, e);
      }
    case Expires =>
      MoveOnSettles(cfg, s);
      match QueueSpec.ExtractFirst<nat>(s.queue, ExpiredIn(s.core)) {
        case None =>
        case Some((e, _)) => ExtractSettles(cfg, s, ExpiredIn(s.core), Cancels(e));
      }
    case Cancels(e) =>
      assert At(s, AtUpdater, e);
      CancelSettles(cfg, s, e);
    case Promotes =>
      MoveOnSettles(cfg, s);
      match QueueSpec.ExtractFirst<nat>(s.queue, DueIn(s.core)) {
        case None =>
        case Some((e, _)) => ExtractSettles(cfg, s, DueIn(s.core), Boosts(e));
      }
    case Boosts(e) =>
      assert At(s, AtUpdater, e);
      BoostSettles(cfg, s, e);
  }

  lemma UpkeepKeepsWell(cfg: Config, s: State)
    requires Well(cfg, s) && Settled(cfg, s)
    ensures Well(cfg, Upkeep(cfg, s))
  {
    TableValid(cfg, s.core);
    match s.updater
    case Waits =>
    case Ages => AgeAllKeepsSound(cfg, s.core, QueueSpec.Order<nat>(s.queue));
    case Expires => ExtractSizes(s.queue, ExpiredIn(s.core));
    case Cancels(e) =>
      hide Sound;
      if e < |s.core.emergencies| {
        TouchKeepsSound(cfg, s.core, e, s.core.emergencies[e].(status := TimedOut));
      }
    case Promotes => ExtractSizes(s.queue, DueIn(s.core));
    case Boosts(e) =>
      hide Sound;
      if e < |s.core.emergencies| {
        var em := s.core.emergencies[e];
        TouchKeepsSound(cfg, s.core, e, em.(urgency := Promote(cfg.table, em.urgency)));
      }
  }

  lemma ExtractSizes(q: seq<seq<nat>>, want: nat -> bool)
    ensures QueueSpec.ExtractFirst<nat>(q, want).Some? ==> |QueueSpec.ExtractFirst<nat>(q, want).value.1| == |q|
  {
  }

  lemma TickKeepsHome(cfg: Config, s: State)
    requires Well(cfg, s) && Conserved(s) && SlotsShow(s) && AtHome(cfg, s.core, s.queue)
    ensures AtHome(cfg, TickWorld(cfg, s.core, s.active), s.queue)
  {
    hide Sound, AtHome, Apart;
    ActiveApart(s);
    var d := TickWorld(cfg, s.core, s.active);
    forall e: nat | Entries(s.queue, e) > 0 && e < |s.core.emergencies|
      ensures d.emergencies[e].urgency.priority == s.core.emergencies[e].urgency.priority
    {
      ActiveAt(s, InQueue, e);
      var b := TickWorldEmergencies(cfg, s.core, s.active, e);
    }
    StillAtHome(cfg, s.core, d, s.queue);
  }

  lemma AgeKeepsHome(cfg: Config, s: State)
    requires Conserved(s) && AtHome(cfg, s.core, s.queue)
    ensures AtHome(cfg, Core(s.core.twins, AgeAll(s.core.emergencies, QueueSpec.Order<nat>(s.queue))), s.queue)
  {
    hide AtHome;
    QueueDistinct(s);
    var d := Core(s.core.twins, AgeAll(s.core.emergencies, QueueSpec.Order<nat>(s.queue)));
    forall e: nat | Entries(s.queue, e) > 0 && e < |s.core.emergencies|
      ensures d.emergencies[e].urgency.priority == s.core.emergencies[e].urgency.priority
    {
      AgeAllPoint(s.core.emergencies, QueueSpec.Order<nat>(s.queue), e);
    }
    StillAtHome(cfg, s.core, d, s.queue);
  }

  lemma TouchKeepsHome(cfg: Config, s: State, x: nat, em: Emergency)
    requires Conserved(s) && AtHome(cfg, s.core, s.queue) && Extracted(s.updater) == Some(x) && x < |s.core.emergencies|
    ensures AtHome(cfg, With(s.core, x, em), s.queue)
  {
    hide AtHome, Conserved;
    forall e: nat | Entries(s.queue, e) > 0 && e < |s.core.emergencies|
      ensures With(s.core, x, em).emergencies[e].urgency.priority == s.core.emergencies[e].urgency.priority
    {
      if e == x {
        Exclusive(s, InQueue, AtUpdater, x);
      }
    }
    StillAtHome(cfg, s.core, With(s.core, x, em), s.queue);
  }

  lemma UpkeepKeepsHome(cfg: Config, s: State)
    requires Well(cfg, s) && Conserved(s) && SlotsShow(s) && AtHome(cfg, s.core, s.queue)
    ensures AtHome(cfg, Upkeep(cfg, s).core, Upkeep(cfg, s).queue)
  {
    hide Sound, AtHome, Conserved, ValidTable, SlotsShow;
    TableValid(cfg, s.core);
    match s.updater
    case Waits => TickKeepsHome(cfg, s);
    case Ages => AgeKeepsHome(cfg, s);
    case Expires =>
      if QueueSpec.ExtractFirst<nat>(s.queue, ExpiredIn(s.core)).Some? {
        ExtractAtHome(cfg, s.core, s.queue, ExpiredIn(s.core));
      }
    case Cancels(e) =>
      if e < |s.core.emergencies| {
        TouchKeepsHome(cfg, s, e, s.core.emergencies[e].(status := TimedOut));
      }
    case Promotes =>
      if QueueSpec.ExtractFirst<nat>(s.queue, DueIn(s.core)).Some? {
        ExtractAtHome(cfg, s.core, s.queue, DueIn(s.core));
      }
    case Boosts(e) =>
      if e < |s.core.emergencies| {
        var em := s.core.emergencies[e].(urgency := Promote(cfg.table, s.core.emergencies[e].urgency));
        TouchKeepsHome(cfg, s, e, em);
        PushAtHome(cfg, With(s.core, e, em), s.queue, e);
      }
  }

  // ---------------------------------------------------------------- all threads

  lemma InvariantParts(cfg: Config, s: State)
    requires Invariant(cfg, s)
    ensures Well(cfg, s) && Sound(cfg, s.core) && Conserved(s) && Settled(cfg, s) && SlotsShow(s)
            && AtHome(cfg, s.core, s.queue)
  {
  }

  lemma InvariantFrom(cfg: Config, s: State)
    requires Well(cfg, s) && Conserved(s) && Settled(cfg, s) && SlotsShow(s) && AtHome(cfg, s.core, s.queue)
    ensures Invariant(cfg, s)
  {
  }

  /** Whichever thread moves, the invariant survives its step. */
  lemma ActKeepsInvariant(cfg: Config, s: State, turn: Turn)
    requires Invariant(cfg, s)
    ensures Well(cfg, s) && Invariant(cfg, Act(cfg, s, turn))
  {
    hide Invariant, Sound, Conserved, Settled, SlotsShow, AtHome, Receive, Work, Upkeep;
    InvariantParts(cfg, s);
    match turn
    case Receiver(etype, x, y) =>
      ReceiveConserves(cfg, s, etype, x, y);
      ReceiveKeeps(cfg, s, etype, x, y);
      InvariantFrom(cfg, Receive(cfg, s, etype, x, y));
    case Worker(w) =>
      if w < |s.workers| {
        if Held(s.workers[w]).Some? {
          SettledWorker(cfg, s, w);
        }
        WorkKeepsWell(cfg, s, w);
        WorkConserves(cfg, s, w);
        WorkSettles(cfg, s, w);
        WorkKeepsSlots(cfg, s, w);
        WorkKeepsHome(cfg, s, w);
        InvariantFrom(cfg, Work(cfg, s, w));
      }
    case Updater =>
      UpkeepKeepsWell(cfg, s);
      UpdateConserves(cfg, s);
      UpdateSettles(cfg, s);
      UpkeepKeepsSlots(cfg, s);
      UpkeepKeepsHome(cfg, s);
      InvariantFrom(cfg, Upkeep(cfg, s));
  }

  lemma UpkeepKeepsSlots(cfg: Config, s: State)
    requires Well(cfg, s) && SlotsShow(s)
    ensures SlotsShow(Upkeep(cfg, s))
  {
  }

  // ---------------------------------------------------------------- the beginning

  lemma {:induction false} NobodyCarries(ws: seq<Worker>, e: nat)
    requires forall w :: 0 <= w < |ws| ==> ws[w] == Ready
    ensures Carriers(ws, e) == 0
  {
    if ws == [] {
    } else {
      NobodyCarries(ws[..|ws| - 1], e);
    }
  }

  lemma InitialSound(cfg: Config, s: State)
    requires Initial(cfg, s)
    ensures Sound(cfg, s.core)
  {
    forall i | 0 <= i < |s.core.twins|
      ensures && ShapeTwin(cfg, s.core, s.core.twins[i]) && TwinLinked(s.core, i) && TwinServes(cfg, s.core, i)
              && TwinLocated(cfg, s.core.twins[i])
    {
      ValidRescuers(cfg, s.core.twins[i].rtype);
    }
    BindBooks(cfg, s.core);
  }

  /** The server starts with its invariant. */
  lemma InitialInvariant(cfg: Config, s: State)
    requires Initial(cfg, s)
    ensures Invariant(cfg, s)
  {
    hide Sound;
    InitialSound(cfg, s);
    QueueSpec.EmptyOrder<nat>(|cfg.table|);
    forall e: nat ensures Copies(s, e) == 0 {
      NobodyCarries(s.workers, e);
    }
    forall p: Place, e: nat ensures !At(s, p, e) {
    }
  }
}
