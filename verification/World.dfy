/** One update of the world under the system lock: every twin, then every active emergency
  (src/server/thread_functions/thread_updater.c:42-136), and the two ways an emergency
  comes and ages (thread_reciever.c:58-93, thread_updater.c:163-171). */
module World {
  import opened Common
  import opened PriorityTable
  import opened Urgency
  import opened Domain
  import opened Sortie
  import opened Selection
  import opened Dispatcher
  import opened Accounting
  import opened Ledger
  import opened Dispatch

  /** Every twin is on the list of its type. */
  ghost predicate Staffed(cfg: Config, c: Core) {
    forall i: nat :: i < |c.twins| ==>
      c.twins[i].rtype < |cfg.rescuers| && i in cfg.rescuers[c.twins[i].rtype].twins
  }

  ghost predicate TwinLocated(cfg: Config, t: Twin) {
    t.rtype < |cfg.rescuers| && Positioned(cfg, cfg.rescuers[t.rtype], t)
  }

  ghost predicate Located(cfg: Config, c: Core) {
    && (forall i :: 0 <= i < |c.twins| ==> TwinLocated(cfg, c.twins[i]))
    && (forall e :: 0 <= e < |c.emergencies| ==> InMap(cfg, c.emergencies[e].x, c.emergencies[e].y))
  }

  /** What holds whenever the system lock is free. */
  ghost predicate Sound(cfg: Config, c: Core) {
    ValidConfig(cfg) && Books(cfg, c) && Rostered(cfg, c) && Staffed(cfg, c) && Located(cfg, c)
  }

  lemma SoundParts(cfg: Config, c: Core)
    requires Sound(cfg, c)
    ensures ValidConfig(cfg) && ValidTable(cfg.table) && Books(cfg, c) && Shape(cfg, c)
    ensures Rostered(cfg, c) && Staffed(cfg, c) && Located(cfg, c)
  {
  }

  lemma TableValid(cfg: Config, c: Core)
    requires Sound(cfg, c)
    ensures ValidTable(cfg.table)
  {
  }

  lemma BooksOf(cfg: Config, c: Core)
    requires Sound(cfg, c)
    ensures Books(cfg, c)
  {
  }

  predicate SameTypes(c: Core, d: Core) {
    |d.twins| == |c.twins| && forall i :: 0 <= i < |c.twins| ==> d.twins[i].rtype == c.twins[i].rtype
  }

  lemma RosterKept(cfg: Config, c: Core, d: Core)
    requires Rostered(cfg, c) && Staffed(cfg, c) && SameTypes(c, d)
    ensures Rostered(cfg, d) && Staffed(cfg, d)
  {
    forall r, j | 0 <= r < |cfg.rescuers| && 0 <= j < |cfg.rescuers[r].twins|
      ensures cfg.rescuers[r].twins[j] < |d.twins| && d.twins[cfg.rescuers[r].twins[j]].rtype == r
    {
      assert c.twins[cfg.rescuers[r].twins[j]].rtype == r;
    }
  }

  lemma ValidRescuers(cfg: Config, r: nat)
    requires ValidConfig(cfg) && r < |cfg.rescuers|
    ensures ValidRescuer(cfg, cfg.rescuers[r])
  {
  }

  // ---------------------------------------------------------------- the twins

  /** What the twins' updates can do to an emergency: count arrivals and finishes. */
  predicate Worked(a: Emergency, b: Emergency) {
    && b == a.(notArrived := b.notArrived, notDone := b.notDone, slots := b.slots, log := b.log)
    && (forall i :: i in a.log ==> i in b.log && b.log[i] == a.log[i])
  }

  lemma TickTwinEffects(cfg: Config, c: Core, i: nat)
    requires Books(cfg, c) && i < |c.twins|
    ensures Shape(cfg, c) && ShapeTwin(cfg, c, c.twins[i])
    ensures var d := TickTwin(cfg, c, i);
            && d.twins == c.twins[i := TickAlone(cfg.rescuers[c.twins[i].rtype], c.twins[i])]
            && SameTypes(c, d)
            && (forall y :: 0 <= y < |c.emergencies| ==>
                  && Worked(c.emergencies[y], d.emergencies[y])
                  && (d.emergencies[y] != c.emergencies[y] ==> OnDuty(c.twins[i]) && c.twins[i].emergency == Some(y)))
  {
    hide Books, TickAlone;
    TwinPage(cfg, c, i);
    TickAloneFacts(cfg.rescuers[c.twins[i].rtype], c.twins[i]);
  }

  lemma TickTwinLocated(cfg: Config, c: Core, i: nat)
    requires ValidConfig(cfg) && i < |c.twins| && TwinLocated(cfg, c.twins[i])
    ensures TwinLocated(cfg, TickAlone(cfg.rescuers[c.twins[i].rtype], c.twins[i]))
  {
    hide ValidConfig, TickAlone, Positioned;
    var r := cfg.rescuers[c.twins[i].rtype];
    ValidRescuers(cfg, c.twins[i].rtype);
    TickKeepsPosition(cfg, r, c.twins[i]);
    TickAloneFacts(r, c.twins[i]);
  }

  lemma LocatedKept(cfg: Config, c: Core, d: Core, i: nat)
    requires Located(cfg, c) && i < |c.twins| && |d.twins| == |c.twins| && d.twins == c.twins[i := d.twins[i]]
    requires TwinLocated(cfg, d.twins[i]) && |d.emergencies| == |c.emergencies|
    requires forall y :: 0 <= y < |c.emergencies| ==> Worked(c.emergencies[y], d.emergencies[y])
    ensures Located(cfg, d)
  {
  }

  lemma TickTwinKeepsSound(cfg: Config, c: Core, i: nat)
    requires Sound(cfg, c) && i < |c.twins|
    ensures Shape(cfg, c) && Sound(cfg, TickTwin(cfg, c, i))
  {
    hide Books, ValidConfig, Rostered, Staffed, TickAlone, TickTwin, Positioned, Shape;
    SoundParts(cfg, c);
    var d := TickTwin(cfg, c, i);
    TickTwinEffects(cfg, c, i);
    TickTwinKeepsBooks(cfg, c, i);
    RosterKept(cfg, c, d);
    assert TwinLocated(cfg, c.twins[i]);
    TickTwinLocated(cfg, c, i);
    LocatedKept(cfg, c, d, i);
  }

  /** Twins that exist, none listed twice. */
  ghost predicate ValidIds(c: Core, ids: seq<nat>) {
    && (forall k :: 0 <= k < |ids| ==> ids[k] < |c.twins|)
    && (forall j, k :: 0 <= j < k < |ids| ==> ids[j] != ids[k])
  }

  /** The twins listed, one after the other. */
  function TickTwins(cfg: Config, c: Core, ids: seq<nat>): (d: Core)
    requires Sound(cfg, c) && ValidIds(c, ids)
    ensures Sound(cfg, d) && SameTypes(c, d) && |d.emergencies| == |c.emergencies|
    decreases |ids|
  {
    if ids == [] then c
    else
      var b := TickTwins(cfg, c, ids[..|ids| - 1]);
      TickTwinKeepsSound(cfg, b, ids[|ids| - 1]);
      TickTwinEffects(cfg, b, ids[|ids| - 1]);
      TickTwin(cfg, b, ids[|ids| - 1])
  }

  /** The twins of the first n types, in the order the updater visits them. */
  function Roster(cfg: Config, n: nat): seq<nat>
    requires n <= |cfg.rescuers|
  {
    if n == 0 then [] else Roster(cfg, n - 1) + cfg.rescuers[n - 1].twins
  }

  lemma {:induction false} RosterTypes(cfg: Config, c: Core, n: nat)
    requires Rostered(cfg, c) && n <= |cfg.rescuers|
    ensures forall k :: 0 <= k < |Roster(cfg, n)| ==>
              Roster(cfg, n)[k] < |c.twins| && c.twins[Roster(cfg, n)[k]].rtype < n
    ensures forall j, k :: 0 <= j < k < |Roster(cfg, n)| ==> Roster(cfg, n)[j] != Roster(cfg, n)[k]
  {
    if n == 0 {
    } else {
      RosterTypes(cfg, c, n - 1);
    }
  }

  lemma {:induction false} RosterHas(cfg: Config, n: nat, r: nat, i: nat)
    requires r < n <= |cfg.rescuers| && i in cfg.rescuers[r].twins
    ensures i in Roster(cfg, n)
  {
    if r == n - 1 {
    } else {
      RosterHas(cfg, n - 1, r, i);
    }
  }

  /** The updater visits every twin, and none twice. */
  lemma RosterVisitsEachOnce(cfg: Config, c: Core)
    requires Sound(cfg, c)
    ensures ValidIds(c, Roster(cfg, |cfg.rescuers|))
    ensures forall i: nat :: i < |c.twins| ==> i in Roster(cfg, |cfg.rescuers|)
  {
    hide Books, ValidConfig, Located;
    RosterTypes(cfg, c, |cfg.rescuers|);
    forall i: nat | i < |c.twins| ensures i in Roster(cfg, |cfg.rescuers|) {
      RosterHas(cfg, |cfg.rescuers|, c.twins[i].rtype, i);
    }
  }

  lemma {:induction false} TickTwinsPoint(cfg: Config, c: Core, ids: seq<nat>, x: nat)
    requires Sound(cfg, c) && x < |c.twins|
    requires ValidIds(c, ids)
    ensures c.twins[x].rtype < |cfg.rescuers|
    ensures TickTwins(cfg, c, ids).twins[x] ==
            if x in ids then TickAlone(cfg.rescuers[c.twins[x].rtype], c.twins[x]) else c.twins[x]
    decreases |ids|
  {
    hide Sound, TickAlone, Books, TickTwin;
    TwinHasType(cfg, c, x);
    if ids == [] {
    } else {
      var n := |ids| - 1;
      var b := TickTwins(cfg, c, ids[..n]);
      TickTwinsPoint(cfg, c, ids[..n], x);
      BooksOf(cfg, b);
      TickTwinEffects(cfg, b, ids[n]);
      assert ids == ids[..n] + [ids[n]];
    }
  }

  lemma TwinHasType(cfg: Config, c: Core, x: nat)
    requires Sound(cfg, c) && x < |c.twins|
    ensures c.twins[x].rtype < |cfg.rescuers| && Positioned(cfg, cfg.rescuers[c.twins[x].rtype], c.twins[x])
  {
    assert TwinLocated(cfg, c.twins[x]);
  }

  lemma {:induction false} TickTwinsWork(cfg: Config, c: Core, ids: seq<nat>, y: nat)
    requires Sound(cfg, c) && y < |c.emergencies|
    requires ValidIds(c, ids)
    ensures Worked(c.emergencies[y], TickTwins(cfg, c, ids).emergencies[y])
    decreases |ids|
  {
    hide Sound, Books, TickTwin;
    if ids == [] {
    } else {
      var n := |ids| - 1;
      var b := TickTwins(cfg, c, ids[..n]);
      TickTwinsWork(cfg, c, ids[..n], y);
      BooksOf(cfg, b);
      TickTwinEffects(cfg, b, ids[n]);
    }
  }

  /** An emergency nobody works for: whoever is needed is missing. */
  predicate Unstaffed(em: Emergency) {
    em.notArrived == em.notDone == Sum(em.missing)
  }

  /** Whoever works for an emergency counts as not done. */
  lemma AtWorkCounts(cfg: Config, c: Core, i: nat)
    requires Books(cfg, c) && i < |c.twins| && OnDuty(c.twins[i])
    ensures var e := c.twins[i].emergency;
            e.Some? && e.value < |c.emergencies|
            && c.emergencies[e.value].notDone > Sum(c.emergencies[e.value].missing)
  {
    hide Books;
    TwinPage(cfg, c, i);
    var e := c.twins[i].emergency.value;
    EmergencyPage(cfg, c, e);
    assert i in Crew(c.twins, e, None, c.twins[i].status);
  }

  lemma TickTwinSpares(cfg: Config, c: Core, i: nat, y: nat)
    requires Books(cfg, c) && i < |c.twins| && y < |c.emergencies|
    requires c.emergencies[y].notDone == Sum(c.emergencies[y].missing)
    ensures Shape(cfg, c) && TickTwin(cfg, c, i).emergencies[y] == c.emergencies[y]
  {
    hide Books, TickTwin;
    TickTwinEffects(cfg, c, i);
    if OnDuty(c.twins[i]) {
      AtWorkCounts(cfg, c, i);
    }
  }

  lemma {:induction false} TickTwinsSpare(cfg: Config, c: Core, ids: seq<nat>, y: nat)
    requires Sound(cfg, c) && y < |c.emergencies| && c.emergencies[y].notDone == Sum(c.emergencies[y].missing)
    requires ValidIds(c, ids)
    ensures TickTwins(cfg, c, ids).emergencies[y] == c.emergencies[y]
    decreases |ids|
  {
    hide Sound, Books, TickTwin, Sum;
    if ids == [] {
    } else {
      var n := |ids| - 1;
      var b := TickTwins(cfg, c, ids[..n]);
      TickTwinsSpare(cfg, c, ids[..n], y);
      BooksOf(cfg, b);
      TickTwinSpares(cfg, b, ids[n], y);
    }
  }

  // ---------------------------------------------------------------- the active emergencies

  function TickSlot(cfg: Config, c: Core, slot: Option<nat>): (d: Core)
    requires ValidTable(cfg.table)
    ensures d.twins == c.twins && |d.emergencies| == |c.emergencies|
  {
    match slot
    case Some(e) =>
      if e < |c.emergencies| then Core(c.twins, c.emergencies[e := TickEmergency(cfg, c.emergencies[e])]) else c
    case None => c
  }

  lemma TickEmergencyStays(cfg: Config, em: Emergency)
    requires ValidTable(cfg.table)
    ensures var r := TickEmergency(cfg, em);
            r == em.(status := r.status, urgency := r.urgency, cond := r.cond)
  {
  }

  lemma TickSlotKeepsSound(cfg: Config, c: Core, slot: Option<nat>)
    requires Sound(cfg, c)
    ensures ValidTable(cfg.table) && Sound(cfg, TickSlot(cfg, c, slot))
  {
    hide Books, ValidConfig, ValidTable, Rostered, Staffed, TickEmergency, TwinLocated;
    SoundParts(cfg, c);
    if slot.Some? && slot.value < |c.emergencies| {
      TickEmergencyStays(cfg, c.emergencies[slot.value]);
      TickEmergencyKeepsBooks(cfg, c, slot.value);
      RosterKept(cfg, c, TickSlot(cfg, c, slot));
      assert Located(cfg, TickSlot(cfg, c, slot));
    }
  }

  /** The active emergencies, slot by slot. */
  function TickSlots(cfg: Config, c: Core, active: seq<Option<nat>>): (d: Core)
    requires Sound(cfg, c)
    ensures Sound(cfg, d) && d.twins == c.twins && |d.emergencies| == |c.emergencies|
    decreases |active|
  {
    if active == [] then c
    else
      var b := TickSlots(cfg, c, active[..|active| - 1]);
      TickSlotKeepsSound(cfg, b, active[|active| - 1]);
      TickSlot(cfg, b, active[|active| - 1])
  }

  ghost predicate Apart(active: seq<Option<nat>>) {
    forall v, w :: 0 <= v < w < |active| && active[v].Some? ==> active[v] != active[w]
  }

  lemma TickSlotPoint(cfg: Config, c: Core, slot: Option<nat>, y: nat)
    requires ValidTable(cfg.table) && y < |c.emergencies|
    ensures TickSlot(cfg, c, slot).emergencies[y] ==
            if slot == Some(y) then TickEmergency(cfg, c.emergencies[y]) else c.emergencies[y]
  {
    hide TickEmergency, ValidTable;
  }

  lemma NotTwice(active: seq<Option<nat>>, y: nat)
    requires active != [] && Apart(active)
    ensures Apart(active[..|active| - 1])
    ensures Some(y) in active <==> Some(y) in active[..|active| - 1] || active[|active| - 1] == Some(y)
    ensures !(Some(y) in active[..|active| - 1] && active[|active| - 1] == Some(y))
  {
    assert active == active[..|active| - 1] + [active[|active| - 1]];
  }

  /** With distinct slots, each active emergency ticks once. */
  lemma {:induction false} TickSlotsPoint(cfg: Config, c: Core, active: seq<Option<nat>>, y: nat)
    requires Sound(cfg, c) && y < |c.emergencies| && Apart(active)
    ensures ValidTable(cfg.table)
    ensures TickSlots(cfg, c, active).emergencies[y] ==
            if Some(y) in active then TickEmergency(cfg, c.emergencies[y]) else c.emergencies[y]
    decreases |active|
  {
    hide Sound, TickEmergency, ValidTable, TickSlot, Apart;
    TableValid(cfg, c);
    if active == [] {
    } else {
      var n := |active| - 1;
      NotTwice(active, y);
      TickSlotsPoint(cfg, c, active[..n], y);
      TickSlotPoint(cfg, TickSlots(cfg, c, active[..n]), active[n], y);
    }
  }

  /** update_rescuers_states, then update_active_emergencies_states */
  function TickWorld(cfg: Config, c: Core, active: seq<Option<nat>>): (d: Core)
    requires Sound(cfg, c)
    ensures Sound(cfg, d) && SameTypes(c, d) && |d.emergencies| == |c.emergencies|
  {
    RosterVisitsEachOnce(cfg, c);
    TickSlots(cfg, TickTwins(cfg, c, Roster(cfg, |cfg.rescuers|)), active)
  }

  /** Every twin's own update happens exactly once. */
  lemma TickWorldTwins(cfg: Config, c: Core, active: seq<Option<nat>>, x: nat)
    requires Sound(cfg, c) && x < |c.twins|
    ensures c.twins[x].rtype < |cfg.rescuers|
    ensures TickWorld(cfg, c, active).twins[x] == TickAlone(cfg.rescuers[c.twins[x].rtype], c.twins[x])
  {
    hide Sound, TickAlone;
    RosterVisitsEachOnce(cfg, c);
    TickTwinsPoint(cfg, c, Roster(cfg, |cfg.rescuers|), x);
  }

  /** Every emergency books its twins' arrivals and finishes; then the active ones tick. */
  lemma TickWorldEmergencies(cfg: Config, c: Core, active: seq<Option<nat>>, y: nat) returns (b: Emergency)
    requires Sound(cfg, c) && y < |c.emergencies| && Apart(active)
    ensures ValidTable(cfg.table) && Worked(c.emergencies[y], b)
    ensures c.emergencies[y].notDone == Sum(c.emergencies[y].missing) ==> b == c.emergencies[y]
    ensures ShapeEmergency(cfg, b) && Sum(b.missing) <= b.notArrived <= b.notDone
    ensures TickWorld(cfg, c, active).emergencies[y] == if Some(y) in active then TickEmergency(cfg, b) else b
  {
    hide Sound, TickEmergency, Books;
    RosterVisitsEachOnce(cfg, c);
    var d := TickTwins(cfg, c, Roster(cfg, |cfg.rescuers|));
    b := d.emergencies[y];
    TickTwinsWork(cfg, c, Roster(cfg, |cfg.rescuers|), y);
    if c.emergencies[y].notDone == Sum(c.emergencies[y].missing) {
      TickTwinsSpare(cfg, c, Roster(cfg, |cfg.rescuers|), y);
    }
    TickSlotsPoint(cfg, d, active, y);
    SoundParts(cfg, d);
    EmergencyPage(cfg, d, y);
  }

  // ---------------------------------------------------------------- one emergency on its own

  function With(c: Core, e: nat, em: Emergency): Core
    requires e < |c.emergencies|
  {
    Core(c.twins, c.emergencies[e := em])
  }

  /** Changing an emergency's status, urgency or condition leaves the world sound. */
  lemma TouchKeepsSound(cfg: Config, c: Core, e: nat, em: Emergency)
    requires Sound(cfg, c) && e < |c.emergencies|
    requires em == c.emergencies[e].(status := em.status, urgency := em.urgency, cond := em.cond)
    requires em.status == c.emergencies[e].status || em.status == Assigned || em.status == TimedOut
             || em.status == Paused
    ensures Sound(cfg, With(c, e, em))
  {
    hide Books, ValidConfig, Rostered, Staffed;
    SoundParts(cfg, c);
    EmergencyPage(cfg, c, e);
    TouchKeepsBooks(cfg, c, e, em);
    RosterKept(cfg, c, With(c, e, em));
    assert Located(cfg, With(c, e, em));
  }

  /** update_waiting_emergency_state on each listed emergency in turn. */
  function AgeAll(ems: seq<Emergency>, ids: seq<nat>): (r: seq<Emergency>)
    ensures |r| == |ems|
    decreases |ids|
  {
    if ids == [] then ems
    else
      var b := AgeAll(ems, ids[..|ids| - 1]);
      var e := ids[|ids| - 1];
      if e < |b| then b[e := b[e].(urgency := Age(b[e].urgency))] else b
  }

  lemma {:induction false} AgeAllPoint(ems: seq<Emergency>, ids: seq<nat>, y: nat)
    requires y < |ems| && forall j, k :: 0 <= j < k < |ids| ==> ids[j] != ids[k]
    ensures AgeAll(ems, ids)[y] == if y in ids then ems[y].(urgency := Age(ems[y].urgency)) else ems[y]
    decreases |ids|
  {
    if ids == [] {
    } else {
      var n := |ids| - 1;
      AgeAllPoint(ems, ids[..n], y);
      assert ids == ids[..n] + [ids[n]];
    }
  }

  lemma {:induction false} AgeAllKeepsSound(cfg: Config, c: Core, ids: seq<nat>)
    requires Sound(cfg, c)
    ensures Sound(cfg, Core(c.twins, AgeAll(c.emergencies, ids)))
    decreases |ids|
  {
    hide Sound, Age;
    if ids == [] {
    } else {
      var n := |ids| - 1;
      var b := Core(c.twins, AgeAll(c.emergencies, ids[..n]));
      AgeAllKeepsSound(cfg, c, ids[..n]);
      if ids[n] < |b.emergencies| {
        var em := b.emergencies[ids[n]];
        TouchKeepsSound(cfg, b, ids[n], em.(urgency := Age(em.urgency)));
      }
    }
  }

  // ---------------------------------------------------------------- a new emergency

  function Counts(requests: seq<Request>): (s: seq<int>)
    ensures |s| == |requests|
    ensures forall k :: 0 <= k < |requests| ==> s[k] == requests[k].count
  {
    if requests == [] then [] else Counts(requests[..|requests| - 1]) + [requests[|requests| - 1].count]
  }

  /** mallocate_emergency */
  function NewEmergency(cfg: Config, etype: nat, x: int, y: int): Emergency
    requires ValidTable(cfg.table) && etype < |cfg.types|
  {
    var t := cfg.types[etype];
    var n := Required(t.requests);
    Emergency(etype, Fresh(cfg.table, t.priority), Waiting, x, y, Counts(t.requests), seq(n, _ => None), n, n, 0,
              NoWaiter, map[])
  }

  lemma {:induction false} CountsSum(requests: seq<Request>)
    ensures Sum(Counts(requests)) == Required(requests)
  {
    if requests == [] {
    } else {
      CountsSum(requests[..|requests| - 1]);
    }
  }

  lemma {:induction false} AllFree(slots: seq<Option<nat>>)
    requires forall j :: 0 <= j < |slots| ==> slots[j] == None
    ensures Free(slots) == |slots|
  {
    if slots == [] {
    } else {
      AllFree(slots[..|slots| - 1]);
    }
  }

  function Arrived(c: Core, em: Emergency): Core {
    Core(c.twins, c.emergencies + [em])
  }

  lemma NobodyYet(cfg: Config, c: Core, r: Option<nat>, status: TwinStatus)
    requires Books(cfg, c)
    ensures Crew(c.twins, |c.emergencies|, r, status) == {}
  {
    hide Books;
    forall i: nat | i < |c.twins| ensures c.twins[i].emergency != Some(|c.emergencies|) {
      TwinPage(cfg, c, i);
    }
  }

  lemma NewBalanced(cfg: Config, c: Core, etype: nat, x: int, y: int)
    requires ValidTable(cfg.table) && etype < |cfg.types| && Books(cfg, c)
    ensures var em, n := NewEmergency(cfg, etype, x, y), |c.emergencies|;
            ShapeEmergency(cfg, em) && SlotsLinked(Arrived(c, em), n) && Balanced(cfg, Arrived(c, em), n)
            && LogServed(cfg, em) && StatusSound(cfg, em)
  {
    hide Books, Fresh;
    var em, n, requests := NewEmergency(cfg, etype, x, y), |c.emergencies|, cfg.types[etype].requests;
    CountsSum(requests);
    AllFree(em.slots);
    NobodyYet(cfg, c, None, EnRoute);
    NobodyYet(cfg, c, None, OnScene);
    forall k | 0 <= k < |requests| ensures TypeBalanced(cfg, Arrived(c, em), n, k) {
      NobodyYet(cfg, c, Some(requests[k].rtype), EnRoute);
      NobodyYet(cfg, c, Some(requests[k].rtype), OnScene);
      assert Logged(em.log, requests[k].rtype) == {};
    }
  }

  lemma OldBalanced(cfg: Config, c: Core, em: Emergency, y: nat)
    requires Books(cfg, c) && y < |c.emergencies|
    ensures var d := Arrived(c, em);
            && ShapeEmergency(cfg, d.emergencies[y]) && SlotsLinked(d, y) && Balanced(cfg, d, y)
            && LogServed(cfg, d.emergencies[y]) && StatusSound(cfg, d.emergencies[y])
  {
    hide Books;
    EmergencyPage(cfg, c, y);
    forall k | 0 <= k < |Requests(cfg, c.emergencies[y])| ensures TypeBalanced(cfg, Arrived(c, em), y, k) {
      assert TypeBalanced(cfg, c, y, k);
    }
  }

  lemma OldTwin(cfg: Config, c: Core, em: Emergency, i: nat)
    requires Books(cfg, c) && i < |c.twins|
    ensures var d := Arrived(c, em);
            ShapeTwin(cfg, d, d.twins[i]) && TwinLinked(d, i) && TwinServes(cfg, d, i)
  {
    hide Books;
    TwinPage(cfg, c, i);
  }

  lemma NewKeepsBooks(cfg: Config, c: Core, etype: nat, x: int, y: int)
    requires ValidTable(cfg.table) && etype < |cfg.types| && Books(cfg, c)
    ensures Books(cfg, Arrived(c, NewEmergency(cfg, etype, x, y)))
  {
    hide Books, NewEmergency, ShapeTwin, TwinLinked, TwinServes, ShapeEmergency, SlotsLinked, Balanced, LogServed,
        StatusSound;
    var em := NewEmergency(cfg, etype, x, y);
    var d := Arrived(c, em);
    forall e | 0 <= e < |d.emergencies|
      ensures && ShapeEmergency(cfg, d.emergencies[e]) && SlotsLinked(d, e) && Balanced(cfg, d, e)
              && LogServed(cfg, d.emergencies[e]) && StatusSound(cfg, d.emergencies[e])
    {
      if e == |c.emergencies| {
        NewBalanced(cfg, c, etype, x, y);
      } else {
        OldBalanced(cfg, c, em, e);
      }
    }
    forall i | 0 <= i < |d.twins| ensures ShapeTwin(cfg, d, d.twins[i]) && TwinLinked(d, i) && TwinServes(cfg, d, i) {
      OldTwin(cfg, c, em, i);
    }
    BindBooks(cfg, d);
  }

  /** A new emergency inside the map leaves the world sound. */
  lemma NewKeepsSound(cfg: Config, c: Core, etype: nat, x: int, y: int)
    requires Sound(cfg, c) && etype < |cfg.types| && InMap(cfg, x, y)
    ensures ValidTable(cfg.table) && Sound(cfg, Arrived(c, NewEmergency(cfg, etype, x, y)))
  {
    hide Books, ValidConfig, Rostered, Staffed;
    SoundParts(cfg, c);
    NewKeepsBooks(cfg, c, etype, x, y);
    RosterKept(cfg, c, Arrived(c, NewEmergency(cfg, etype, x, y)));
    assert Located(cfg, Arrived(c, NewEmergency(cfg, etype, x, y)));
  }

  // ---------------------------------------------------------------- a search

  lemma SoundIsSensible(cfg: Config, c: Core, e: nat)
    requires Sound(cfg, c) && e < |c.emergencies|
    ensures Sensible(Quest(cfg, c, e))
  {
    hide Books, Located, Staffed;
    SoundParts(cfg, c);
  }

  lemma SentLocated(cfg: Config, c: Core, e: nat, i: nat)
    requires Located(cfg, c) && Assignable(cfg, c, e, i)
    ensures TwinLocated(cfg, Sent(cfg, c, e, i))
  {
    hide Positioned;
    var t, em := c.twins[i], c.emergencies[e];
    assert TwinLocated(cfg, t) && InMap(cfg, em.x, em.y);
    SendKeeps(cfg, cfg.rescuers[t.rtype], t, e, em.x, em.y,
              Requests(cfg, em)[RequestOf(Requests(cfg, em), t.rtype)].time);
  }

  lemma LocatedOf(cfg: Config, c: Core, i: nat)
    requires Located(cfg, c) && i < |c.twins|
    ensures TwinLocated(cfg, c.twins[i])
  {
  }

  lemma FindTwinLocated(q: Quest, i: nat)
    requires Sound(q.cfg, q.core) && Sensible(q) && FindRescuers(q).Found? && i < |q.core.twins|
    requires |FindRescuers(q).core.twins| == |q.core.twins|
    ensures var u := FindRescuers(q).core.twins[i];
            TwinLocated(q.cfg, u) && u.rtype == q.core.twins[i].rtype
  {
    hide Sound, Books, Sensible, FindRescuers, Located, TwinLocated;
    SoundParts(q.cfg, q.core);
    FindTwins(q, i);
    LocatedOf(q.cfg, q.core, i);
    if FindRescuers(q).core.twins[i] != q.core.twins[i] {
      SentLocated(q.cfg, q.core, q.e, i);
      SentFacts(q.cfg, q.core, q.e, i);
    }
  }

  lemma FindSizes(q: Quest)
    requires Sensible(q) && FindRescuers(q).Found?
    ensures var d := FindRescuers(q).core;
            |d.twins| == |q.core.twins| && |d.emergencies| == |q.core.emergencies|
  {
    hide Books, ValidConfig, Rostered;
  }

  lemma FindEmergenciesLocated(q: Quest, y: nat)
    requires Sound(q.cfg, q.core) && Sensible(q) && FindRescuers(q).Found? && y < |q.core.emergencies|
    requires |FindRescuers(q).core.emergencies| == |q.core.emergencies|
    ensures var em := FindRescuers(q).core.emergencies[y]; InMap(q.cfg, em.x, em.y)
  {
    hide Books, Sensible, FindRescuers;
    SoundParts(q.cfg, q.core);
    FindEmergencies(q, y);
  }

  /** A successful search on behalf of a begun emergency leaves the world sound. */
  lemma FindKeepsSound(q: Quest)
    requires Sound(q.cfg, q.core) && q.e < |q.core.emergencies| && Self(q).status != Waiting
    ensures Sensible(q)
    ensures FindRescuers(q).Found? ==>
              Sound(q.cfg, FindRescuers(q).core) && SameTypes(q.core, FindRescuers(q).core)
              && |FindRescuers(q).core.emergencies| == |q.core.emergencies|
  {
    hide Books, ValidConfig, Rostered, Staffed, Sensible, FindRescuers, TwinLocated;
    SoundParts(q.cfg, q.core);
    SoundIsSensible(q.cfg, q.core, q.e);
    if FindRescuers(q).Found? {
      var d := FindRescuers(q).core;
      FindSizes(q);
      FindKeepsBooks(q);
      forall i | 0 <= i < |d.twins|
        ensures TwinLocated(q.cfg, d.twins[i]) && d.twins[i].rtype == q.core.twins[i].rtype
      {
        FindTwinLocated(q, i);
      }
      forall y | 0 <= y < |d.emergencies| ensures InMap(q.cfg, d.emergencies[y].x, d.emergencies[y].y) {
        FindEmergenciesLocated(q, y);
      }
      RosterKept(q.cfg, q.core, d);
    }
  }
}
