/** What the server does to its twins and emergencies under the system lock: preempt,
  dispatch, tick a twin, tick an active emergency
  (src/server/thread_functions/thread_worker.c:174-283, thread_updater.c:42-159). */
module Dispatcher {
  import opened Common
  import opened PriorityTable
  import opened Urgency
  import opened Domain
  import opened Selection

  // ---------------------------------------------------------------- preemption and dispatch

  /** An emergency that loses twin i of a requested type: one more of the type is missing,
      and unless it was already paused it is paused and its worker signalled. */
  function Bereft(requests: seq<Request>, em: Emergency, rtype: nat, wasOnScene: bool, i: nat): Emergency
    requires RequestOf(requests, rtype) < |requests| == |em.missing|
  {
    var k := RequestOf(requests, rtype);
    var r := em.(missing := em.missing[k := em.missing[k] + 1],
                 notArrived := em.notArrived + if wasOnScene then 1 else 0,
                 slots := Without(em.slots, i));
    if em.status == Paused then r
    else r.(paused := em.paused + 1, status := Paused, cond := Signal(em.cond))
  }

  function Robbed(cfg: Config, em: Emergency, t: Twin, i: nat): Emergency
    requires ShapeEmergency(cfg, em) && Wanted(cfg, em, t.rtype)
  {
    Bereft(Requests(cfg, em), em, t.rtype, t.status == OnScene, i)
  }

  /** preempt_if_needed: an idle twin is nobody's. */
  function Preempt(cfg: Config, c: Core, i: nat): (d: Core)
    requires Shape(cfg, c) && i < |c.twins|
    ensures d.twins == c.twins && |d.emergencies| == |c.emergencies|
  {
    var t := c.twins[i];
    assert ShapeTwin(cfg, c, t);
    if t.status == Idle || t.emergency == None then c
    else
      assert ShapeEmergency(cfg, c.emergencies[t.emergency.value]);
      Core(c.twins, c.emergencies[t.emergency.value := Robbed(cfg, c.emergencies[t.emergency.value], t, i)])
  }

  predicate Assignable(cfg: Config, c: Core, e: nat, i: nat) {
    && e < |c.emergencies| && i < |c.twins|
    && c.twins[i].emergency != Some(e)
    && Wanted(cfg, c.emergencies[e], c.twins[i].rtype)
  }

  /** One turn of the dispatch loop: slot j of emergency e takes twin i. */
  function Assign(cfg: Config, c: Core, e: nat, j: nat, i: nat): (d: Core)
    requires Shape(cfg, c) && Assignable(cfg, c, e, i) && j < |c.emergencies[e].slots|
    ensures |d.twins| == |c.twins| && |d.emergencies| == |c.emergencies|
  {
    var em := c.emergencies[e];
    var time := Requests(cfg, em)[RequestOf(Requests(cfg, em), c.twins[i].rtype)].time;
    var p := Preempt(cfg, c, i);
    Core(p.twins[i := SendToScene(p.twins[i], e, em.x, em.y, time)],
         p.emergencies[e := em.(slots := em.slots[j := Some(i)])])
  }

  lemma RobbedShape(cfg: Config, em: Emergency, t: Twin, i: nat)
    requires ShapeEmergency(cfg, em) && Wanted(cfg, em, t.rtype)
    ensures ShapeEmergency(cfg, Robbed(cfg, em, t, i))
    ensures Robbed(cfg, em, t, i).etype == em.etype && |Robbed(cfg, em, t, i).slots| == |em.slots|
  {
  }

  /** Nothing dangles after a turn, and nothing static changes. */
  lemma AssignShape(cfg: Config, c: Core, e: nat, j: nat, i: nat)
    requires Shape(cfg, c) && Assignable(cfg, c, e, i) && j < |c.emergencies[e].slots|
    ensures var d := Assign(cfg, c, e, j, i);
            && Shape(cfg, d)
            && (forall x :: 0 <= x < |c.twins| ==> d.twins[x].rtype == c.twins[x].rtype)
            && (forall x :: 0 <= x < |c.twins| && x != i ==> d.twins[x] == c.twins[x])
            && (forall y :: 0 <= y < |c.emergencies| ==>
                  d.emergencies[y].etype == c.emergencies[y].etype
                  && |d.emergencies[y].slots| == |c.emergencies[y].slots|)
            && d.emergencies[e] == c.emergencies[e].(slots := c.emergencies[e].slots[j := Some(i)])
  {
    var d := Assign(cfg, c, e, j, i);
    var t := c.twins[i];
    assert ShapeTwin(cfg, c, t);
    if t.emergency.Some? {
      RobbedShape(cfg, c.emergencies[t.emergency.value], t, i);
    }
    forall y | 0 <= y < |c.emergencies|
      ensures ShapeEmergency(cfg, d.emergencies[y]) && d.emergencies[y].etype == c.emergencies[y].etype
              && |d.emergencies[y].slots| == |c.emergencies[y].slots|
    {
      assert ShapeEmergency(cfg, c.emergencies[y]);
    }
    forall x | 0 <= x < |c.twins| ensures ShapeTwin(cfg, d, d.twins[x]) && d.twins[x].rtype == c.twins[x].rtype {
      assert ShapeTwin(cfg, c, c.twins[x]);
    }
  }

  /** The candidates still to be sent: distinct twins of requested types, none of them already ours. */
  ghost predicate Sendable(cfg: Config, c: Core, e: nat, cs: seq<nat>) {
    && (forall m :: 0 <= m < |cs| ==> Assignable(cfg, c, e, cs[m]))
    && (forall m, n :: 0 <= m < n < |cs| ==> cs[m] != cs[n])
  }

  lemma AssignSendable(cfg: Config, c: Core, e: nat, j: nat, cs: seq<nat>)
    requires Shape(cfg, c) && cs != [] && Sendable(cfg, c, e, cs)
    requires e < |c.emergencies| && j < |c.emergencies[e].slots|
    ensures Shape(cfg, Assign(cfg, c, e, j, cs[0])) && Sendable(cfg, Assign(cfg, c, e, j, cs[0]), e, cs[1..])
    ensures |Assign(cfg, c, e, j, cs[0]).emergencies[e].slots| == |c.emergencies[e].slots|
  {
    AssignShape(cfg, c, e, j, cs[0]);
    var d := Assign(cfg, c, e, j, cs[0]);
    forall m | 0 <= m < |cs[1..]| ensures Assignable(cfg, d, e, cs[1..][m]) {
      assert Assignable(cfg, c, e, cs[m + 1]);
    }
  }

  /** The dispatch loop from slot j on.  None when it reads past the last candidate. */
  function Fill(cfg: Config, c: Core, e: nat, j: nat, cs: seq<nat>): (r: Option<Core>)
    requires Shape(cfg, c) && e < |c.emergencies| && j <= |c.emergencies[e].slots| && Sendable(cfg, c, e, cs)
    ensures r.Some? ==> |r.value.twins| == |c.twins| && |r.value.emergencies| == |c.emergencies|
    decreases |c.emergencies[e].slots| - j
  {
    if j == |c.emergencies[e].slots| then Some(c)
    else if c.emergencies[e].slots[j].Some? then Fill(cfg, c, e, j + 1, cs)
    else if cs == [] then None
    else
      AssignSendable(cfg, c, e, j, cs);
      Fill(cfg, Assign(cfg, c, e, j, cs[0]), e, j + 1, cs[1..])
  }

  /** The store where the dispatch loop ends, or where it runs out of candidates. */
  function FillUntil(cfg: Config, c: Core, e: nat, j: nat, cs: seq<nat>): (d: Core)
    requires Shape(cfg, c) && e < |c.emergencies| && j <= |c.emergencies[e].slots| && Sendable(cfg, c, e, cs)
    decreases |c.emergencies[e].slots| - j
  {
    if j == |c.emergencies[e].slots| then c
    else if c.emergencies[e].slots[j].Some? then FillUntil(cfg, c, e, j + 1, cs)
    else if cs == [] then c
    else
      AssignSendable(cfg, c, e, j, cs);
      FillUntil(cfg, Assign(cfg, c, e, j, cs[0]), e, j + 1, cs[1..])
  }

  function NothingMissing(em: Emergency): Emergency {
    em.(missing := seq(|em.missing|, _ => 0))
  }

  /** How a search ends.  Overrun: the dispatch loop needs more candidates than were
      collected, and the server reads beyond its candidate array. */
  datatype Outcome = NotFound | Found(core: Core) | Overrun

  lemma CandidatesSendable(q: Quest, cs: seq<nat>)
    requires Sensible(q) && Fit(q, cs)
    ensures Sendable(q.cfg, q.core, q.e, cs)
  {
    assert ShapeEmergency(q.cfg, Self(q));
    forall m | 0 <= m < |cs| ensures Assignable(q.cfg, q.core, q.e, cs[m]) {
      assert Eligible(q, cs[m], {});
    }
  }

  lemma SearchSendable(q: Quest)
    requires Sensible(q) && Search(q).Some?
    ensures Sendable(q.cfg, q.core, q.e, Search(q).value)
  {
    SearchFinds(q);
    CandidatesSendable(q, Search(q).value);
  }

  /** find_rescuers */
  function FindRescuers(q: Quest): Outcome
    requires Sensible(q)
  {
    if Sum(Self(q).missing) == 0 then Found(q.core)
    else match Search(q)
      case None => NotFound
      case Some(cs) =>
        SearchSendable(q);
        match Fill(q.cfg, q.core, q.e, 0, cs)
        case None => Overrun
        case Some(d) => Found(Core(d.twins, d.emergencies[q.e := NothingMissing(d.emergencies[q.e])]))
  }

  // ---------------------------------------------------------------- the updater

  /** An emergency twin i has finished with: one fewer to wait for, its slot empty. */
  function Released(em: Emergency, t: Twin, i: nat): Emergency {
    em.(notDone := em.notDone - 1,
        slots := Without(em.slots, i),
        log := em.log[i := Service(t.rtype, t.served + 1)])
  }

  /** update_rescuer_digital_twin_state */
  function TickTwin(cfg: Config, c: Core, i: nat): (d: Core)
    requires Shape(cfg, c) && i < |c.twins|
    ensures |d.twins| == |c.twins| && |d.emergencies| == |c.emergencies|
  {
    var t := c.twins[i];
    assert ShapeTwin(cfg, c, t);
    var u := TickAlone(cfg.rescuers[t.rtype], t);
    if Finishes(t, u) then
      var e := t.emergency.value;
      Core(c.twins[i := u], c.emergencies[e := Released(c.emergencies[e], t, i)])
    else if Arrives(t, u) then
      var e := t.emergency.value;
      Core(c.twins[i := u],
           c.emergencies[e := c.emergencies[e].(notArrived := c.emergencies[e].notArrived - 1)])
    else
      Core(c.twins[i := u], c.emergencies)
  }

  /** update_active_emergency_state */
  function TickEmergency(cfg: Config, em: Emergency): Emergency
    requires ValidTable(cfg.table)
  {
    if em.urgency.promotion != NO_PROMOTION then
      em.(urgency := CountDown(cfg.table, em.urgency))
    else if em.status == Paused then
      em.(urgency := em.urgency.(timeout := em.urgency.timeout - 1))
    else if em.notDone <= 0 then
      em.(status := Completed, cond := Signal(em.cond))
    else if em.notArrived <= 0 && em.status == Assigned then
      em.(status := InProgress)
    else em
  }
}
