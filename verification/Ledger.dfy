/** Every operation under the system lock keeps the books. */
module Ledger {
  import opened Common
  import opened PriorityTable
  import opened Domain
  import opened Dispatcher
  import opened Accounting

  // ---------------------------------------------------------------- a twin's update

  /** What an update can do to a twin. */
  lemma TickAloneFacts(r: RescuerType, t: Twin)
    ensures var u := TickAlone(r, t);
            && u.rtype == t.rtype
            && (Finishes(t, u) <==> t.status == OnScene && t.timeLeft <= 1)
            && (Finishes(t, u) ==> !OnDuty(u) && u.emergency == None)
            && (t.status == OnScene && !Finishes(t, u) ==>
                  u == t.(timeLeft := t.timeLeft - 1, served := t.served + 1))
            && (t.status == EnRoute ==>
                  OnDuty(u) && u.emergency == t.emergency && u.timeToManage == t.timeToManage)
            && (Arrives(t, u) ==> u.timeLeft == t.timeToManage && u.served == 0)
            && (!OnDuty(t) ==> !OnDuty(u) && u.emergency == t.emergency)
  {
  }

  /** Nobody works for a completed or a waiting emergency. */
  lemma AtWorkMeansActive(cfg: Config, c: Core, i: nat)
    requires Books(cfg, c) && i < |c.twins| && OnDuty(c.twins[i])
    ensures var e := c.twins[i].emergency;
            e.Some? && e.value < |c.emergencies|
            && c.emergencies[e.value].status != Completed && c.emergencies[e.value].status != Waiting
            && Some(i) in c.emergencies[e.value].slots
  {
    hide Books;
    TwinPage(cfg, c, i);
    var e := c.twins[i].emergency.value;
    EmergencyPage(cfg, c, e);
    SumNonNegative(c.emergencies[e].missing);
    assert i in Crew(c.twins, e, None, c.twins[i].status);
  }

  lemma {:induction false} SumNonNegative(s: seq<int>)
    requires forall k :: 0 <= k < |s| ==> s[k] >= 0
    ensures Sum(s) >= 0
  {
    if s == [] {
    } else {
      SumNonNegative(s[..|s| - 1]);
    }
  }

  /** The emergency's own books for a twin that has finished: the totals. */
  lemma ReleaseTotals(t: Twin, u: Twin, e: nat, was: Emergency, i: nat)
    requires t.status == OnScene && t.emergency == Some(e) && u.emergency == None
    requires Some(i) in was.slots && i !in was.log
    ensures Booked(t, u, e, was, Released(was, t, i))
  {
    FreeWithout(was.slots, i);
    LoggedAdd(was.log, i, Service(t.rtype, t.served + 1), 0);
  }

  lemma ReleaseType(t: Twin, u: Twin, e: nat, was: Emergency, i: nat, k: nat, r: nat)
    requires t.status == OnScene && t.emergency == Some(e) && u.emergency == None
    requires i !in was.log && k < |was.missing|
    ensures TypeBooked(t, u, e, was, Released(was, t, i), k, r)
  {
    LoggedAdd(was.log, i, Service(t.rtype, t.served + 1), r);
  }

  lemma ReleaseLogged(cfg: Config, c: Core, i: nat)
    requires Books(cfg, c) && i < |c.twins| && c.twins[i].status == OnScene && c.twins[i].timeLeft <= 1
    requires c.twins[i].emergency.Some? && c.twins[i].emergency.value < |c.emergencies|
    ensures var em := c.emergencies[c.twins[i].emergency.value];
            && ShapeEmergency(cfg, Released(em, c.twins[i], i))
            && LogServed(cfg, Released(em, c.twins[i], i)) && StatusSound(cfg, Released(em, c.twins[i], i))
  {
    hide Books;
    AtWorkMeansActive(cfg, c, i);
    TwinPage(cfg, c, i);
    EmergencyPage(cfg, c, c.twins[i].emergency.value);
  }

  /** Finishing: the twin is logged with its full time and leaves its slot. */
  lemma FinishKeepsBooks(cfg: Config, c: Core, i: nat, u: Twin)
    requires Books(cfg, c) && i < |c.twins|
    requires c.twins[i].status == OnScene && c.twins[i].timeLeft <= 1
    requires c.twins[i].emergency.Some? && c.twins[i].emergency.value < |c.emergencies|
    requires !OnDuty(u) && u.emergency == None && u.rtype == c.twins[i].rtype
    ensures var e := c.twins[i].emergency.value;
            Books(cfg, Move(c, i, u, e, Released(c.emergencies[e], c.twins[i], i)))
  {
    hide Books;
    var t := c.twins[i];
    var e := t.emergency.value;
    var was := c.emergencies[e];
    var em := Released(was, t, i);
    TwinPage(cfg, c, i);
    EmergencyPage(cfg, c, e);
    ReleaseTotals(t, u, e, was, i);
    forall k | 0 <= k < |Requests(cfg, em)| ensures TypeBooked(t, u, e, was, em, k, Requests(cfg, em)[k].rtype) {
      ReleaseType(t, u, e, was, i, k, Requests(cfg, em)[k].rtype);
    }
    ReleaseLogged(cfg, c, i);
    MoveKeepsBooks(cfg, c, i, u, e, em);
  }

  function Reached(em: Emergency): Emergency {
    em.(notArrived := em.notArrived - 1)
  }

  lemma ReachedBooked(t: Twin, u: Twin, e: nat, was: Emergency)
    requires t.status == EnRoute && t.emergency == Some(e) && u.status == OnScene && u.emergency == Some(e)
    ensures Booked(t, u, e, was, Reached(was))
    ensures u.rtype == t.rtype ==>
              forall k, r :: 0 <= k < |was.missing| ==> TypeBooked(t, u, e, was, Reached(was), k, r)
  {
  }

  /** Arriving: one fewer rescuer has not arrived yet. */
  lemma ArriveKeepsBooks(cfg: Config, c: Core, i: nat, u: Twin)
    requires Books(cfg, c) && i < |c.twins| && ValidConfig(cfg)
    requires c.twins[i].emergency.Some? && c.twins[i].emergency.value < |c.emergencies|
    requires c.twins[i].status == EnRoute && u.status == OnScene
    requires u.emergency == c.twins[i].emergency && u.rtype == c.twins[i].rtype
    requires u.timeToManage == c.twins[i].timeToManage && u.timeLeft == u.timeToManage && u.served == 0
    ensures var e := c.twins[i].emergency.value;
            Books(cfg, Move(c, i, u, e, Reached(c.emergencies[e])))
  {
    hide Books;
    var t := c.twins[i];
    var e := t.emergency.value;
    TwinPage(cfg, c, i);
    EmergencyPage(cfg, c, e);
    TimesPositive(cfg, c.emergencies[e], t.rtype);
    ReachedBooked(t, u, e, c.emergencies[e]);
    MoveKeepsBooks(cfg, c, i, u, e, Reached(c.emergencies[e]));
  }

  lemma TimesPositive(cfg: Config, em: Emergency, r: nat)
    requires ValidConfig(cfg) && Wanted(cfg, em, r)
    ensures Requests(cfg, em)[RequestOf(Requests(cfg, em), r)].time >= 1
  {
    assert ValidRequests(cfg, Requests(cfg, em));
  }

  /** Staying: a twin that walks, serves or rests changes nobody's books. */
  lemma StayKeepsBooks(cfg: Config, c: Core, i: nat, u: Twin)
    requires Books(cfg, c) && i < |c.twins|
    requires u.emergency == c.twins[i].emergency && u.rtype == c.twins[i].rtype
    requires OnDuty(u) || OnDuty(c.twins[i]) ==> u.status == c.twins[i].status
    requires u.timeToManage == c.twins[i].timeToManage || !OnDuty(u)
    requires u.status == OnScene ==> u.timeLeft >= 1 && u.served + u.timeLeft == u.timeToManage
    ensures Books(cfg, Core(c.twins[i := u], c.emergencies))
  {
    if |c.emergencies| == 0 {
      NoEmergencies(cfg, c, i, u);
    } else {
      hide Books;
      TwinPage(cfg, c, i);
      StayIsMove(cfg, c, i, u, if u.emergency.Some? then u.emergency.value else 0);
    }
  }

  lemma StayIsMove(cfg: Config, c: Core, i: nat, u: Twin, e: nat)
    requires Books(cfg, c) && i < |c.twins| && e < |c.emergencies|
    requires u.emergency == c.twins[i].emergency && u.rtype == c.twins[i].rtype
    requires u.emergency == None || u.emergency == Some(e)
    requires OnDuty(u) || OnDuty(c.twins[i]) ==> u.status == c.twins[i].status
    requires u.timeToManage == c.twins[i].timeToManage || !OnDuty(u)
    requires u.status == OnScene ==> u.timeLeft >= 1 && u.served + u.timeLeft == u.timeToManage
    ensures Books(cfg, Core(c.twins[i := u], c.emergencies))
  {
    hide Books;
    TwinPage(cfg, c, i);
    EmergencyPage(cfg, c, e);
    MoveKeepsBooks(cfg, c, i, u, e, c.emergencies[e]);
    assert Move(c, i, u, e, c.emergencies[e]) == Core(c.twins[i := u], c.emergencies);
  }

  lemma NoEmergencies(cfg: Config, c: Core, i: nat, u: Twin)
    requires Books(cfg, c) && i < |c.twins| && c.emergencies == []
    requires u.emergency == c.twins[i].emergency && u.rtype == c.twins[i].rtype
    requires OnDuty(u) || OnDuty(c.twins[i]) ==> u.status == c.twins[i].status
    ensures Books(cfg, Core(c.twins[i := u], c.emergencies))
  {
    var d := Core(c.twins[i := u], c.emergencies);
    forall x | 0 <= x < |d.twins| ensures ShapeTwin(cfg, d, d.twins[x]) && TwinLinked(d, x) && !OnDuty(d.twins[x]) {
      assert ShapeTwin(cfg, c, c.twins[x]) && TwinLinked(c, x);
    }
  }

  /** The update of any twin keeps the books. */
  lemma TickTwinKeepsBooks(cfg: Config, c: Core, i: nat)
    requires ValidConfig(cfg) && Books(cfg, c) && i < |c.twins|
    ensures Shape(cfg, c) && Books(cfg, TickTwin(cfg, c, i))
  {
    hide Books, TickAlone, ValidConfig;
    TwinPage(cfg, c, i);
    var t := c.twins[i];
    var u := TickAlone(cfg.rescuers[t.rtype], t);
    TickAloneFacts(cfg.rescuers[t.rtype], t);
    if Finishes(t, u) {
      FinishKeepsBooks(cfg, c, i, u);
    } else if Arrives(t, u) {
      ArriveKeepsBooks(cfg, c, i, u);
    } else {
      StayKeepsBooks(cfg, c, i, u);
    }
  }

  // ---------------------------------------------------------------- an emergency on its own

  /** A change of status, urgency or condition touches no count. */
  lemma TouchKeepsBooks(cfg: Config, c: Core, e: nat, em: Emergency)
    requires Books(cfg, c) && e < |c.emergencies|
    requires em == c.emergencies[e].(status := em.status, urgency := em.urgency, cond := em.cond)
    requires ShapeEmergency(cfg, em) && StatusSound(cfg, em)
    ensures Books(cfg, Core(c.twins, c.emergencies[e := em]))
  {
    hide Books, ShapeTwin, TwinLinked, TwinServes, ShapeEmergency, SlotsLinked, Balanced, LogServed, StatusSound;
    var d := Core(c.twins, c.emergencies[e := em]);
    forall y | 0 <= y < |d.emergencies|
      ensures && ShapeEmergency(cfg, d.emergencies[y]) && SlotsLinked(d, y) && Balanced(cfg, d, y)
              && LogServed(cfg, d.emergencies[y]) && StatusSound(cfg, d.emergencies[y])
    {
      TouchEmergency(cfg, c, e, em, y);
    }
    forall x | 0 <= x < |d.twins| ensures ShapeTwin(cfg, d, d.twins[x]) && TwinLinked(d, x) && TwinServes(cfg, d, x) {
      TouchTwin(cfg, c, e, em, x);
    }
    BindBooks(cfg, d);
  }

  lemma TouchTwin(cfg: Config, c: Core, e: nat, em: Emergency, x: nat)
    requires Books(cfg, c) && e < |c.emergencies| && x < |c.twins|
    requires em == c.emergencies[e].(status := em.status, urgency := em.urgency, cond := em.cond)
    ensures var d := Core(c.twins, c.emergencies[e := em]);
            ShapeTwin(cfg, d, d.twins[x]) && TwinLinked(d, x) && TwinServes(cfg, d, x)
  {
    hide Books;
    TwinPage(cfg, c, x);
  }

  lemma TouchEmergency(cfg: Config, c: Core, e: nat, em: Emergency, y: nat)
    requires Books(cfg, c) && e < |c.emergencies| && y < |c.emergencies|
    requires em == c.emergencies[e].(status := em.status, urgency := em.urgency, cond := em.cond)
    requires ShapeEmergency(cfg, em) && StatusSound(cfg, em)
    ensures var d := Core(c.twins, c.emergencies[e := em]);
            && ShapeEmergency(cfg, d.emergencies[y])
            && SlotsLinked(d, y) && Balanced(cfg, d, y) && LogServed(cfg, d.emergencies[y])
               && StatusSound(cfg, d.emergencies[y])
  {
    hide Books;
    EmergencyPage(cfg, c, y);
    var d := Core(c.twins, c.emergencies[e := em]);
    forall k | 0 <= k < |Requests(cfg, c.emergencies[y])| ensures TypeBalanced(cfg, d, y, k) {
      assert TypeBalanced(cfg, c, y, k);
    }
  }

  /** The tick of an active emergency keeps the books. */
  lemma TickEmergencyKeepsBooks(cfg: Config, c: Core, e: nat)
    requires ValidConfig(cfg) && Books(cfg, c) && e < |c.emergencies|
    ensures Books(cfg, Core(c.twins, c.emergencies[e := TickEmergency(cfg, c.emergencies[e])]))
  {
    hide Books;
    EmergencyPage(cfg, c, e);
    CountsNonNegative(cfg, c, e);
    TouchKeepsBooks(cfg, c, e, TickEmergency(cfg, c.emergencies[e]));
  }

  /** What the tick of an active emergency decides, in terms of its twins: it completes
      exactly when its promotion timer is off, it is not paused and every required twin has
      finished; it gets under way exactly when, short of that, every twin still required is
      on scene. */
  lemma DecidesByTwins(cfg: Config, c: Core, e: nat)
    requires ValidTable(cfg.table) && Books(cfg, c) && e < |c.emergencies| && c.emergencies[e].status != Completed
    ensures var em, after := c.emergencies[e], TickEmergency(cfg, c.emergencies[e]).status;
            var onScene := |Crew(c.twins, e, None, OnScene)|;
            && (after == Completed <==>
                  em.urgency.promotion == NO_PROMOTION && em.status != Paused && |em.log| == |em.slots|)
            && (after == InProgress && em.status != InProgress <==>
                  em.urgency.promotion == NO_PROMOTION && em.status == Assigned
                  && |em.log| < |em.slots| && |em.log| + onScene == |em.slots|)
  {
    hide Books, ValidTable;
    EmergencyPage(cfg, c, e);
    CountsNonNegative(cfg, c, e);
  }

  /** 0 <= not arrived <= not done <= rescuer count. */
  lemma CountsNonNegative(cfg: Config, c: Core, e: nat)
    requires Books(cfg, c) && e < |c.emergencies|
    ensures var em := c.emergencies[e];
            0 <= em.notArrived <= em.notDone <= |em.slots|
  {
    hide Books;
    EmergencyPage(cfg, c, e);
    SumNonNegative(c.emergencies[e].missing);
  }

  // ---------------------------------------------------------------- robbing and joining

  /** The twin between two emergencies. */
  function Unbound(t: Twin): Twin {
    t.(status := Idle, emergency := None)
  }

  lemma RobbedTotals(cfg: Config, t: Twin, e: nat, was: Emergency, i: nat)
    requires ShapeEmergency(cfg, was) && Wanted(cfg, was, t.rtype)
    requires OnDuty(t) && t.emergency == Some(e) && Some(i) in was.slots
    ensures Booked(t, Unbound(t), e, was, Robbed(cfg, was, t, i))
  {
    FreeWithout(was.slots, i);
    var k := RequestOf(Requests(cfg, was), t.rtype);
    SumChange(was.missing, k, was.missing[k] + 1);
  }

  /** In a list of distinct types, a type has only one request. */
  lemma OneRequest(cfg: Config, requests: seq<Request>, k: nat, r: nat)
    requires ValidRequests(cfg, requests) && k < |requests| && requests[k].rtype == r
    ensures RequestOf(requests, r) == k
  {
    var m := RequestOf(requests, r);
    HasRequest(requests, k, r);
    assert requests[m].rtype == requests[k].rtype;
  }

  lemma {:induction false} HasRequest(requests: seq<Request>, k: nat, r: nat)
    requires k < |requests| && requests[k].rtype == r
    ensures RequestOf(requests, r) < |requests|
  {
    if k == |requests| - 1 {
    } else {
      HasRequest(requests[..|requests| - 1], k, r);
    }
  }

  lemma RobbedType(cfg: Config, t: Twin, e: nat, was: Emergency, i: nat, k: nat)
    requires ValidConfig(cfg) && ShapeEmergency(cfg, was) && Wanted(cfg, was, t.rtype)
    requires OnDuty(t) && t.emergency == Some(e) && k < |Requests(cfg, was)|
    ensures TypeBooked(t, Unbound(t), e, was, Robbed(cfg, was, t, i), k, Requests(cfg, was)[k].rtype)
  {
    assert ValidRequests(cfg, Requests(cfg, was));
    if Requests(cfg, was)[k].rtype == t.rtype {
      OneRequest(cfg, Requests(cfg, was), k, t.rtype);
    }
  }

  /** Being robbed: one more of the twin's type is missing. */
  lemma RobKeepsBooks(cfg: Config, c: Core, i: nat)
    requires ValidConfig(cfg) && Books(cfg, c) && i < |c.twins| && OnDuty(c.twins[i])
    ensures Shape(cfg, c) && ShapeTwin(cfg, c, c.twins[i])
    ensures var e := c.twins[i].emergency.value;
            Books(cfg, Move(c, i, Unbound(c.twins[i]), e, Robbed(cfg, c.emergencies[e], c.twins[i], i)))
  {
    hide Books, ValidConfig, TypeBooked, Booked, Balanced;
    TwinPage(cfg, c, i);
    var t := c.twins[i];
    var e := t.emergency.value;
    var was := c.emergencies[e];
    EmergencyPage(cfg, c, e);
    RobbedTotals(cfg, t, e, was, i);
    RobbedShape(cfg, was, t, i);
    forall k | 0 <= k < |Requests(cfg, was)|
      ensures TypeBooked(t, Unbound(t), e, was, Robbed(cfg, was, t, i), k, Requests(cfg, was)[k].rtype)
    {
      RobbedType(cfg, t, e, was, i, k);
    }
    AtWorkMeansActive(cfg, c, i);
    MoveKeepsBooks(cfg, c, i, Unbound(t), e, Robbed(cfg, was, t, i));
  }

  /** An emergency that gains twin i in slot j: one fewer of its type is missing. */
  function Joined(cfg: Config, em: Emergency, r: nat, j: nat, i: nat): Emergency
    requires ShapeEmergency(cfg, em) && Wanted(cfg, em, r) && j < |em.slots|
  {
    var k := RequestOf(Requests(cfg, em), r);
    em.(slots := em.slots[j := Some(i)], missing := em.missing[k := em.missing[k] - 1])
  }

  lemma JoinedTotals(cfg: Config, t: Twin, u: Twin, e: nat, was: Emergency, j: nat, i: nat)
    requires ShapeEmergency(cfg, was) && Wanted(cfg, was, t.rtype) && j < |was.slots| && was.slots[j] == None
    requires t.emergency == None && u.emergency == Some(e) && u.status == EnRoute
    ensures Booked(t, u, e, was, Joined(cfg, was, t.rtype, j, i))
  {
    FreeChange(was.slots, j, Some(i));
    var k := RequestOf(Requests(cfg, was), t.rtype);
    SumChange(was.missing, k, was.missing[k] - 1);
  }

  lemma JoinedType(cfg: Config, t: Twin, u: Twin, e: nat, was: Emergency, j: nat, i: nat, k: nat)
    requires ValidConfig(cfg) && ShapeEmergency(cfg, was) && Wanted(cfg, was, t.rtype) && j < |was.slots|
    requires t.emergency == None && u.emergency == Some(e) && u.status == EnRoute && u.rtype == t.rtype
    requires k < |Requests(cfg, was)|
    ensures TypeBooked(t, u, e, was, Joined(cfg, was, t.rtype, j, i), k, Requests(cfg, was)[k].rtype)
  {
    assert ValidRequests(cfg, Requests(cfg, was));
    if Requests(cfg, was)[k].rtype == t.rtype {
      OneRequest(cfg, Requests(cfg, was), k, t.rtype);
    }
  }

  /** What emergency e must offer to twin i in slot j. */
  ghost predicate HasPlaceFor(cfg: Config, c: Core, e: nat, j: nat, i: nat) {
    && e < |c.emergencies| && i < |c.twins|
    && var em := c.emergencies[e];
       && ShapeEmergency(cfg, em) && Wanted(cfg, em, c.twins[i].rtype)
       && j < |em.slots| && em.slots[j] == None
       && em.missing[RequestOf(Requests(cfg, em), c.twins[i].rtype)] >= 1
       && i !in em.log && em.status != Waiting
  }

  /** Joining: an unbound twin is sent to an emergency that misses one of its type. */
  lemma JoinKeepsBooks(cfg: Config, c: Core, e: nat, j: nat, i: nat, u: Twin)
    requires ValidConfig(cfg) && Books(cfg, c) && HasPlaceFor(cfg, c, e, j, i)
    requires c.twins[i].emergency == None && u.rtype == c.twins[i].rtype
    requires u.status == EnRoute && u.emergency == Some(e)
    requires var requests := Requests(cfg, c.emergencies[e]);
             u.timeToManage == requests[RequestOf(requests, u.rtype)].time
    ensures Books(cfg, Move(c, i, u, e, Joined(cfg, c.emergencies[e], u.rtype, j, i)))
  {
    hide Books, ValidConfig;
    TwinPage(cfg, c, i);
    EmergencyPage(cfg, c, e);
    var t, was := c.twins[i], c.emergencies[e];
    var em := Joined(cfg, was, u.rtype, j, i);
    JoinedTotals(cfg, t, u, e, was, j, i);
    forall k | 0 <= k < |Requests(cfg, em)| ensures TypeBooked(t, u, e, was, em, k, Requests(cfg, em)[k].rtype) {
      JoinedType(cfg, t, u, e, was, j, i, k);
    }
    assert Takes(was.slots, em.slots, i, j);
    MoveKeepsBooks(cfg, c, i, u, e, em);
  }
}
