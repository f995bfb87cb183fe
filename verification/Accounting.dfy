/** The books the server keeps about its rescuers, and why they balance.

  The counters of an emergency are changed by different functions of different
  threads.  Each change moves one twin between one emergency and the rest of the
  world; this module says which invariants such a move must keep, and the next
  ones show that every operation of the server is made of such moves. */
module Accounting {
  import opened Common
  import opened Domain

  // ---------------------------------------------------------------- counting twins

  /** The twin works for emergency e in the given status, and is of type r when one is given. */
  predicate Works(t: Twin, e: nat, r: Option<nat>, status: TwinStatus) {
    t.emergency == Some(e) && t.status == status && (r.None? || t.rtype == r.value)
  }

  ghost function Crew(twins: seq<Twin>, e: nat, r: Option<nat>, status: TwinStatus): set<nat> {
    set i: nat | i < |twins| && Works(twins[i], e, r, status)
  }

  function Unit(b: bool): int {
    if b then 1 else 0
  }

  /** How a change of one twin changes a crew. */
  function Delta(t: Twin, u: Twin, e: nat, r: Option<nat>, status: TwinStatus): int {
    Unit(Works(u, e, r, status)) - Unit(Works(t, e, r, status))
  }

  lemma CrewChange(twins: seq<Twin>, i: nat, u: Twin, e: nat, r: Option<nat>, status: TwinStatus)
    requires i < |twins|
    ensures |Crew(twins[i := u], e, r, status)| == |Crew(twins, e, r, status)| + Delta(twins[i], u, e, r, status)
  {
    var a, b := Crew(twins, e, r, status), Crew(twins[i := u], e, r, status);
    assert i in a <==> Works(twins[i], e, r, status);
    assert i in b <==> Works(u, e, r, status);
    OneElement(a, b, i);
  }

  /** Two sets that agree except perhaps on one element. */
  lemma OneElement(a: set<nat>, b: set<nat>, i: nat)
    requires forall x :: x != i ==> (x in a <==> x in b)
    ensures |b| == |a| + Unit(i in b) - Unit(i in a)
  {
    if i in a && i !in b {
      assert a == b + {i};
    } else if i !in a && i in b {
      assert b == a + {i};
    } else {
      assert a == b;
    }
  }

  /** How many finished twins of one type an emergency has logged. */
  ghost function Logged(log: map<nat, Service>, r: nat): set<nat> {
    set i | i in log && log[i].rtype == r
  }

  lemma LoggedAdd(log: map<nat, Service>, i: nat, s: Service, r: nat)
    requires i !in log
    ensures |Logged(log[i := s], r)| == |Logged(log, r)| + Unit(s.rtype == r)
    ensures |log[i := s]| == |log| + 1
  {
    OneElement(Logged(log, r), Logged(log[i := s], r), i);
    assert log[i := s].Keys == log.Keys + {i};
  }

  function Free(slots: seq<Option<nat>>): nat {
    if slots == [] then 0 else Free(slots[..|slots| - 1]) + if slots[|slots| - 1].None? then 1 else 0
  }

  lemma {:induction false} FreeChange(slots: seq<Option<nat>>, j: nat, v: Option<nat>)
    requires j < |slots|
    ensures Free(slots[j := v]) == Free(slots) + Unit(v.None?) - Unit(slots[j].None?)
  {
    var n := |slots| - 1;
    if j < n {
      FreeChange(slots[..n], j, v);
      assert slots[j := v][..n] == slots[..n][j := v];
    } else {
      assert slots[j := v][..n] == slots[..n];
    }
  }

  lemma {:induction false} SumChange(s: seq<int>, k: nat, v: int)
    requires k < |s|
    ensures Sum(s[k := v]) == Sum(s) + v - s[k]
  {
    var n := |s| - 1;
    if k < n {
      SumChange(s[..n], k, v);
      assert s[k := v][..n] == s[..n][k := v];
    } else {
      assert s[k := v][..n] == s[..n];
    }
  }

  // ---------------------------------------------------------------- the invariants

  /** The slots of e hold twins that work for e, none twice. */
  ghost predicate SlotsLinked(c: Core, e: nat)
    requires e < |c.emergencies|
  {
    var slots := c.emergencies[e].slots;
    && (forall j :: 0 <= j < |slots| && slots[j].Some? ==>
          slots[j].value < |c.twins| && c.twins[slots[j].value].emergency == Some(e))
    && (forall j, k :: 0 <= j < k < |slots| && slots[j].Some? ==> slots[j] != slots[k])
  }

  /** A twin that works for an emergency has a slot there. */
  ghost predicate TwinLinked(c: Core, i: nat)
    requires i < |c.twins|
  {
    var t := c.twins[i];
    t.emergency.Some? ==> t.emergency.value < |c.emergencies| && Some(i) in c.emergencies[t.emergency.value].slots
  }

  ghost predicate Linked(c: Core) {
    && (forall e :: 0 <= e < |c.emergencies| ==> SlotsLinked(c, e))
    && (forall i :: 0 <= i < |c.twins| ==> TwinLinked(c, i))
  }

  /** For each requested type: required = missing + en route + on scene + finished. */
  ghost predicate TypeBalanced(cfg: Config, c: Core, e: nat, k: nat)
    requires e < |c.emergencies| && ShapeEmergency(cfg, c.emergencies[e])
    requires k < |Requests(cfg, c.emergencies[e])|
  {
    var em, q := c.emergencies[e], Requests(cfg, c.emergencies[e])[k];
    q.count == em.missing[k] + |Crew(c.twins, e, Some(q.rtype), EnRoute)| + |Crew(c.twins, e, Some(q.rtype), OnScene)|
               + |Logged(em.log, q.rtype)|
  }

  /** Over all types: the two counters, the number of slots and the number of free ones. */
  ghost predicate TotalsBalanced(c: Core, e: nat)
    requires e < |c.emergencies|
  {
    var em := c.emergencies[e];
    var enRoute, onScene := |Crew(c.twins, e, None, EnRoute)|, |Crew(c.twins, e, None, OnScene)|;
    && em.notArrived == Sum(em.missing) + enRoute
    && em.notDone == Sum(em.missing) + enRoute + onScene
    && |em.slots| == Sum(em.missing) + enRoute + onScene + |em.log|
    && Free(em.slots) == Sum(em.missing) + |em.log|
  }

  ghost predicate Balanced(cfg: Config, c: Core, e: nat)
    requires e < |c.emergencies| && ShapeEmergency(cfg, c.emergencies[e])
  {
    && TotalsBalanced(c, e)
    && (forall k :: 0 <= k < |Requests(cfg, c.emergencies[e])| ==> TypeBalanced(cfg, c, e, k))
  }

  /** A twin at work serves the time its emergency asks of its type, and on scene no update is lost. */
  ghost predicate TwinServes(cfg: Config, c: Core, i: nat)
    requires i < |c.twins| && ShapeTwin(cfg, c, c.twins[i])
  {
    var t := c.twins[i];
    && (OnDuty(t) ==>
          var requests := Requests(cfg, c.emergencies[t.emergency.value]);
          t.timeToManage == requests[RequestOf(requests, t.rtype)].time
          && i !in c.emergencies[t.emergency.value].log)
    && (t.status == OnScene ==> t.timeLeft >= 1 && t.served + t.timeLeft == t.timeToManage)
  }

  /** Whoever is logged as finished was of a requested type and stayed its full time. */
  ghost predicate LogServed(cfg: Config, em: Emergency)
    requires ShapeEmergency(cfg, em)
  {
    forall i :: i in em.log ==>
      var k := RequestOf(Requests(cfg, em), em.log[i].rtype);
      k < |Requests(cfg, em)| && em.log[i].ticks == Requests(cfg, em)[k].time
  }

  /** A completed emergency has nobody left to wait for; a waiting one has not begun. */
  ghost predicate StatusSound(cfg: Config, em: Emergency)
    requires ShapeEmergency(cfg, em)
  {
    && (em.status == Completed ==> em.notDone == 0)
    && (em.status == Waiting ==> em.log == map[] && forall j :: 0 <= j < |em.slots| ==> em.slots[j] == None)
    && em.status != Canceled
  }

  ghost predicate Books(cfg: Config, c: Core) {
    && Shape(cfg, c)
    && Linked(c)
    && (forall e :: 0 <= e < |c.emergencies| ==>
          Balanced(cfg, c, e) && LogServed(cfg, c.emergencies[e]) && StatusSound(cfg, c.emergencies[e]))
    && (forall i :: 0 <= i < |c.twins| ==> TwinServes(cfg, c, i))
  }

  /** The page of the books about one twin. */
  lemma TwinPage(cfg: Config, c: Core, i: nat)
    requires Books(cfg, c) && i < |c.twins|
    ensures Shape(cfg, c) && ShapeTwin(cfg, c, c.twins[i]) && TwinLinked(c, i) && TwinServes(cfg, c, i)
  {
  }

  /** The page of the books about one emergency. */
  lemma EmergencyPage(cfg: Config, c: Core, e: nat)
    requires Books(cfg, c) && e < |c.emergencies|
    ensures Shape(cfg, c) && ShapeEmergency(cfg, c.emergencies[e]) && SlotsLinked(c, e)
    ensures Balanced(cfg, c, e) && LogServed(cfg, c.emergencies[e]) && StatusSound(cfg, c.emergencies[e])
  {
  }

  /** All pages together are the books. */
  lemma BindBooks(cfg: Config, c: Core)
    requires forall e :: 0 <= e < |c.emergencies| ==>
               && ShapeEmergency(cfg, c.emergencies[e]) && SlotsLinked(c, e) && Balanced(cfg, c, e)
               && LogServed(cfg, c.emergencies[e]) && StatusSound(cfg, c.emergencies[e])
    requires forall i :: 0 <= i < |c.twins| ==>
               ShapeTwin(cfg, c, c.twins[i]) && TwinLinked(c, i) && TwinServes(cfg, c, i)
    ensures Books(cfg, c)
  {
  }

  // ---------------------------------------------------------------- one twin moves

  /** Twin i becomes u and emergency e becomes em; nothing else changes. */
  function Move(c: Core, i: nat, u: Twin, e: nat, em: Emergency): Core
    requires i < |c.twins| && e < |c.emergencies|
  {
    Core(c.twins[i := u], c.emergencies[e := em])
  }

  /** The books of the other emergencies do not notice. */
  lemma MoveElsewhere(cfg: Config, c: Core, i: nat, u: Twin, e: nat, em: Emergency, y: nat)
    requires i < |c.twins| && e < |c.emergencies| && y < |c.emergencies| && y != e
    requires c.twins[i].emergency != Some(y) && u.emergency != Some(y)
    requires ShapeEmergency(cfg, c.emergencies[y]) && Balanced(cfg, c, y)
    ensures Balanced(cfg, Move(c, i, u, e, em), y)
  {
    var d := Move(c, i, u, e, em);
    CrewChange(c.twins, i, u, y, None, EnRoute);
    CrewChange(c.twins, i, u, y, None, OnScene);
    forall k | 0 <= k < |Requests(cfg, c.emergencies[y])| ensures TypeBalanced(cfg, d, y, k) {
      var r := Requests(cfg, c.emergencies[y])[k].rtype;
      assert TypeBalanced(cfg, c, y, k);
      CrewChange(c.twins, i, u, y, Some(r), EnRoute);
      CrewChange(c.twins, i, u, y, Some(r), OnScene);
    }
  }

  /** What the emergency itself must book for the move. */
  ghost predicate Booked(t: Twin, u: Twin, e: nat, was: Emergency, em: Emergency) {
    var enRoute, onScene := Delta(t, u, e, None, EnRoute), Delta(t, u, e, None, OnScene);
    var missing, logged := Sum(em.missing) - Sum(was.missing), |em.log| - |was.log|;
    && em.notArrived - was.notArrived == missing + enRoute
    && em.notDone - was.notDone == missing + enRoute + onScene
    && |em.slots| == |was.slots|
    && 0 == missing + enRoute + onScene + logged
    && Free(em.slots) - Free(was.slots) == missing + logged
  }

  ghost predicate TypeBooked(t: Twin, u: Twin, e: nat, was: Emergency, em: Emergency, k: nat, r: nat)
    requires k < |was.missing| == |em.missing|
  {
    0 == em.missing[k] - was.missing[k] + Delta(t, u, e, Some(r), EnRoute) + Delta(t, u, e, Some(r), OnScene)
         + |Logged(em.log, r)| - |Logged(was.log, r)|
  }

  lemma MoveTotals(c: Core, i: nat, u: Twin, e: nat, em: Emergency)
    requires i < |c.twins| && e < |c.emergencies|
    requires TotalsBalanced(c, e) && Booked(c.twins[i], u, e, c.emergencies[e], em)
    ensures TotalsBalanced(Move(c, i, u, e, em), e)
  {
    CrewChange(c.twins, i, u, e, None, EnRoute);
    CrewChange(c.twins, i, u, e, None, OnScene);
  }

  lemma MoveType(cfg: Config, c: Core, i: nat, u: Twin, e: nat, em: Emergency, k: nat)
    requires i < |c.twins| && e < |c.emergencies| && ShapeEmergency(cfg, c.emergencies[e]) && ShapeEmergency(cfg, em)
    requires em.etype == c.emergencies[e].etype && k < |Requests(cfg, em)|
    requires TypeBalanced(cfg, c, e, k)
    requires TypeBooked(c.twins[i], u, e, c.emergencies[e], em, k, Requests(cfg, em)[k].rtype)
    ensures TypeBalanced(cfg, Move(c, i, u, e, em), e, k)
  {
    var r := Requests(cfg, em)[k].rtype;
    CrewChange(c.twins, i, u, e, Some(r), EnRoute);
    CrewChange(c.twins, i, u, e, Some(r), OnScene);
  }

  /** A booked move keeps the emergency's books balanced. */
  lemma MoveBalanced(cfg: Config, c: Core, i: nat, u: Twin, e: nat, em: Emergency)
    requires i < |c.twins| && e < |c.emergencies| && ShapeEmergency(cfg, c.emergencies[e]) && ShapeEmergency(cfg, em)
    requires em.etype == c.emergencies[e].etype && Balanced(cfg, c, e)
    requires Booked(c.twins[i], u, e, c.emergencies[e], em)
    requires forall k :: 0 <= k < |Requests(cfg, em)| ==>
               TypeBooked(c.twins[i], u, e, c.emergencies[e], em, k, Requests(cfg, em)[k].rtype)
    ensures Balanced(cfg, Move(c, i, u, e, em), e)
  {
    MoveTotals(c, i, u, e, em);
    forall k | 0 <= k < |Requests(cfg, em)| ensures TypeBalanced(cfg, Move(c, i, u, e, em), e, k) {
      MoveType(cfg, c, i, u, e, em, k);
    }
  }

  // ---------------------------------------------------------------- the links of a move

  /** Slot j of the emergency is given to twin i. */
  predicate Takes(slots: seq<Option<nat>>, after: seq<Option<nat>>, i: nat, j: nat) {
    j < |slots| && slots[j] == None && after == slots[j := Some(i)]
  }

  /** The slots follow the twin: it stays, it leaves, or it takes a free slot. */
  ghost predicate Follows(t: Twin, u: Twin, e: nat, i: nat, slots: seq<Option<nat>>, after: seq<Option<nat>>) {
    || (t.emergency == u.emergency && after == slots)
    || (t.emergency == Some(e) && u.emergency == None && after == Without(slots, i))
    || (t.emergency == None && u.emergency == Some(e) && exists j: nat :: Takes(slots, after, i, j))
  }

  lemma FreeWithout(slots: seq<Option<nat>>, i: nat)
    requires Some(i) in slots
    ensures Free(Without(slots, i)) == Free(slots) + 1
  {
    FreeChange(slots, SlotOf(slots, i), None);
  }

  /** Leaving frees the one slot the twin had, so it is in none afterwards. */
  lemma MoveLinksOwn(c: Core, i: nat, u: Twin, e: nat, em: Emergency)
    requires Linked(c) && i < |c.twins| && e < |c.emergencies|
    requires c.twins[i].emergency == None || c.twins[i].emergency == Some(e)
    requires Follows(c.twins[i], u, e, i, c.emergencies[e].slots, em.slots)
    ensures SlotsLinked(Move(c, i, u, e, em), e)
    ensures u.emergency == Some(e) ==> Some(i) in em.slots
  {
    var slots := c.emergencies[e].slots;
    assert SlotsLinked(c, e) && TwinLinked(c, i);
    if c.twins[i].emergency == None && u.emergency == Some(e) {
      var j: nat :| Takes(slots, em.slots, i, j);
      assert em.slots[j] == Some(i);
    }
  }

  lemma MoveLinksOther(c: Core, i: nat, u: Twin, e: nat, em: Emergency, y: nat)
    requires Linked(c) && i < |c.twins| && e < |c.emergencies| && y < |c.emergencies| && y != e
    requires c.twins[i].emergency == None || c.twins[i].emergency == Some(e)
    ensures SlotsLinked(Move(c, i, u, e, em), y)
  {
    assert SlotsLinked(c, y);
  }

  lemma MoveLinksTwin(c: Core, i: nat, u: Twin, e: nat, em: Emergency, x: nat)
    requires Linked(c) && i < |c.twins| && e < |c.emergencies| && x < |c.twins| && x != i
    requires Follows(c.twins[i], u, e, i, c.emergencies[e].slots, em.slots)
    ensures TwinLinked(Move(c, i, u, e, em), x)
  {
    var slots := c.emergencies[e].slots;
    assert TwinLinked(c, x);
    if c.twins[x].emergency == Some(e) {
      var m :| 0 <= m < |slots| && slots[m] == Some(x);
      assert em.slots[m] == Some(x);
    }
  }

  lemma MoveLinked(c: Core, i: nat, u: Twin, e: nat, em: Emergency)
    requires Linked(c) && i < |c.twins| && e < |c.emergencies|
    requires c.twins[i].emergency == None || c.twins[i].emergency == Some(e)
    requires u.emergency == None || u.emergency == Some(e)
    requires Follows(c.twins[i], u, e, i, c.emergencies[e].slots, em.slots)
    ensures Linked(Move(c, i, u, e, em))
  {
    var d := Move(c, i, u, e, em);
    forall y | 0 <= y < |d.emergencies| ensures SlotsLinked(d, y) {
      if y == e {
        MoveLinksOwn(c, i, u, e, em);
      } else {
        MoveLinksOther(c, i, u, e, em, y);
      }
    }
    forall x | 0 <= x < |d.twins| ensures TwinLinked(d, x) {
      if x == i {
        MoveLinksOwn(c, i, u, e, em);
      } else {
        MoveLinksTwin(c, i, u, e, em, x);
      }
    }
  }

  // ---------------------------------------------------------------- a whole move

  /** Everything a move of twin i from or to emergency e must satisfy to keep the books. */
  ghost predicate FairMove(cfg: Config, c: Core, i: nat, u: Twin, e: nat, em: Emergency)
    requires Shape(cfg, c) && i < |c.twins| && e < |c.emergencies|
  {
    var t, was := c.twins[i], c.emergencies[e];
    && u.rtype == t.rtype && ShapeTwin(cfg, c, u)
    && em.etype == was.etype && ShapeEmergency(cfg, em)
    && (t.emergency == None || t.emergency == Some(e))
    && (u.emergency == None || u.emergency == Some(e))
    && Follows(t, u, e, i, was.slots, em.slots)
    && Booked(t, u, e, was, em)
    && (forall x :: x in em.log ==> x in was.log || x == i)
    && LogServed(cfg, em) && StatusSound(cfg, em)
  }

  lemma MoveShape(cfg: Config, c: Core, i: nat, u: Twin, e: nat, em: Emergency)
    requires Shape(cfg, c) && i < |c.twins| && e < |c.emergencies|
    requires u.rtype == c.twins[i].rtype && ShapeTwin(cfg, c, u)
    requires em.etype == c.emergencies[e].etype && ShapeEmergency(cfg, em)
    ensures Shape(cfg, Move(c, i, u, e, em))
  {
    var d := Move(c, i, u, e, em);
    forall x | 0 <= x < |d.twins| ensures ShapeTwin(cfg, d, d.twins[x]) {
      assert ShapeTwin(cfg, c, c.twins[x]);
    }
    forall y | 0 <= y < |d.emergencies| ensures ShapeEmergency(cfg, d.emergencies[y]) {
      assert ShapeEmergency(cfg, c.emergencies[y]);
    }
  }

  lemma MoveServes(cfg: Config, c: Core, i: nat, u: Twin, e: nat, em: Emergency, x: nat)
    requires Shape(cfg, c) && i < |c.twins| && e < |c.emergencies| && x < |c.twins| && x != i
    requires FairMove(cfg, c, i, u, e, em) && Shape(cfg, Move(c, i, u, e, em)) && TwinServes(cfg, c, x)
    ensures TwinServes(cfg, Move(c, i, u, e, em), x)
  {
    assert ShapeTwin(cfg, c, c.twins[x]);
  }

  /** A fair move keeps all the books. */
  lemma MoveKeepsBooks(cfg: Config, c: Core, i: nat, u: Twin, e: nat, em: Emergency)
    requires Books(cfg, c) && i < |c.twins| && e < |c.emergencies|
    requires FairMove(cfg, c, i, u, e, em)
    requires forall k :: 0 <= k < |Requests(cfg, em)| ==>
               TypeBooked(c.twins[i], u, e, c.emergencies[e], em, k, Requests(cfg, em)[k].rtype)
    requires ShapeTwin(cfg, Move(c, i, u, e, em), u) && TwinServes(cfg, Move(c, i, u, e, em), i)
    ensures Books(cfg, Move(c, i, u, e, em))
  {
    var d := Move(c, i, u, e, em);
    MoveShape(cfg, c, i, u, e, em);
    MoveLinked(c, i, u, e, em);
    forall y | 0 <= y < |d.emergencies|
      ensures Balanced(cfg, d, y) && LogServed(cfg, d.emergencies[y]) && StatusSound(cfg, d.emergencies[y])
    {
      assert Balanced(cfg, c, y) && LogServed(cfg, c.emergencies[y]) && StatusSound(cfg, c.emergencies[y]);
      if y == e {
        MoveBalanced(cfg, c, i, u, e, em);
      } else {
        MoveElsewhere(cfg, c, i, u, e, em, y);
      }
    }
    forall x | 0 <= x < |d.twins| ensures TwinServes(cfg, d, x) {
      if x != i {
        MoveServes(cfg, c, i, u, e, em, x);
      }
    }
  }
}
