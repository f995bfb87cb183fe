/** A successful search keeps the books, and when the dispatch loop overruns its candidates. */
module Dispatch {
  import opened Common
  import opened PriorityTable
  import opened Domain
  import opened Selection
  import opened Dispatcher
  import opened Accounting
  import opened Ledger

  // ---------------------------------------------------------------- one twin is placed

  /** A turn of the dispatch loop that also books the twin as no longer missing. */
  function Place(cfg: Config, c: Core, e: nat, j: nat, i: nat): Core
    requires Shape(cfg, c) && Assignable(cfg, c, e, i) && j < |c.emergencies[e].slots|
  {
    var d := Assign(cfg, c, e, j, i);
    var em := c.emergencies[e];
    assert ShapeEmergency(cfg, em);
    Core(d.twins, d.emergencies[e := Joined(cfg, em, c.twins[i].rtype, j, i)])
  }

  /** The twin on its way to emergency e. */
  function Sent(cfg: Config, c: Core, e: nat, i: nat): Twin
    requires Assignable(cfg, c, e, i)
  {
    var em := c.emergencies[e];
    SendToScene(c.twins[i], e, em.x, em.y, Requests(cfg, em)[RequestOf(Requests(cfg, em), c.twins[i].rtype)].time)
  }

  lemma SentFacts(cfg: Config, c: Core, e: nat, i: nat)
    requires Assignable(cfg, c, e, i)
    ensures var u := Sent(cfg, c, e, i);
            && u.status == EnRoute && u.emergency == Some(e) && u.rtype == c.twins[i].rtype
            && u.timeToManage ==
               Requests(cfg, c.emergencies[e])[RequestOf(Requests(cfg, c.emergencies[e]), u.rtype)].time
  {
  }

  /** Placing an idle twin is joining; placing one at work is robbing, then joining. */
  lemma PlaceIdle(cfg: Config, c: Core, e: nat, j: nat, i: nat)
    requires Shape(cfg, c) && Assignable(cfg, c, e, i) && j < |c.emergencies[e].slots|
    requires c.twins[i].emergency == None
    ensures ShapeEmergency(cfg, c.emergencies[e])
    ensures Place(cfg, c, e, j, i) ==
            Move(c, i, Sent(cfg, c, e, i), e, Joined(cfg, c.emergencies[e], c.twins[i].rtype, j, i))
  {
  }

  lemma PlaceBusy(cfg: Config, c: Core, e: nat, j: nat, i: nat)
    requires Shape(cfg, c) && Assignable(cfg, c, e, i) && j < |c.emergencies[e].slots|
    requires OnDuty(c.twins[i]) && ShapeTwin(cfg, c, c.twins[i])
    requires ShapeEmergency(cfg, c.emergencies[c.twins[i].emergency.value])
    requires ShapeEmergency(cfg, c.emergencies[e])
    ensures var o := c.twins[i].emergency.value;
            var b := Move(c, i, Unbound(c.twins[i]), o, Robbed(cfg, c.emergencies[o], c.twins[i], i));
            && b.emergencies[e] == c.emergencies[e]
            && Place(cfg, c, e, j, i) ==
               Move(b, i, Sent(cfg, c, e, i), e, Joined(cfg, c.emergencies[e], c.twins[i].rtype, j, i))
  {
    var o := c.twins[i].emergency.value;
    var b := Move(c, i, Unbound(c.twins[i]), o, Robbed(cfg, c.emergencies[o], c.twins[i], i));
    var u := Sent(cfg, c, e, i);
    assert b.twins[i := u] == c.twins[i := u];
  }

  lemma PlaceKeepsBooks(cfg: Config, c: Core, e: nat, j: nat, i: nat)
    requires ValidConfig(cfg) && Books(cfg, c) && Assignable(cfg, c, e, i) && HasPlaceFor(cfg, c, e, j, i)
    ensures Shape(cfg, c) && Books(cfg, Place(cfg, c, e, j, i))
  {
    hide Books, ValidConfig, Place;
    TwinPage(cfg, c, i);
    SentFacts(cfg, c, e, i);
    var u := Sent(cfg, c, e, i);
    if OnDuty(c.twins[i]) {
      var o := c.twins[i].emergency.value;
      EmergencyPage(cfg, c, o);
      RobKeepsBooks(cfg, c, i);
      PlaceBusy(cfg, c, e, j, i);
      JoinKeepsBooks(cfg, Move(c, i, Unbound(c.twins[i]), o, Robbed(cfg, c.emergencies[o], c.twins[i], i)), e, j, i, u);
    } else {
      PlaceIdle(cfg, c, e, j, i);
      JoinKeepsBooks(cfg, c, e, j, i, u);
    }
  }

  // ---------------------------------------------------------------- the dispatch loop

  /** The store as if emergency e still missed `need` of each type: during the dispatch
      loop the server has not yet taken the twins it has sent off its list. */
  function Lent(c: Core, e: nat, need: seq<int>): Core
    requires e < |c.emergencies|
  {
    Core(c.twins, c.emergencies[e := c.emergencies[e].(missing := need)])
  }

  function OneLess(cfg: Config, em: Emergency, need: seq<int>, r: nat): seq<int>
    requires Wanted(cfg, em, r) && |need| == |Requests(cfg, em)|
  {
    var k := RequestOf(Requests(cfg, em), r);
    need[k := need[k] - 1]
  }

  /** Assigning and lending commute: the loop's turn is a placement in the lent store. */
  lemma AssignIsPlace(cfg: Config, c: Core, e: nat, j: nat, i: nat, need: seq<int>)
    requires Shape(cfg, c) && Assignable(cfg, c, e, i) && j < |c.emergencies[e].slots|
    requires |need| == |Requests(cfg, c.emergencies[e])| && Shape(cfg, Lent(c, e, need))
    ensures Assignable(cfg, Lent(c, e, need), e, i)
    ensures Place(cfg, Lent(c, e, need), e, j, i) ==
            Lent(Assign(cfg, c, e, j, i), e, OneLess(cfg, c.emergencies[e], need, c.twins[i].rtype))
  {
    assert ShapeTwin(cfg, c, c.twins[i]);
    var l := Lent(c, e, need);
    assert l.emergencies[e].slots == c.emergencies[e].slots;
    var em := c.emergencies[e];
    var k := RequestOf(Requests(cfg, em), c.twins[i].rtype);
    var p, q := Place(cfg, l, e, j, i), Lent(Assign(cfg, c, e, j, i), e, OneLess(cfg, em, need, c.twins[i].rtype));
    assert p.emergencies[e] == q.emergencies[e];
    assert p.emergencies == q.emergencies;
  }

  /** The candidates are exactly what is needed, type by type. */
  ghost predicate Covers(cfg: Config, c: Core, e: nat, cs: seq<nat>, need: seq<int>) {
    && e < |c.emergencies| && ShapeEmergency(cfg, c.emergencies[e])
    && |need| == |Requests(cfg, c.emergencies[e])|
    && (forall m :: 0 <= m < |cs| ==> cs[m] < |c.twins|)
    && (forall k :: 0 <= k < |need| ==> need[k] == OfType(c.twins, cs, Requests(cfg, c.emergencies[e])[k].rtype))
  }

  lemma {:induction false} OfTypeSame(twins: seq<Twin>, after: seq<Twin>, cs: seq<nat>, r: nat)
    requires |after| == |twins| && forall x :: 0 <= x < |twins| ==> after[x].rtype == twins[x].rtype
    requires forall m :: 0 <= m < |cs| ==> cs[m] < |twins|
    ensures OfType(after, cs, r) == OfType(twins, cs, r)
  {
    if cs == [] {
    } else {
      OfTypeSame(twins, after, cs[1..], r);
    }
  }

  lemma CoversNext(cfg: Config, c: Core, e: nat, j: nat, cs: seq<nat>, need: seq<int>)
    requires ValidConfig(cfg) && Shape(cfg, c) && cs != [] && Covers(cfg, c, e, cs, need)
    requires Assignable(cfg, c, e, cs[0]) && j < |c.emergencies[e].slots|
    ensures var k := RequestOf(Requests(cfg, c.emergencies[e]), c.twins[cs[0]].rtype);
            need[k] >= 1
    ensures Covers(cfg, Assign(cfg, c, e, j, cs[0]), e, cs[1..],
                   OneLess(cfg, c.emergencies[e], need, c.twins[cs[0]].rtype))
  {
    var d, em := Assign(cfg, c, e, j, cs[0]), c.emergencies[e];
    var r := c.twins[cs[0]].rtype;
    AssignShape(cfg, c, e, j, cs[0]);
    assert ValidRequests(cfg, Requests(cfg, em));
    forall k | 0 <= k < |need|
      ensures OneLess(cfg, em, need, r)[k] == OfType(d.twins, cs[1..], Requests(cfg, em)[k].rtype)
    {
      OfTypeSame(c.twins, d.twins, cs[1..], Requests(cfg, em)[k].rtype);
      if Requests(cfg, em)[k].rtype == r {
        OneRequest(cfg, Requests(cfg, em), k, r);
      }
    }
  }

  lemma {:induction false} FreeFront(slots: seq<Option<nat>>)
    requires slots != []
    ensures Free(slots) == Free(slots[1..]) + if slots[0].None? then 1 else 0
  {
    if |slots| == 1 {
    } else {
      FreeFront(slots[..|slots| - 1]);
      assert slots[..|slots| - 1][1..] == slots[1..][..|slots| - 2];
    }
  }

  lemma FreeFrom(slots: seq<Option<nat>>, j: nat)
    requires j < |slots|
    ensures Free(slots[j..]) == Free(slots[j + 1..]) + if slots[j].None? then 1 else 0
  {
    FreeFront(slots[j..]);
    assert slots[j..][1..] == slots[j + 1..];
  }

  /** The dispatch loop reads past its candidates exactly when it meets more free slots. */
  lemma {:induction false} FillOverruns(cfg: Config, c: Core, e: nat, j: nat, cs: seq<nat>)
    requires Shape(cfg, c) && e < |c.emergencies| && j <= |c.emergencies[e].slots| && Sendable(cfg, c, e, cs)
    ensures Fill(cfg, c, e, j, cs) == None <==> |cs| < Free(c.emergencies[e].slots[j..])
    decreases |c.emergencies[e].slots| - j
  {
    hide Shape;
    var slots := c.emergencies[e].slots;
    if j == |slots| {
    } else {
      FreeFrom(slots, j);
      if slots[j].Some? {
        FillOverruns(cfg, c, e, j + 1, cs);
      } else if cs != [] {
        AssignShape(cfg, c, e, j, cs[0]);
        AssignSendable(cfg, c, e, j, cs);
        FillOverruns(cfg, Assign(cfg, c, e, j, cs[0]), e, j + 1, cs[1..]);
        assert slots[j := Some(cs[0])][j + 1..] == slots[j + 1..];
      }
    }
  }

  /** What the loop needs to know about emergency e to keep the books. */
  ghost predicate Receptive(cfg: Config, c: Core, e: nat, need: seq<int>) {
    && e < |c.emergencies| && ShapeEmergency(cfg, c.emergencies[e])
    && |need| == |Requests(cfg, c.emergencies[e])|
    && c.emergencies[e].log == map[] && c.emergencies[e].status != Waiting
    && Books(cfg, Lent(c, e, need))
  }

  /** One turn keeps the lent books. */
  lemma TurnKeepsBooks(cfg: Config, c: Core, e: nat, j: nat, cs: seq<nat>, need: seq<int>)
    requires ValidConfig(cfg) && Shape(cfg, c) && cs != [] && Covers(cfg, c, e, cs, need)
    requires Receptive(cfg, c, e, need) && Assignable(cfg, c, e, cs[0])
    requires j < |c.emergencies[e].slots| && c.emergencies[e].slots[j] == None
    ensures Receptive(cfg, Assign(cfg, c, e, j, cs[0]), e,
                      OneLess(cfg, c.emergencies[e], need, c.twins[cs[0]].rtype))
  {
    hide Books, ValidConfig, Covers;
    var l := Lent(c, e, need);
    CoversNext(cfg, c, e, j, cs, need);
    EmergencyPage(cfg, l, e);
    AssignIsPlace(cfg, c, e, j, cs[0], need);
    PlaceKeepsBooks(cfg, l, e, j, cs[0]);
    AssignShape(cfg, c, e, j, cs[0]);
    assert ShapeEmergency(cfg, Assign(cfg, c, e, j, cs[0]).emergencies[e]);
  }

  /** The whole loop: with as many free slots as candidates, everyone needed is placed. */
  lemma {:induction false} FillKeepsBooks(cfg: Config, c: Core, e: nat, j: nat, cs: seq<nat>, need: seq<int>)
    requires ValidConfig(cfg) && Shape(cfg, c) && Sendable(cfg, c, e, cs)
    requires e < |c.emergencies| && ShapeEmergency(cfg, c.emergencies[e])
    requires |need| == |Requests(cfg, c.emergencies[e])|
    requires Receptive(cfg, c, e, need) && Covers(cfg, c, e, cs, need)
    requires j <= |c.emergencies[e].slots| && |cs| == Free(c.emergencies[e].slots[j..])
    ensures Fill(cfg, c, e, j, cs).Some?
    ensures var d := Fill(cfg, c, e, j, cs).value;
            Books(cfg, Core(d.twins, d.emergencies[e := NothingMissing(d.emergencies[e])]))
    decreases |c.emergencies[e].slots| - j
  {
    hide Shape, Books, ValidConfig, Receptive, Covers, Assign;
    var slots := c.emergencies[e].slots;
    if j == |slots| {
      NothingNeeded(cfg, c, e, need);
    } else {
      FreeFrom(slots, j);
      if slots[j].Some? {
        FillKeepsBooks(cfg, c, e, j + 1, cs, need);
      } else {
        AssignShape(cfg, c, e, j, cs[0]);
        AssignSendable(cfg, c, e, j, cs);
        CoversNext(cfg, c, e, j, cs, need);
        TurnKeepsBooks(cfg, c, e, j, cs, need);
        assert slots[j := Some(cs[0])][j + 1..] == slots[j + 1..];
        FillKeepsBooks(cfg, Assign(cfg, c, e, j, cs[0]), e, j + 1, cs[1..],
                       OneLess(cfg, c.emergencies[e], need, c.twins[cs[0]].rtype));
      }
    }
  }

  lemma NothingNeeded(cfg: Config, c: Core, e: nat, need: seq<int>)
    requires Receptive(cfg, c, e, need) && Covers(cfg, c, e, [], need)
    ensures Books(cfg, Core(c.twins, c.emergencies[e := NothingMissing(c.emergencies[e])]))
  {
    hide Books;
    assert need == NothingMissing(c.emergencies[e]).missing;
  }

  // ---------------------------------------------------------------- who is touched

  /** What a search on behalf of another emergency can do to this one: nothing, or take
      twins away and leave it paused, its worker signalled if it was not paused before. */
  predicate Softened(a: Emergency, b: Emergency) {
    || b == a
    || (&& b == a.(status := b.status, cond := b.cond, paused := b.paused,
                   missing := b.missing, notArrived := b.notArrived, slots := b.slots)
        && |b.slots| == |a.slots|
        && Sum(b.missing) > Sum(a.missing)
        && b.status == Paused
        && b.cond == (if a.status == Paused then a.cond else Signal(a.cond))
        && b.paused == a.paused + if a.status == Paused then 0 else 1)
  }

  lemma RobbedSoftens(cfg: Config, em: Emergency, t: Twin, i: nat)
    requires ShapeEmergency(cfg, em) && Wanted(cfg, em, t.rtype)
    ensures Softened(em, Robbed(cfg, em, t, i))
  {
    var k := RequestOf(Requests(cfg, em), t.rtype);
    SumChange(em.missing, k, em.missing[k] + 1);
  }

  lemma AssignSoftens(cfg: Config, c: Core, e: nat, j: nat, i: nat, y: nat)
    requires Shape(cfg, c) && Assignable(cfg, c, e, i) && j < |c.emergencies[e].slots|
    requires y < |c.emergencies| && y != e
    ensures var d := Assign(cfg, c, e, j, i);
            && Softened(c.emergencies[y], d.emergencies[y])
            && (d.emergencies[y] != c.emergencies[y] ==> c.twins[i].emergency == Some(y))
  {
    assert ShapeTwin(cfg, c, c.twins[i]) && ShapeEmergency(cfg, c.emergencies[y]);
    if c.twins[i].emergency == Some(y) {
      RobbedSoftens(cfg, c.emergencies[y], c.twins[i], i);
    }
  }

  /** The twins after the loop: every candidate is on its way, nobody else noticed. */
  lemma {:induction false} FillTwins(cfg: Config, c: Core, e: nat, j: nat, cs: seq<nat>, x: nat)
    requires Shape(cfg, c) && e < |c.emergencies| && j <= |c.emergencies[e].slots| && Sendable(cfg, c, e, cs)
    requires |cs| == Free(c.emergencies[e].slots[j..]) && x < |c.twins|
    ensures Fill(cfg, c, e, j, cs).Some?
    ensures x in cs ==> Assignable(cfg, c, e, x)
    ensures Fill(cfg, c, e, j, cs).value.twins[x] == if x in cs then Sent(cfg, c, e, x) else c.twins[x]
    decreases |c.emergencies[e].slots| - j
  {
    hide Shape;
    var slots := c.emergencies[e].slots;
    FillOverruns(cfg, c, e, j, cs);
    if j == |slots| {
    } else {
      FreeFrom(slots, j);
      if slots[j].Some? {
        FillTwins(cfg, c, e, j + 1, cs, x);
      } else {
        AssignShape(cfg, c, e, j, cs[0]);
        AssignSendable(cfg, c, e, j, cs);
        assert slots[j := Some(cs[0])][j + 1..] == slots[j + 1..];
        FillTwins(cfg, Assign(cfg, c, e, j, cs[0]), e, j + 1, cs[1..], x);
        assert cs == [cs[0]] + cs[1..];
        assert x == cs[0] ==> x !in cs[1..];
      }
    }
  }

  lemma SoftenedTwice(a: Emergency, b: Emergency, d: Emergency)
    requires Softened(a, b) && Softened(b, d)
    ensures Softened(a, d)
  {
  }

  /** The emergency's own slots are filled; nothing else of it changes. */
  lemma {:induction false} FillOwn(cfg: Config, c: Core, e: nat, j: nat, cs: seq<nat>)
    requires Shape(cfg, c) && e < |c.emergencies| && j <= |c.emergencies[e].slots| && Sendable(cfg, c, e, cs)
    requires Fill(cfg, c, e, j, cs).Some?
    ensures var d := Fill(cfg, c, e, j, cs).value;
            && d.emergencies[e] == c.emergencies[e].(slots := d.emergencies[e].slots)
            && |d.emergencies[e].slots| == |c.emergencies[e].slots|
    decreases |c.emergencies[e].slots| - j
  {
    hide Shape;
    if j == |c.emergencies[e].slots| {
    } else {
      if c.emergencies[e].slots[j].Some? {
        FillOwn(cfg, c, e, j + 1, cs);
      } else {
        AssignShape(cfg, c, e, j, cs[0]);
        AssignSendable(cfg, c, e, j, cs);
        FillOwn(cfg, Assign(cfg, c, e, j, cs[0]), e, j + 1, cs[1..]);
      }
    }
  }

  /** The free slots take the candidates in order, as long as there are any. */
  function Filled(slots: seq<Option<nat>>, cs: seq<nat>): seq<Option<nat>> {
    if slots == [] || cs == [] then slots
    else if slots[0].Some? then [slots[0]] + Filled(slots[1..], cs)
    else [Some(cs[0])] + Filled(slots[1..], cs[1..])
  }

  /** One slot further on, whether it was filled already or takes the next candidate. */
  lemma FilledFrom(slots: seq<Option<nat>>, j: nat, cs: seq<nat>)
    requires j < |slots|
    ensures slots[j].Some? || cs == [] ==>
              slots[..j] + Filled(slots[j..], cs) == slots[..j + 1] + Filled(slots[j + 1..], cs)
    ensures slots[j].None? && cs != [] ==>
              var next := slots[j := Some(cs[0])];
              slots[..j] + Filled(slots[j..], cs) == next[..j + 1] + Filled(next[j + 1..], cs[1..])
  {
    hide Filled;
    var before, rest := slots[..j], slots[j + 1..];
    assert slots[j..] == [slots[j]] + rest;
    FilledCons(slots[j], rest, cs);
    FilledNone(rest);
    if slots[j].Some? || cs == [] {
      Regroup(before, [slots[j]], Filled(rest, cs));
      assert slots[..j + 1] == before + [slots[j]];
    } else {
      var next := slots[j := Some(cs[0])];
      Regroup(before, [Some(cs[0])], Filled(rest, cs[1..]));
      assert next[..j + 1] == before + [Some(cs[0])];
      assert next[j + 1..] == rest;
    }
  }

  lemma FilledCons(v: Option<nat>, rest: seq<Option<nat>>, cs: seq<nat>)
    ensures Filled([v] + rest, cs) ==
            if cs == [] then [v] + rest
            else if v.Some? then [v] + Filled(rest, cs)
            else [Some(cs[0])] + Filled(rest, cs[1..])
  {
    assert ([v] + rest)[1..] == rest;
  }

  lemma FilledNone(slots: seq<Option<nat>>)
    ensures Filled(slots, []) == slots
  {
  }

  lemma FilledDone(slots: seq<Option<nat>>, j: nat, cs: seq<nat>)
    requires j <= |slots| && (j == |slots| || cs == [])
    ensures slots[..j] + Filled(slots[j..], cs) == slots
  {
    assert slots[..j] + slots[j..] == slots;
  }

  lemma {:induction false} FillInOrder(cfg: Config, c: Core, e: nat, j: nat, cs: seq<nat>)
    requires Shape(cfg, c) && e < |c.emergencies| && j <= |c.emergencies[e].slots| && Sendable(cfg, c, e, cs)
    requires Free(c.emergencies[e].slots[j..]) <= |cs|
    ensures Fill(cfg, c, e, j, cs).Some?
    ensures var slots := c.emergencies[e].slots;
            Fill(cfg, c, e, j, cs).value.emergencies[e].slots == slots[..j] + Filled(slots[j..], cs)
    decreases |c.emergencies[e].slots| - j
  {
    hide Shape, Assign, Filled, Assignable;
    var slots := c.emergencies[e].slots;
    if j == |slots| {
      FilledDone(slots, j, cs);
    } else {
      FreeFrom(slots, j);
      FilledFrom(slots, j, cs);
      if slots[j].Some? {
        FillInOrder(cfg, c, e, j + 1, cs);
      } else {
        AssignShape(cfg, c, e, j, cs[0]);
        AssignSendable(cfg, c, e, j, cs);
        assert slots[j := Some(cs[0])][j + 1..] == slots[j + 1..];
        FillInOrder(cfg, Assign(cfg, c, e, j, cs[0]), e, j + 1, cs[1..]);
      }
    }
  }

  /** Where the loop stops, for want of slots or of candidates: the free slots have taken the
      candidates in order, and the rest of the emergency is as it was. */
  lemma {:induction false} StopsInOrder(cfg: Config, c: Core, e: nat, j: nat, cs: seq<nat>)
    requires Shape(cfg, c) && e < |c.emergencies| && j <= |c.emergencies[e].slots| && Sendable(cfg, c, e, cs)
    ensures |FillUntil(cfg, c, e, j, cs).emergencies| == |c.emergencies|
    ensures var em := c.emergencies[e];
            FillUntil(cfg, c, e, j, cs).emergencies[e] == em.(slots := em.slots[..j] + Filled(em.slots[j..], cs))
    decreases |c.emergencies[e].slots| - j
  {
    hide Shape, Assign, Filled, Assignable;
    var slots := c.emergencies[e].slots;
    if j == |slots| || (slots[j].None? && cs == []) {
      FilledDone(slots, j, cs);
    } else {
      FilledFrom(slots, j, cs);
      if slots[j].Some? {
        StopsInOrder(cfg, c, e, j + 1, cs);
      } else {
        AssignShape(cfg, c, e, j, cs[0]);
        AssignSendable(cfg, c, e, j, cs);
        StopsInOrder(cfg, Assign(cfg, c, e, j, cs[0]), e, j + 1, cs[1..]);
      }
    }
  }

  /** And exactly the twins that got a slot are on their way. */
  lemma {:induction false} StopsSending(cfg: Config, c: Core, e: nat, j: nat, cs: seq<nat>, x: nat)
    requires Shape(cfg, c) && e < |c.emergencies| && j <= |c.emergencies[e].slots| && Sendable(cfg, c, e, cs)
    requires |cs| <= Free(c.emergencies[e].slots[j..]) && x < |c.twins|
    ensures x in cs ==> Assignable(cfg, c, e, x)
    ensures |FillUntil(cfg, c, e, j, cs).twins| == |c.twins|
    ensures FillUntil(cfg, c, e, j, cs).twins[x] == if x in cs then Sent(cfg, c, e, x) else c.twins[x]
    decreases |c.emergencies[e].slots| - j
  {
    hide Shape, Assign, Sent, Assignable;
    var slots := c.emergencies[e].slots;
    if j == |slots| {
    } else {
      FreeFrom(slots, j);
      if slots[j].Some? {
        StopsSending(cfg, c, e, j + 1, cs, x);
      } else if cs != [] {
        AssignSendable(cfg, c, e, j, cs);
        AssignSends(cfg, c, e, j, cs[0], x);
        assert slots[j := Some(cs[0])][j + 1..] == slots[j + 1..];
        StopsSending(cfg, Assign(cfg, c, e, j, cs[0]), e, j + 1, cs[1..], x);
        assert cs == [cs[0]] + cs[1..];
        assert x == cs[0] ==> x !in cs[1..];
      }
    }
  }

  lemma AssignSends(cfg: Config, c: Core, e: nat, j: nat, i: nat, x: nat)
    requires Shape(cfg, c) && Assignable(cfg, c, e, i) && j < |c.emergencies[e].slots| && x < |c.twins|
    ensures |Assign(cfg, c, e, j, i).emergencies| == |c.emergencies|
    ensures var d := Assign(cfg, c, e, j, i);
            && |d.twins| == |c.twins| && d.emergencies[e].slots == c.emergencies[e].slots[j := Some(i)]
            && (x == i ==> d.twins[x] == Sent(cfg, c, e, x))
            && (x != i ==> d.twins[x] == c.twins[x] && (Assignable(cfg, d, e, x) <==> Assignable(cfg, c, e, x))
                           && (Assignable(cfg, c, e, x) ==> Sent(cfg, d, e, x) == Sent(cfg, c, e, x)))
  {
    AssignShape(cfg, c, e, j, i);
  }

  /** One of the candidates works for emergency y. */
  ghost predicate TakenFrom(c: Core, cs: seq<nat>, y: nat) {
    exists m :: 0 <= m < |cs| && cs[m] < |c.twins| && c.twins[cs[m]].emergency == Some(y)
  }

  lemma TakenLater(c: Core, d: Core, cs: seq<nat>, y: nat)
    requires cs != [] && TakenFrom(d, cs[1..], y) && |d.twins| == |c.twins|
    requires forall x :: 0 <= x < |c.twins| && x != cs[0] ==> d.twins[x] == c.twins[x]
    requires forall m, n :: 0 <= m < n < |cs| ==> cs[m] != cs[n]
    ensures TakenFrom(c, cs, y)
  {
    var m :| 0 <= m < |cs[1..]| && cs[1..][m] < |d.twins| && d.twins[cs[1..][m]].emergency == Some(y);
    assert cs[m + 1] != cs[0];
  }

  /** Another emergency is softened at most, and only if a candidate was taken from it. */
  lemma {:induction false} FillOthers(cfg: Config, c: Core, e: nat, j: nat, cs: seq<nat>, y: nat)
    requires Shape(cfg, c) && e < |c.emergencies| && j <= |c.emergencies[e].slots| && Sendable(cfg, c, e, cs)
    requires Fill(cfg, c, e, j, cs).Some? && y < |c.emergencies| && y != e
    ensures var d := Fill(cfg, c, e, j, cs).value;
            && Softened(c.emergencies[y], d.emergencies[y])
            && (d.emergencies[y] != c.emergencies[y] ==> TakenFrom(c, cs, y))
    decreases |c.emergencies[e].slots| - j
  {
    hide Shape, Softened, Assign;
    if j == |c.emergencies[e].slots| {
      SoftenedSelf(c.emergencies[y]);
    } else if c.emergencies[e].slots[j].Some? {
      FillOthers(cfg, c, e, j + 1, cs, y);
    } else {
      var b := Assign(cfg, c, e, j, cs[0]);
      AssignShape(cfg, c, e, j, cs[0]);
      AssignSendable(cfg, c, e, j, cs);
      AssignSoftens(cfg, c, e, j, cs[0], y);
      FillOthers(cfg, b, e, j + 1, cs[1..], y);
      SoftenedTwice(c.emergencies[y], b.emergencies[y], Fill(cfg, c, e, j, cs).value.emergencies[y]);
      if TakenFrom(b, cs[1..], y) {
        TakenLater(c, b, cs, y);
      }
    }
  }

  lemma SoftenedSelf(em: Emergency)
    ensures Softened(em, em)
  {
  }

  // ---------------------------------------------------------------- the search as a whole

  /** When the search overruns: it finds candidates for an emergency that misses someone
      and has more empty slots than it misses rescuers. */
  lemma OverrunsExactlyWhen(q: Quest)
    requires Sensible(q)
    ensures FindRescuers(q) == Overrun <==> Search(q).Some? && 0 < Sum(Self(q).missing) < Free(Self(q).slots)
  {
    hide Books, Sensible;
    SensibleShape(q);
    SumNonNegative(Self(q).missing);
    if Sum(Self(q).missing) != 0 && Search(q).Some? {
      var slots := Self(q).slots;
      SearchFinds(q);
      SearchSendable(q);
      FillOverruns(q.cfg, q.core, q.e, 0, Search(q).value);
      assert slots[0..] == slots;
    }
  }

  /** Where those slots come from: a twin that has finished leaves its slot empty without
      anyone being missing for it. */
  lemma SpareSlotsMeanFinished(cfg: Config, c: Core, e: nat)
    requires Books(cfg, c) && e < |c.emergencies|
    ensures var em := c.emergencies[e];
            Free(em.slots) == Sum(em.missing) + |em.log| && (em.log == map[] <==> Free(em.slots) == Sum(em.missing))
  {
    hide Books;
    EmergencyPage(cfg, c, e);
    assert |c.emergencies[e].log| == 0 <==> c.emergencies[e].log == map[];
  }

  lemma SensibleShape(q: Quest)
    requires Sensible(q)
    ensures q.e < |q.core.emergencies|
    ensures Shape(q.cfg, q.core) && ValidConfig(q.cfg) && ShapeEmergency(q.cfg, Self(q))
  {
  }

  lemma CandidatesCover(q: Quest)
    requires Sensible(q) && Search(q).Some?
    ensures Covers(q.cfg, q.core, q.e, Search(q).value, Self(q).missing)
  {
    SearchFinds(q);
    assert ShapeEmergency(q.cfg, Self(q));
    forall k | 0 <= k < |Self(q).missing|
      ensures Self(q).missing[k] == OfType(q.core.twins, Search(q).value, Requests(q.cfg, Self(q))[k].rtype)
    {
      assert OfType(q.core.twins, Search(q).value, TypeOf(q, k)) == Missing(q, k);
    }
  }

  /** What the worker holds when it searches: a begun emergency. */
  lemma FindKeepsBooks(q: Quest)
    requires Sensible(q) && Books(q.cfg, q.core) && FindRescuers(q).Found? && Self(q).status != Waiting
    ensures Books(q.cfg, FindRescuers(q).core)
  {
    hide Books, Sensible, Covers;
    SensibleShape(q);
    if Sum(Self(q).missing) != 0 {
      OverrunsExactlyWhen(q);
      SpareSlotsMeanFinished(q.cfg, q.core, q.e);
      EmergencyPage(q.cfg, q.core, q.e);
      var slots, need := Self(q).slots, Self(q).missing;
      SearchFinds(q);
      SearchSendable(q);
      CandidatesCover(q);
      assert slots[0..] == slots;
      assert Lent(q.core, q.e, need) == q.core;
      FillKeepsBooks(q.cfg, q.core, q.e, 0, Search(q).value, need);
    }
  }

  /** A successful search and the twins: each candidate was idle or worked for a strictly
      lower level and is now on its way; nobody else notices. */
  lemma FindTwins(q: Quest, x: nat)
    requires Sensible(q) && Books(q.cfg, q.core) && FindRescuers(q).Found? && x < |q.core.twins|
    ensures var t, u := q.core.twins[x], FindRescuers(q).core.twins[x];
            || u == t
            || (&& Assignable(q.cfg, q.core, q.e, x) && u == Sent(q.cfg, q.core, q.e, x)
                && (t.status == Idle || (OnDuty(t) && WorkLevel(q, x) < LevelOf(q.cfg, Self(q)))))
  {
    hide Books, Sensible;
    SensibleShape(q);
    if Sum(Self(q).missing) != 0 {
      OverrunsExactlyWhen(q);
      SpareSlotsMeanFinished(q.cfg, q.core, q.e);
      EmergencyPage(q.cfg, q.core, q.e);
      SearchFinds(q);
      SearchSendable(q);
      var slots := Self(q).slots;
      assert slots[0..] == slots;
      FillTwins(q.cfg, q.core, q.e, 0, Search(q).value, x);
    }
  }

  /** A successful search and the emergencies: its own only fills slots and misses nobody any
      more; another one changes only by losing twins, which a waiting or completed one cannot. */
  lemma FindEmergencies(q: Quest, y: nat)
    requires Sensible(q) && Books(q.cfg, q.core) && FindRescuers(q).Found? && y < |q.core.emergencies|
    ensures var a, b := q.core.emergencies[y], FindRescuers(q).core.emergencies[y];
            && (y == q.e ==> b == a.(slots := b.slots, missing := b.missing)
                             && |b.slots| == |a.slots| && Sum(b.missing) == 0)
            && (y != q.e ==> b == a || (Softened(a, b) && a.status != Waiting && a.status != Completed))
  {
    hide Books, Sensible;
    SensibleShape(q);
    if Sum(Self(q).missing) != 0 {
      SearchSendable(q);
      NothingMissingSum(|Self(q).missing|);
      if y == q.e {
        FillOwn(q.cfg, q.core, q.e, 0, Search(q).value);
      } else {
        FillOthers(q.cfg, q.core, q.e, 0, Search(q).value, y);
      }
      if y != q.e && FindRescuers(q).core.emergencies[y] != q.core.emergencies[y] {
        var m :| 0 <= m < |Search(q).value| && Search(q).value[m] < |q.core.twins|
                 && q.core.twins[Search(q).value[m]].emergency == Some(y);
        TwinPage(q.cfg, q.core, Search(q).value[m]);
        AtWorkMeansActive(q.cfg, q.core, Search(q).value[m]);
      }
    }
  }

  /** It changes only if one of its own twins is sent elsewhere. */
  lemma FindRobs(q: Quest, y: nat) returns (i: nat)
    requires Sensible(q) && Books(q.cfg, q.core) && FindRescuers(q).Found? && y < |q.core.emergencies| && y != q.e
    requires FindRescuers(q).core.emergencies[y] != q.core.emergencies[y]
    ensures i < |q.core.twins| == |FindRescuers(q).core.twins| && q.core.twins[i].emergency == Some(y)
    ensures FindRescuers(q).core.twins[i] != q.core.twins[i]
  {
    hide Books, Sensible;
    SensibleShape(q);
    var cs := Search(q).value;
    SearchSendable(q);
    FillOthers(q.cfg, q.core, q.e, 0, cs, y);
    i := TakenTwin(q.core, cs, y);
    FillIsExact(q);
    FillTwins(q.cfg, q.core, q.e, 0, cs, i);
    SentFacts(q.cfg, q.core, q.e, i);
  }

  lemma TakenTwin(c: Core, cs: seq<nat>, y: nat) returns (i: nat)
    requires TakenFrom(c, cs, y)
    ensures i in cs && i < |c.twins| && c.twins[i].emergency == Some(y)
  {
    var m :| 0 <= m < |cs| && cs[m] < |c.twins| && c.twins[cs[m]].emergency == Some(y);
    i := cs[m];
  }

  /** A search that sends anyone finds exactly as many candidates as there are free slots. */
  lemma FillIsExact(q: Quest)
    requires Sensible(q) && Books(q.cfg, q.core) && FindRescuers(q).Found? && Search(q).Some?
    requires q.e < |q.core.emergencies| && Sum(Self(q).missing) != 0
    ensures |Search(q).value| == Free(Self(q).slots[0..])
  {
    hide Books, Sensible;
    OverrunsExactlyWhen(q);
    SpareSlotsMeanFinished(q.cfg, q.core, q.e);
    SensibleShape(q);
    SumNonNegative(Self(q).missing);
    SearchFinds(q);
    assert Self(q).slots[0..] == Self(q).slots;
  }

  lemma {:induction false} NothingMissingSum(n: nat)
    ensures Sum(seq(n, _ => 0)) == 0
  {
    if n == 0 {
    } else {
      NothingMissingSum(n - 1);
      assert seq(n, _ => 0)[..n - 1] == seq(n - 1, _ => 0);
    }
  }

  /** Some requested type has fewer eligible twins than are missing. */
  ghost predicate Lacking(q: Quest)
    requires Sensible(q)
  {
    exists k :: 0 <= k < |Sought(q)| && |EligibleTwins(q, TypeOf(q, k), {})| < Missing(q, k)
  }

  /** How a search ends, in terms of what the server knows before it: it fails exactly when
      some type is lacking; it overruns exactly when none is, someone is missing, and the
      emergency has more empty slots than it misses rescuers; else it succeeds. */
  lemma SearchOutcome(q: Quest)
    requires Sensible(q)
    ensures FindRescuers(q) == NotFound <==> Lacking(q)
    ensures FindRescuers(q) == Overrun <==> !Lacking(q) && 0 < Sum(Self(q).missing) < Free(Self(q).slots)
    ensures Sum(Self(q).missing) == 0 ==> FindRescuers(q) == Found(q.core)
  {
    hide Sensible, EligibleTwins, Search;
    SensibleShape(q);
    OverrunsExactlyWhen(q);
    SearchFinds(q);
    if Sum(Self(q).missing) == 0 {
      NobodyMissing(q);
    }
  }

  lemma NobodyMissing(q: Quest)
    requires Sensible(q) && Sum(Self(q).missing) == 0
    ensures forall k :: 0 <= k < |Sought(q)| ==> Missing(q, k) == 0
  {
    SensibleShape(q);
    forall k | 0 <= k < |Sought(q)| ensures Missing(q, k) == 0 {
      ZeroSum(Self(q).missing, k);
    }
  }

  lemma {:induction false} ZeroSum(s: seq<int>, k: nat)
    requires forall j :: 0 <= j < |s| ==> s[j] >= 0
    requires k < |s|
    ensures Sum(s) >= s[k]
  {
    SumNonNegative(s[..|s| - 1]);
    if k == |s| - 1 {
    } else {
      ZeroSum(s[..|s| - 1], k);
    }
  }

  /** With its timeout timer below zero, but not at the value that means off, an emergency
      finds nobody any more. */
  lemma NobodyInTime(q: Quest)
    requires Sensible(q)
    requires Self(q).urgency.timeout < 0 && Self(q).urgency.timeout != NO_TIMEOUT
    ensures FindRescuers(q) == NotFound <==> Sum(Self(q).missing) != 0
  {
    SensibleShape(q);
    SearchOutcome(q);
    if Sum(Self(q).missing) != 0 {
      SomethingMissing(Self(q).missing);
      var k :| 0 <= k < |Self(q).missing| && Self(q).missing[k] != 0;
      forall i: nat | i < |q.core.twins| ensures !Eligible(q, i, {}) {
        EtaNonNegative(q, i);
      }
      assert EligibleTwins(q, TypeOf(q, k), {}) == {};
      assert |EligibleTwins(q, TypeOf(q, k), {})| < Missing(q, k);
      assert Lacking(q);
    }
  }

  lemma EtaNonNegative(q: Quest, i: nat)
    requires Sensible(q) && i < |q.core.twins|
    ensures Eta(q, i) >= 0
  {
    assert ShapeTwin(q.cfg, q.core, q.core.twins[i]);
  }

  lemma {:induction false} SomethingMissing(s: seq<int>)
    requires Sum(s) != 0
    ensures exists k :: 0 <= k < |s| && s[k] != 0
  {
    if s[|s| - 1] == 0 {
      SomethingMissing(s[..|s| - 1]);
      var k :| 0 <= k < |s| - 1 && s[..|s| - 1][k] != 0;
      assert s[k] != 0;
    } else {
      assert s[|s| - 1] != 0;
    }
  }
}
