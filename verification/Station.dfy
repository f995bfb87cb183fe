/** The server's records changed in place, under the system lock: search, preemption and
  dispatch (src/server/thread_functions/thread_worker.c:97-283) and the update of the
  world (thread_updater.c:42-136), each proved to do what the model's functions say. */
module Station {
  import opened Common
  import opened Bresenham
  import opened PriorityTable
  import opened Domain
  import opened Selection
  import opened Dispatcher
  import opened Records
  import Dispatch
  import World

  /** How a search ends for the caller; Stranded is where the program has no defined outcome. */
  datatype Ending = Failed | Succeeded | Stranded

  class Server {
    const cfg: Config
    const twins: seq<DigitalTwin>
    var emergencies: seq<EmergencyRecord>
    ghost var core: Core

    ghost function TwinParts(): set<object> {
      (set t: DigitalTwin | t in twins :: t as object) + (set t: DigitalTwin | t in twins :: t.trajectory as object)
    }

    ghost function EmergencyParts(): set<object>
      reads this`emergencies
    {
      (set e: EmergencyRecord | e in emergencies :: e as object)
      + (set e: EmergencyRecord | e in emergencies :: e.rescuersMissing as object)
      + (set e: EmergencyRecord | e in emergencies :: e.rescuerTwins as object)
    }

    ghost function Footprint(): set<object>
      reads this`emergencies
    {
      {this as object} + TwinParts() + EmergencyParts()
    }

    /** No two records share storage. */
    ghost predicate Apart()
      reads this`emergencies
    {
      && (forall i, j :: 0 <= i < j < |twins| ==> twins[i] != twins[j] && twins[i].trajectory != twins[j].trajectory)
      && (forall i, j :: 0 <= i < j < |emergencies| ==>
            && emergencies[i] != emergencies[j]
            && emergencies[i].rescuersMissing != emergencies[j].rescuersMissing
            && emergencies[i].rescuerTwins != emergencies[j].rescuerTwins)
    }

    /** The records show what `core` says. */
    ghost predicate Valid()
      reads Footprint()
    {
      && Apart()
      && |core.twins| == |twins| && |core.emergencies| == |emergencies|
      && (forall i :: 0 <= i < |twins| ==> twins[i].id == i && twins[i].View() == core.twins[i])
      && (forall e :: 0 <= e < |emergencies| ==> emergencies[e].View() == core.emergencies[e])
    }

    /** The twins flagged as candidates of the search under way. */
    ghost function Flags(): set<nat>
      reads twins
    {
      set i: nat | i < |twins| && twins[i].isACandidate
    }

    // ---------------------------------------------------------------- the records

    /** The twins the configuration asks for, each idle on its base, and no emergency yet. */
    constructor (cfg: Config, rtypes: seq<nat>)
      requires forall k :: 0 <= k < |rtypes| ==> rtypes[k] < |cfg.rescuers|
      ensures Valid() && Flags() == {} && emergencies == []
      ensures this.cfg == cfg && core == Core(seq(|rtypes|, k requires 0 <= k < |rtypes| => AtBase(cfg, rtypes[k])), [])
    {
      var ts := NewTwins(cfg, rtypes);
      this.cfg, twins, emergencies := cfg, ts, [];
      core := Core(seq(|rtypes|, k requires 0 <= k < |rtypes| => AtBase(cfg, rtypes[k])), []);
    }

    /** mallocate_emergency: a new record at the end of the store. */
    method AddEmergency(etype: nat, x: int, y: int) returns (e: nat)
      requires Valid() && ValidTable(cfg.table) && etype < |cfg.types|
      modifies this
      ensures Valid() && Flags() == old(Flags()) && e == |old(core).emergencies|
      ensures core == World.Arrived(old(core), World.NewEmergency(cfg, etype, x, y))
      ensures |emergencies| == e + 1 && emergencies[..e] == old(emergencies) && fresh(emergencies[e])
      ensures emergencies[e].etype == etype && emergencies[e].x == x && emergencies[e].y == y
    {
      hide World.NewEmergency, ValidTable;
      e := |emergencies|;
      ghost var em := World.NewEmergency(cfg, etype, x, y);
      var added := new EmergencyRecord(cfg, e, etype, x, y);
      emergencies := emergencies + [added];
      core := World.Arrived(core, em);
    }

    // ---------------------------------------------------------------- choosing a twin

    /** estimated_arrival_time */
    method EstimatedArrival(e: nat, i: nat) returns (eta: int)
      requires Valid() && Sensible(Quest(cfg, core, e)) && i < |twins|
      ensures eta == Eta(Quest(cfg, core, e), i)
    {
      SpeedPositive(cfg, core, e, i);
      eta := Manhattan(emergencies[e].x, emergencies[e].y, twins[i].x, twins[i].y) / cfg.rescuers[twins[i].rtype].speed;
    }

    /** compare_priorities */
    method ComparePriorities(a: int, b: int) returns (difference: int)
      ensures difference == Level(cfg.table, a) - Level(cfg.table, b)
    {
      var levelA: int := GetPriorityLevel(a, cfg.table);
      var levelB: int := GetPriorityLevel(b, cfg.table);
      return levelA - levelB;
    }

    /** is_preemptable_or_available */
    method IsPreemptableOrAvailable(e: nat, i: nat) returns (b: bool)
      requires Valid() && Sensible(Quest(cfg, core, e)) && i < |twins|
      ensures b == Available(Quest(cfg, core, e), i)
      ensures b <==> || twins[i].status == Idle
                     || (&& (twins[i].status == EnRoute || twins[i].status == OnScene)
                         && twins[i].emergency.Some?
                         && Level(cfg.table, emergencies[twins[i].emergency.value].priority)
                            < Level(cfg.table, emergencies[e].priority))
    {
      EmergencyKnown(cfg, core, e, i);
      var t := twins[i];
      assert t.View() == core.twins[i] && emergencies[e].View() == core.emergencies[e];
      if t.status == Idle {
        return true;
      }
      if t.status == Returning {
        return false;
      }
      if t.emergency.Some? {
        assert emergencies[t.emergency.value].View() == core.emergencies[t.emergency.value];
        var difference := ComparePriorities(emergencies[t.emergency.value].priority, emergencies[e].priority);
        return difference < 0;
      }
      return true;
    }

    /** The part of find_best_twin that decides whether to skip a twin. */
    method IsEligible(e: nat, i: nat) returns (b: bool)
      requires Valid() && Sensible(Quest(cfg, core, e)) && i < |twins|
      ensures Valid() && Flags() == old(Flags()) && b == Eligible(Quest(cfg, core, e), i, Flags())
    {
      EmergencyKnown(cfg, core, e, i);
      assert twins[i].View() == core.twins[i] && emergencies[e].View() == core.emergencies[e];
      if twins[i].isACandidate {
        return false;
      }
      var available := IsPreemptableOrAvailable(e, i);
      if !available {
        return false;
      }
      if twins[i].emergency == Some(e) {
        return false;
      }
      var eta := EstimatedArrival(e, i);
      return !(emergencies[e].timeoutTimer != NO_TIMEOUT && eta > emergencies[e].timeoutTimer);
    }

    method CompareWork(a: nat, b: nat) returns (difference: int)
      requires Valid() && a < |emergencies| && b < |emergencies|
      ensures difference == LevelOf(cfg, core.emergencies[a]) - LevelOf(cfg, core.emergencies[b])
    {
      assert emergencies[a].View() == core.emergencies[a] && emergencies[b].View() == core.emergencies[b];
      difference := ComparePriorities(emergencies[a].priority, emergencies[b].priority);
    }

    /** compare_twins */
    method Compare(e: nat, a: nat, b: nat) returns (preference: int)
      requires Valid() && Sensible(Quest(cfg, core, e)) && a < |twins| && b < |twins|
      ensures Valid() && Flags() == old(Flags()) && preference == CompareTwins(Quest(cfg, core, e), a, b)
    {
      hide Sensible, Eta, Level, Apart, Flags;
      EmergencyKnown(cfg, core, e, a);
      EmergencyKnown(cfg, core, e, b);
      var s, t := twins[a], twins[b];
      assert s.View() == core.twins[a] && t.View() == core.twins[b];
      if (s.status == Idle) != (t.status == Idle) {
        return if s.status == Idle then 1 else -1;
      }
      if s.emergency.Some? && t.emergency.Some? {
        var difference := CompareWork(s.emergency.value, t.emergency.value);
        if difference != 0 {
          return if difference < 0 then 1 else -1;
        }
      }
      var etaA := EstimatedArrival(e, a);
      var etaB := EstimatedArrival(e, b);
      if etaA != etaB {
        return etaB - etaA;
      }
      if s.status == EnRoute && t.status == OnScene {
        return 1;
      }
      if t.status == EnRoute && s.status == OnScene {
        return -1;
      }
      return 0;
    }

    lemma RosterReady(e: nat, r: nat)
      requires Valid() && Sensible(Quest(cfg, core, e)) && r < |cfg.rescuers|
      ensures |core.twins| == |twins|
      ensures forall n :: 0 <= n < |cfg.rescuers[r].twins| ==> cfg.rescuers[r].twins[n] < |core.twins|
    {
      RosterKnown(cfg, core, r);
    }

    /** find_best_twin */
    method FindBestTwin(e: nat, r: nat) returns (best: Option<nat>)
      requires Valid() && Sensible(Quest(cfg, core, e)) && r < |cfg.rescuers|
      ensures Valid() && Flags() == old(Flags()) && best == Best(Quest(cfg, core, e), r, Flags())
    {
      hide Sensible, Eligible, CompareTwins, Valid, Flags;
      ghost var q, taken := Quest(cfg, core, e), Flags();
      RosterReady(e, r);
      best := None;
      for n := 0 to |cfg.rescuers[r].twins|
        invariant Valid() && Flags() == taken
        invariant best == BestOf(q, r, n, taken)
      {
        var i := cfg.rescuers[r].twins[n];
        var eligible := IsEligible(e, i);
        if eligible {
          if best == None {
            best := Some(i);
          } else {
            var preference := Compare(e, best.value, i);
            if preference < 0 {
              best := Some(i);
            }
          }
        }
      }
    }

    /** Flag or unflag one twin; no record's value changes. */
    method SetCandidate(i: nat, flag: bool)
      requires Valid() && i < |twins|
      modifies twins[i]
      ensures Valid() && Flags() == if flag then old(Flags()) + {i} else old(Flags()) - {i}
    {
      twins[i].isACandidate := flag;
      assert forall j :: 0 <= j < |twins| && j != i ==> twins[j] != twins[i];
    }

    /** The inner loop of the search: the best twin of the type, `count` times over. */
    method Pick(e: nat, r: nat, count: nat) returns (picks: seq<nat>)
      requires Valid() && Sensible(Quest(cfg, core, e)) && r < |cfg.rescuers|
      modifies twins
      ensures Valid() && picks == Greedy(Quest(cfg, core, e), r, count, old(Flags()))
      ensures Flags() == old(Flags()) + Flagged(picks)
    {
      hide Sensible, Best, Greedy, Flagged, Flags;
      ghost var q, taken := Quest(cfg, core, e), Flags();
      picks := [];
      FlagNobody(taken);
      for j := 0 to count
        invariant Valid() && Flags() == taken + Flagged(picks)
        invariant Greedy(q, r, count, taken) == picks + Greedy(q, r, count - j, Flags())
      {
        var best := FindBestTwin(e, r);
        GreedyTurn(q, r, count - j, Flags(), picks);
        if best == None {
          return;
        }
        FlagOneMore(taken, picks, best.value);
        SetCandidate(best.value, true);
        picks := picks + [best.value];
      }
      NoMorePicks(q, r, Flags());
    }

    /** The loop that takes the flags back. */
    method Unflag(cs: seq<nat>)
      requires Valid() && Flags() == Flagged(cs) && Known(core.twins, cs)
      modifies twins
      ensures Valid() && Flags() == {}
    {
      assert |core.twins| == |twins|;
      hide Valid, Flags, Flagged;
      FlagFirst(cs, 0);
      for k := 0 to |cs|
        invariant Valid() && Flags() == Flagged(cs) - Flagged(cs[..k])
      {
        SetCandidate(cs[k], false);
        FlagFirst(cs, k + 1);
      }
      assert cs[..|cs|] == cs;
    }

    /** The search for one request. */
    method PickMissing(e: nat, n: nat) returns (enough: bool, picks: seq<nat>)
      requires Valid() && Sensible(Quest(cfg, core, e)) && n < |Sought(Quest(cfg, core, e))|
      modifies twins
      ensures Valid() && Flags() == old(Flags()) + Flagged(picks)
      ensures var q := Quest(cfg, core, e);
              && picks == Greedy(q, TypeOf(q, n), Missing(q, n), old(Flags()))
              && (enough <==> |picks| >= Missing(q, n))
    {
      hide Sensible, Flags, Greedy, Flagged;
      QuestKnown(Quest(cfg, core, e));
      RequestKnown(Quest(cfg, core, e), n);
      assert emergencies[e].View() == core.emergencies[e];
      var count := emergencies[e].rescuersMissing[n];
      picks := Pick(e, cfg.types[emergencies[e].etype].requests[n].rtype, count);
      enough := |picks| >= count;
    }

    method RequestCount(e: nat) returns (count: nat)
      requires Valid() && Sensible(Quest(cfg, core, e))
      ensures Valid() && Flags() == old(Flags()) && count == |Sought(Quest(cfg, core, e))|
    {
      QuestKnown(Quest(cfg, core, e));
      assert emergencies[e].View() == core.emergencies[e];
      return |cfg.types[emergencies[e].etype].requests|;
    }

    /** The search loop: collect the best missing-many twins of each requested type, or stop
        as soon as there are too few.  Whoever has been collected is flagged. */
    method Scan(e: nat) returns (found: bool, candidates: seq<nat>)
      requires Valid() && Sensible(Quest(cfg, core, e)) && Flags() == {}
      modifies twins
      ensures Valid() && Flags() == Flagged(candidates) && Known(core.twins, candidates)
      ensures Search(Quest(cfg, core, e)) == if found then Some(candidates) else None
    {
      hide Sensible, Flags, Greedy, Flagged, Missing, TypeOf, Sought, Valid, SearchUpTo, Search, Known;
      ghost var q := Quest(cfg, core, e);
      found, candidates := true, [];
      var count := RequestCount(e);
      FlagNobody({});
      SearchStarts(q);
      KnowNobody(core.twins);
      var n := 0;
      while n < count && found
        invariant n <= count == |Sought(q)|
        invariant Valid() && Flags() == Flagged(candidates) && Known(core.twins, candidates)
        invariant SearchUpTo(q, n) == if found then Some(candidates) else None
      {
        SearchNext(q, n, candidates);
        found, candidates := ScanNext(e, n, candidates);
        n := n + 1;
      }
      SearchEnds(q, n);
    }

    method ScanNext(e: nat, n: nat, candidates: seq<nat>) returns (enough: bool, more: seq<nat>)
      requires Valid() && Sensible(Quest(cfg, core, e)) && n < |Sought(Quest(cfg, core, e))|
      requires Flags() == Flagged(candidates) && Known(core.twins, candidates)
      modifies twins
      ensures Valid() && Flags() == Flagged(more) && Known(core.twins, more)
      ensures var q := Quest(cfg, core, e);
              var picks := Greedy(q, TypeOf(q, n), Missing(q, n), Flagged(candidates));
              more == candidates + picks && (enough <==> |picks| >= Missing(q, n))
    {
      hide Sensible, Flags, Greedy, Flagged, Missing, TypeOf, Sought, Valid;
      var picks;
      enough, picks := PickMissing(e, n);
      FlagMore(candidates, picks);
      KnowMore(core.twins, candidates, picks);
      more := candidates + picks;
    }

    /** The whole search: the candidates, or nothing; either way no flag is left. */
    method Collect(e: nat) returns (found: bool, candidates: seq<nat>)
      requires Valid() && Sensible(Quest(cfg, core, e)) && Flags() == {}
      modifies twins
      ensures Valid() && Flags() == {} && core == old(core)
      ensures Search(Quest(cfg, core, e)) == if found then Some(candidates) else None
    {
      hide Sensible, Flags, Flagged, Valid, Search, Known;
      found, candidates := Scan(e);
      Unflag(candidates);
    }

    // ---------------------------------------------------------------- preemption and dispatch

    /** preempt_if_needed */
    method PreemptIfNeeded(i: nat)
      requires Valid() && Shape(cfg, core) && i < |twins|
      modifies this`core, EmergencyParts()
      ensures Valid() && Flags() == old(Flags()) && core == Preempt(cfg, old(core), i)
    {
      hide Shape, Bereft, Apart, Flags, EmergencyParts;
      var t := twins[i];
      assert t.View() == core.twins[i];
      if t.status == Idle || t.emergency == None {
        return;
      }
      var y := t.emergency.value;
      RobKnown(cfg, core, i);
      RobRecord(y, i, t.rtype, t.status == OnScene);
      core := Preempt(cfg, core, i);
    }

    /** Emergency y loses twin i; no other record changes. */
    method RobRecord(y: nat, i: nat, rtype: nat, wasOnScene: bool)
      requires Apart() && y < |emergencies| && emergencies[y].etype < |cfg.types|
      requires |cfg.types[emergencies[y].etype].requests| == emergencies[y].rescuersMissing.Length
      requires var requests := cfg.types[emergencies[y].etype].requests; RequestOf(requests, rtype) < |requests|
      modifies EmergencyParts()
      ensures Apart() && Flags() == old(Flags()) && core == old(core) && emergencies == old(emergencies)
      ensures forall i :: 0 <= i < |twins| ==> twins[i].View() == old(twins[i].View())
      ensures emergencies[y].View() ==
              Bereft(cfg.types[emergencies[y].etype].requests, old(emergencies[y].View()), rtype, wasOnScene, i)
      ensures forall e :: 0 <= e < |emergencies| && e != y ==> emergencies[e].View() == old(emergencies[e].View())
    {
      emergencies[y].Rob(cfg.types[emergencies[y].etype].requests, i, rtype, wasOnScene);
    }

    /** Slot j of emergency e takes twin i. */
    method TakeSlot(e: nat, j: nat, i: nat)
      requires Valid() && e < |emergencies| && j < emergencies[e].rescuerTwins.Length
      modifies this`core, EmergencyParts()
      ensures Valid() && Flags() == old(Flags())
      ensures var em := old(core).emergencies[e];
              && j < |em.slots|
              && core == Core(old(core).twins, old(core).emergencies[e := em.(slots := em.slots[j := Some(i)])])
    {
      assert emergencies[e].View() == core.emergencies[e];
      emergencies[e].rescuerTwins[j] := Some(i);
      var em := core.emergencies[e];
      assert emergencies[e].View() == em.(slots := em.slots[j := Some(i)]);
      core := Core(core.twins, core.emergencies[e := em.(slots := em.slots[j := Some(i)])]);
    }

    /** Twin i leaves for emergency e. */
    method SendOff(e: nat, i: nat)
      requires Valid() && Assignable(cfg, core, e, i)
      modifies this`core, TwinParts()
      ensures Valid() && Flags() == old(Flags())
      ensures core == Core(old(core).twins[i := Dispatch.Sent(cfg, old(core), e, i)], old(core).emergencies)
    {
      assert emergencies[e].View() == core.emergencies[e] && twins[i].View() == core.twins[i];
      ghost var u := Dispatch.Sent(cfg, core, e, i);
      var requests := cfg.types[emergencies[e].etype].requests;
      var k := RequestIndex(requests, twins[i].rtype);
      SendTwin(i, e, emergencies[e].x, emergencies[e].y, requests[k].time);
      core := Core(core.twins[i := u], core.emergencies);
    }

    /** Twin i turns to a scene; no other twin changes. */
    method SendTwin(i: nat, e: nat, x: int, y: int, time: int)
      requires Apart() && i < |twins|
      modifies twins[i], twins[i].trajectory
      ensures twins[i].View() == Domain.SendToScene(old(twins[i].View()), e, x, y, time)
      ensures forall j :: 0 <= j < |twins| && j != i ==> twins[j].View() == old(twins[j].View())
      ensures Flags() == old(Flags())
    {
      twins[i].SendToScene(e, x, y, time);
    }

    /** One turn of the dispatch loop. */
    method AssignTwin(e: nat, j: nat, i: nat)
      requires Valid() && Shape(cfg, core) && Assignable(cfg, core, e, i) && j < |core.emergencies[e].slots|
      modifies this`core, TwinParts(), EmergencyParts()
      ensures Valid() && Flags() == old(Flags()) && core == Assign(cfg, old(core), e, j, i)
    {
      hide Shape, Valid, Preempt, Flags;
      ghost var c := core;
      SlotKnown(e);
      PreemptIfNeeded(i);
      PreemptKeeps(cfg, c, e, i);
      SlotKnown(e);
      TakeSlot(e, j, i);
      SentAlike(cfg, c, core, e, i);
      SendOff(e, i);
    }

    lemma SlotKnown(e: nat)
      requires Valid() && e < |core.emergencies|
      ensures e < |emergencies| == |core.emergencies| && |core.twins| == |twins|
              && |core.emergencies[e].slots| == emergencies[e].rescuerTwins.Length
    {
      assert emergencies[e].View() == core.emergencies[e];
    }

    /** One slot's turn of the dispatch loop: a filled slot is skipped, a free one takes the
        next candidate.  Nothing is served when there is no next candidate. */
    method Serve(e: nat, j: nat, candidates: seq<nat>) returns (served: bool, rest: seq<nat>)
      requires Valid() && Shape(cfg, core) && Sendable(cfg, core, e, candidates)
      requires e < |core.emergencies| && j < |core.emergencies[e].slots|
      modifies this`core, TwinParts(), EmergencyParts()
      ensures Valid() && Flags() == old(Flags())
      ensures Shape(cfg, core) && Sendable(cfg, core, e, rest)
      ensures e < |core.emergencies| && |core.emergencies[e].slots| == |old(core).emergencies[e].slots|
      ensures served ==> Fill(cfg, core, e, j + 1, rest) == Fill(cfg, old(core), e, j, candidates)
                         && FillUntil(cfg, core, e, j + 1, rest) == FillUntil(cfg, old(core), e, j, candidates)
      ensures !served ==> Fill(cfg, old(core), e, j, candidates) == None
                          && FillUntil(cfg, old(core), e, j, candidates) == core
    {
      hide Shape, Valid, Flags, Assign;
      served, rest := true, candidates;
      var taken := SlotTaken(e, j);
      if !taken {
        if candidates == [] {
          served := false;
        } else {
          AssignSendable(cfg, core, e, j, candidates);
          AssignTwin(e, j, candidates[0]);
          rest := candidates[1..];
        }
      }
    }

    method SlotTaken(e: nat, j: nat) returns (taken: bool)
      requires Valid() && e < |core.emergencies| && j < |core.emergencies[e].slots|
      ensures Valid() && Flags() == old(Flags()) && (taken <==> core.emergencies[e].slots[j].Some?)
    {
      SlotKnown(e);
      assert emergencies[e].View() == core.emergencies[e];
      return emergencies[e].rescuerTwins[j].Some?;
    }

    method SlotCount(e: nat) returns (count: nat)
      requires Valid() && e < |core.emergencies|
      ensures Valid() && Flags() == old(Flags()) && count == |core.emergencies[e].slots|
    {
      SlotKnown(e);
      return emergencies[e].rescuerTwins.Length;
    }

    /** The dispatch loop.  It stops where the program would read past the last candidate. */
    method DispatchAll(e: nat, candidates: seq<nat>) returns (complete: bool)
      requires Valid() && Shape(cfg, core) && e < |core.emergencies| && Sendable(cfg, core, e, candidates)
      modifies this`core, TwinParts(), EmergencyParts()
      ensures Valid() && Flags() == old(Flags()) && core == FillUntil(cfg, old(core), e, 0, candidates)
      ensures Fill(cfg, old(core), e, 0, candidates) == if complete then Some(core) else None
    {
      hide Shape, Valid, Flags, Fill, FillUntil, Sendable;
      ghost var goal, stop := Fill(cfg, core, e, 0, candidates), FillUntil(cfg, core, e, 0, candidates);
      ghost var flags := Flags();
      complete := true;
      var rest := candidates;
      var count := SlotCount(e);
      var j := 0;
      while j < count && complete
        invariant j <= count && Valid() && Flags() == flags && Shape(cfg, core) && Sendable(cfg, core, e, rest)
        invariant e < |core.emergencies| && |core.emergencies[e].slots| == count
        invariant complete ==> Fill(cfg, core, e, j, rest) == goal && FillUntil(cfg, core, e, j, rest) == stop
        invariant !complete ==> goal == None && core == stop
      {
        complete, rest := Serve(e, j, rest);
        j := j + 1;
      }
      if complete {
        FillEnds(cfg, core, e, rest);
      }
    }

    /** Nobody is missing any more. */
    method ClearMissing(e: nat)
      requires Valid() && e < |core.emergencies|
      modifies this`core, EmergencyParts()
      ensures Valid() && Flags() == old(Flags())
      ensures core == Core(old(core).twins, old(core).emergencies[e := NothingMissing(old(core).emergencies[e])])
    {
      SlotKnown(e);
      assert emergencies[e].View() == core.emergencies[e];
      ZeroMissing(e);
      core := Core(core.twins, core.emergencies[e := NothingMissing(core.emergencies[e])]);
    }

    method ZeroMissing(e: nat)
      requires Apart() && e < |emergencies|
      modifies emergencies[e].rescuersMissing
      ensures emergencies[e].View() == NothingMissing(old(emergencies[e].View()))
      ensures forall y :: 0 <= y < |emergencies| && y != e ==> emergencies[y].View() == old(emergencies[y].View())
    {
      var missing := emergencies[e].rescuersMissing;
      for k := 0 to missing.Length
        invariant forall m :: 0 <= m < k ==> missing[m] == 0
      {
        missing[k] := 0;
      }
      assert missing[..] == seq(missing.Length, _ => 0);
    }

    /** The loop that counts the missing rescuers. */
    method CountMissing(e: nat) returns (count: int)
      requires Valid() && e < |core.emergencies|
      ensures Valid() && Flags() == old(Flags()) && count == Sum(core.emergencies[e].missing)
    {
      SlotKnown(e);
      assert emergencies[e].View() == core.emergencies[e];
      ghost var missing := core.emergencies[e].missing;
      count := 0;
      for k := 0 to emergencies[e].rescuersMissing.Length
        invariant count == Sum(missing[..k])
      {
        assert missing[..k + 1][..k] == missing[..k];
        count := count + emergencies[e].rescuersMissing[k];
      }
      assert missing[..|missing|] == missing;
    }

    /** The candidates are sent off and, when they were enough, nobody is missing any more. */
    method Commit(e: nat, candidates: seq<nat>) returns (complete: bool)
      requires Valid() && Shape(cfg, core) && e < |core.emergencies| && Sendable(cfg, core, e, candidates)
      modifies this`core, TwinParts(), EmergencyParts()
      ensures Valid() && Flags() == old(Flags())
      ensures match Fill(cfg, old(core), e, 0, candidates)
              case None => !complete && core == FillUntil(cfg, old(core), e, 0, candidates)
              case Some(d) => complete && core == Core(d.twins, d.emergencies[e := NothingMissing(d.emergencies[e])])
    {
      hide Shape, Valid, Flags, Fill, FillUntil, Sendable;
      complete := DispatchAll(e, candidates);
      if complete {
        ClearMissing(e);
      }
    }

    /** find_rescuers: all or nothing, except that the dispatch loop can run out of candidates.
        There the program reads past its array; the method stops and says so. */
    method FindRescuers(e: nat) returns (ending: Ending)
      requires Valid() && Sensible(Quest(cfg, core, e)) && Flags() == {}
      modifies this`core, twins, TwinParts(), EmergencyParts()
      ensures Valid() && Flags() == {}
      ensures match Dispatcher.FindRescuers(Quest(cfg, old(core), e))
              case NotFound => ending == Failed && core == old(core)
              case Found(d) => ending == Succeeded && core == d
              case Overrun => ending == Stranded && Ran(Quest(cfg, old(core), e), core)
    {
      hide Sensible, Shape, Valid, Flags, Search, Fill, FillUntil, Sendable, Dispatcher.FindRescuers, Ran;
      ghost var q := Quest(cfg, core, e);
      Dispatch.SensibleShape(q);
      var count := CountMissing(e);
      if count == 0 {
        NothingToFind(q);
        return Succeeded;
      }
      var found, candidates := Collect(e);
      SearchDecides(q);
      if !found {
        return Failed;
      }
      var complete := Commit(e, candidates);
      return if complete then Succeeded else Stranded;
    }

    // ---------------------------------------------------------------- the update of a twin

    method ServeTwin(i: nat) returns (stays: bool)
      requires Valid() && i < |twins|
      modifies this`core, TwinParts()
      ensures Valid() && Flags() == old(Flags())
      ensures emergencies == old(emergencies) && EmergencyParts() == old(EmergencyParts())
      ensures var t := old(core).twins[i];
              var u := t.(timeLeft := t.timeLeft - 1, served := t.served + 1);
              core == Core(old(core).twins[i := u], old(core).emergencies) && (stays <==> u.timeLeft > 0)
    {
      ghost var t := core.twins[i];
      assert twins[i].View() == t;
      stays := twins[i].Serve();
      core := Core(core.twins[i := t.(timeLeft := t.timeLeft - 1, served := t.served + 1)], core.emergencies);
    }

    method SendTwinHome(i: nat, r: RescuerType)
      requires Valid() && i < |twins|
      modifies this`core, TwinParts()
      ensures Valid() && Flags() == old(Flags())
      ensures emergencies == old(emergencies) && EmergencyParts() == old(EmergencyParts())
      ensures core ==
              Core(old(core).twins[i := SendBack(r, old(core).twins[i]).(emergency := None)], old(core).emergencies)
    {
      ghost var u := SendBack(r, core.twins[i]).(emergency := None);
      assert twins[i].View() == core.twins[i];
      twins[i].GoHome(r);
      core := Core(core.twins[i := u], core.emergencies);
    }

    method WalkTwin(i: nat, r: RescuerType) returns (arrived: bool)
      requires Valid() && i < |twins| && core.twins[i].course.dx >= 0 && core.twins[i].course.dy >= 0
      modifies this`core, TwinParts()
      ensures Valid() && Flags() == old(Flags())
      ensures emergencies == old(emergencies) && EmergencyParts() == old(EmergencyParts())
      ensures core == Core(old(core).twins[i := Advance(r, old(core).twins[i])], old(core).emergencies)
      ensures var t := old(core).twins[i]; arrived <==> Step(t.course, t.x, t.y, r.speed).arrived
    {
      hide Step, Advance;
      ghost var u := Advance(r, core.twins[i]);
      assert twins[i].View() == core.twins[i];
      arrived := twins[i].Walk(r);
      core := Core(core.twins[i := u], core.emergencies);
    }

    method ReleaseRecord(y: nat, i: nat, ghost t: Twin)
      requires Valid() && y < |emergencies|
      modifies this`core, EmergencyParts()
      ensures Valid() && Flags() == old(Flags())
      ensures emergencies == old(emergencies) && EmergencyParts() == old(EmergencyParts())
      ensures core == Core(old(core).twins, old(core).emergencies[y := Released(old(core).emergencies[y], t, i)])
    {
      assert emergencies[y].View() == core.emergencies[y];
      emergencies[y].Release(i, t);
      core := Core(core.twins, core.emergencies[y := Released(core.emergencies[y], t, i)]);
    }

    method ReachRecord(y: nat)
      requires Valid() && y < |emergencies|
      modifies this`core, EmergencyParts()
      ensures Valid() && Flags() == old(Flags())
      ensures emergencies == old(emergencies) && EmergencyParts() == old(EmergencyParts())
      ensures var em := old(core).emergencies[y];
              core == Core(old(core).twins, old(core).emergencies[y := em.(notArrived := em.notArrived - 1)])
    {
      assert emergencies[y].View() == core.emergencies[y];
      ghost var em := core.emergencies[y];
      emergencies[y].Reach();
      core := Core(core.twins, core.emergencies[y := em.(notArrived := em.notArrived - 1)]);
    }

    lemma Sizes(i: nat)
      requires Valid() && i < |core.twins|
      ensures |core.twins| == |twins| && |core.emergencies| == |emergencies| && twins[i].rtype == core.twins[i].rtype
    {
      assert twins[i].View() == core.twins[i];
    }

    method StatusOf(i: nat) returns (status: TwinStatus, emergency: Option<nat>)
      requires Valid() && i < |core.twins|
      ensures Valid() && Flags() == old(Flags()) && |core.twins| == |twins| && |core.emergencies| == |emergencies|
      ensures status == core.twins[i].status && emergency == core.twins[i].emergency
      ensures twins[i].rtype == core.twins[i].rtype
    {
      assert twins[i].View() == core.twins[i];
      return twins[i].status, twins[i].emergency;
    }

    /** An update on scene: the twin stays, or leaves its emergency and turns homeward. */
    method LeaveScene(i: nat, e: nat) returns (stays: bool)
      requires Valid() && i < |core.twins| && e < |core.emergencies| && core.twins[i].rtype < |cfg.rescuers|
      requires core.twins[i].status == OnScene && core.twins[i].emergency == Some(e)
      modifies this`core, TwinParts(), EmergencyParts()
      ensures Valid() && Flags() == old(Flags())
      ensures var t := old(core).twins[i];
              core == if stays
                      then Core(old(core).twins[i := t.(timeLeft := t.timeLeft - 1, served := t.served + 1)],
                                old(core).emergencies)
                      else MidTick(cfg, old(core), i)
      ensures stays <==> old(core).twins[i].timeLeft > 1
    {
      hide Valid, Flags, SendBack, Released, Apart, Footprint, TwinParts, EmergencyParts;
      ghost var t := core.twins[i];
      Sizes(i);
      stays := ServeTwin(i);
      if !stays {
        ReleaseRecord(e, i, t);
        SendTwinHome(i, cfg.rescuers[twins[i].rtype]);
      }
    }

    /** A walking update, and the arrival it may bring. */
    method WalkOn(i: nat, status: TwinStatus, emergency: Option<nat>)
      requires Valid() && i < |core.twins| && core.twins[i].rtype < |cfg.rescuers|
      requires core.twins[i].course.dx >= 0 && core.twins[i].course.dy >= 0
      requires status == EnRoute ==> emergency.Some? && emergency.value < |core.emergencies|
      modifies this`core, TwinParts(), EmergencyParts()
      ensures Valid() && Flags() == old(Flags())
      ensures |core.twins| == |old(core).twins| && core == Walked(cfg, old(core), i, status, emergency)
    {
      hide Valid, Flags, Step, Advance, Apart, Footprint, TwinParts, EmergencyParts;
      Sizes(i);
      var arrived := WalkTwin(i, cfg.rescuers[twins[i].rtype]);
      if arrived && status == EnRoute {
        ReachRecord(emergency.value);
      }
    }

    /** update_rescuer_digital_twin_state: a twin whose time on scene is up leaves its
        emergency and walks the first step home in the same update. */
    method TickTwin(i: nat)
      requires Valid() && Shape(cfg, core) && i < |core.twins|
      requires core.twins[i].course.dx >= 0 && core.twins[i].course.dy >= 0
      modifies this`core, TwinParts(), EmergencyParts()
      ensures Valid() && Flags() == old(Flags()) && core == Dispatcher.TickTwin(cfg, old(core), i)
    {
      hide Shape, Valid, Flags, Dispatcher.TickTwin, MidTick, Walked, Apart, Footprint;
      ghost var c := core;
      TypeKnown(cfg, c, i);
      var status, emergency := StatusOf(i);
      if status == Idle {
        IdleTick(cfg, c, i);
        return;
      }
      NotOnScene(cfg, c, i);
      if status == OnScene {
        var stays := LeaveScene(i, emergency.value);
        if stays {
          StayTick(cfg, c, i);
          return;
        }
      }
      MidTickCourse(cfg, c, i);
      WalkOn(i, status, emergency);
      TickTwinIs(cfg, c, i);
    }

    // ---------------------------------------------------------------- the update of the world

    /** One twin's turn in update_rescuers_states. */
    method TickNext(i: nat)
      requires Valid() && World.Sound(cfg, core) && i < |core.twins|
      modifies this`core, TwinParts(), EmergencyParts()
      ensures Valid() && Flags() == old(Flags()) && emergencies == old(emergencies)
      ensures Shape(cfg, old(core)) && core == Dispatcher.TickTwin(cfg, old(core), i)
    {
      hide Valid, Flags, World.Sound, Shape, Dispatcher.TickTwin;
      TickKnown(cfg, core, i);
      TickTwin(i);
    }

    /** The twins of one type, after those of the types before it. */
    method UpdateType(ghost c: Core, r: nat)
      requires Valid() && World.Sound(cfg, c) && r < |cfg.rescuers| && World.ValidIds(c, World.Roster(cfg, r))
      requires core == World.TickTwins(cfg, c, World.Roster(cfg, r))
      modifies this`core, TwinParts(), EmergencyParts()
      ensures Valid() && Flags() == old(Flags()) && emergencies == old(emergencies)
      ensures World.ValidIds(c, World.Roster(cfg, r + 1)) && core == World.TickTwins(cfg, c, World.Roster(cfg, r + 1))
    {
      hide Valid, Flags, World.Sound, World.ValidIds, World.TickTwins, World.Roster, Footprint, Apart;
      ghost var flags, records := Flags(), emergencies;
      BeginType(cfg, c, r);
      for j := 0 to |cfg.rescuers[r].twins|
        invariant Valid() && Flags() == flags && emergencies == records
        invariant World.ValidIds(c, Sofar(cfg, r, j)) && core == World.TickTwins(cfg, c, Sofar(cfg, r, j))
      {
        NextOfType(cfg, c, r, j);
        TickNext(cfg.rescuers[r].twins[j]);
      }
      EndType(cfg, r);
    }

    /** update_rescuers_states */
    method UpdateRescuers()
      requires Valid() && World.Sound(cfg, core)
      modifies this`core, TwinParts(), EmergencyParts()
      ensures Valid() && Flags() == old(Flags()) && emergencies == old(emergencies)
      ensures World.ValidIds(old(core), World.Roster(cfg, |cfg.rescuers|))
      ensures core == World.TickTwins(cfg, old(core), World.Roster(cfg, |cfg.rescuers|))
    {
      hide Valid, Flags, World.Sound, World.ValidIds, World.TickTwins, World.Roster, Footprint, Apart;
      ghost var c, flags, records := core, Flags(), emergencies;
      NobodyTicked(cfg, c);
      for r := 0 to |cfg.rescuers|
        invariant Valid() && Flags() == flags && emergencies == records
        invariant World.ValidIds(c, World.Roster(cfg, r)) && core == World.TickTwins(cfg, c, World.Roster(cfg, r))
      {
        UpdateType(c, r);
      }
    }

    /** One slot's turn in update_active_emergencies_states. */
    method TickSlot(slot: Option<nat>)
      requires Valid() && ValidTable(cfg.table)
      modifies this`core, EmergencyParts()
      ensures Valid() && Flags() == old(Flags()) && emergencies == old(emergencies)
      ensures core == World.TickSlot(cfg, old(core), slot)
    {
      if slot.Some? && slot.value < |emergencies| {
        var e := slot.value;
        ghost var em := TickEmergency(cfg, core.emergencies[e]);
        assert emergencies[e].View() == core.emergencies[e];
        hide ValidTable, TickEmergency;
        emergencies[e].TickActive(cfg);
        core := Core(core.twins, core.emergencies[e := em]);
      }
    }

    /** update_active_emergencies_states */
    method UpdateActive(active: seq<Option<nat>>)
      requires Valid() && World.Sound(cfg, core)
      modifies this`core, EmergencyParts()
      ensures Valid() && Flags() == old(Flags()) && emergencies == old(emergencies)
      ensures core == World.TickSlots(cfg, old(core), active)
    {
      hide Valid, Flags, World.Sound, World.TickSlot, World.TickSlots, Footprint, Apart, ValidTable;
      ghost var c, flags, records := core, Flags(), emergencies;
      NoSlotTicked(cfg, c);
      for w := 0 to |active|
        invariant Valid() && Flags() == flags && emergencies == records
        invariant core == World.TickSlots(cfg, c, active[..w])
      {
        NextSlot(cfg, c, active, w);
        TickSlot(active[w]);
      }
      assert active[..|active|] == active;
    }

    /** The updater's critical section: the twins, then the active emergencies. */
    method UpdateWorld(active: seq<Option<nat>>)
      requires Valid() && World.Sound(cfg, core)
      modifies this`core, TwinParts(), EmergencyParts()
      ensures Valid() && Flags() == old(Flags()) && core == World.TickWorld(cfg, old(core), active)
    {
      hide Valid, Flags, World.Sound, World.TickSlots, World.TickTwins, Footprint, Apart;
      UpdateRescuers();
      UpdateActive(active);
    }
  }

  function AtBase(cfg: Config, rtype: nat): Twin
    requires rtype < |cfg.rescuers|
  {
    var r := cfg.rescuers[rtype];
    Twin(rtype, r.x, r.y, Idle, Aim(r.x, r.y, r.x, r.y), None, INVALID_TIME, INVALID_TIME, 0)
  }

  /** callocate_and_populate_rescuer_digital_twins */
  method NewTwins(cfg: Config, rtypes: seq<nat>) returns (ts: seq<DigitalTwin>)
    requires forall k :: 0 <= k < |rtypes| ==> rtypes[k] < |cfg.rescuers|
    ensures |ts| == |rtypes|
    ensures forall k :: 0 <= k < |ts| ==>
              && fresh(ts[k]) && fresh(ts[k].trajectory) && ts[k].id == k
              && ts[k].View() == AtBase(cfg, rtypes[k]) && !ts[k].isACandidate
    ensures forall j, k :: 0 <= j < k < |ts| ==> ts[j] != ts[k] && ts[j].trajectory != ts[k].trajectory
  {
    ts := [];
    for n := 0 to |rtypes|
      invariant |ts| == n
      invariant forall k :: 0 <= k < n ==>
                  && fresh(ts[k]) && fresh(ts[k].trajectory) && ts[k].id == k
                  && ts[k].View() == AtBase(cfg, rtypes[k]) && !ts[k].isACandidate
      invariant forall j, k :: 0 <= j < k < n ==> ts[j] != ts[k] && ts[j].trajectory != ts[k].trajectory
    {
      var t := new DigitalTwin(n, rtypes[n], cfg.rescuers[rtypes[n]]);
      ts := ts + [t];
    }
  }

  lemma EmergencyKnown(cfg: Config, c: Core, e: nat, i: nat)
    requires Sensible(Quest(cfg, c, e)) && i < |c.twins|
    ensures e < |c.emergencies| && c.twins[i].rtype < |cfg.rescuers|
    ensures c.twins[i].emergency.Some? ==> c.twins[i].emergency.value < |c.emergencies|
  {
    assert ShapeTwin(cfg, c, c.twins[i]);
  }

  lemma SpeedPositive(cfg: Config, c: Core, e: nat, i: nat)
    requires Sensible(Quest(cfg, c, e)) && i < |c.twins|
    ensures c.twins[i].rtype < |cfg.rescuers| && cfg.rescuers[c.twins[i].rtype].speed >= 1
  {
    assert ShapeTwin(cfg, c, c.twins[i]);
  }

  lemma RosterKnown(cfg: Config, c: Core, r: nat)
    requires Rostered(cfg, c) && r < |cfg.rescuers|
    ensures forall n :: 0 <= n < |cfg.rescuers[r].twins| ==> cfg.rescuers[r].twins[n] < |c.twins|
  {
  }

  lemma FlagNobody(taken: set<nat>)
    ensures taken + Flagged([]) == taken && Flagged([]) == {}
  {
  }

  lemma FlagOneMore(taken: set<nat>, picks: seq<nat>, b: nat)
    ensures taken + Flagged(picks) + {b} == taken + Flagged(picks + [b])
  {
    assert Flagged(picks + [b]) == Flagged(picks) + {b};
  }

  lemma NoMorePicks(q: Quest, r: nat, taken: set<nat>)
    requires Sensible(q) && r < |q.cfg.rescuers|
    ensures Greedy(q, r, 0, taken) == []
  {
  }

  /** One more pick of the greedy choice. */
  lemma GreedyTurn(q: Quest, r: nat, k: nat, taken: set<nat>, picks: seq<nat>)
    requires Sensible(q) && r < |q.cfg.rescuers| && k > 0
    ensures match Best(q, r, taken)
            case None => Greedy(q, r, k, taken) == []
            case Some(b) => picks + Greedy(q, r, k, taken) == picks + [b] + Greedy(q, r, k - 1, taken + {b})
  {
    hide Sensible, Best;
  }

  lemma FlagMore(cs: seq<nat>, picks: seq<nat>)
    ensures Flagged(cs) + Flagged(picks) == Flagged(cs + picks)
  {
  }

  lemma QuestKnown(q: Quest)
    requires Sensible(q)
    ensures q.e < |q.core.emergencies| && ShapeEmergency(q.cfg, Self(q)) && Sought(q) == Requests(q.cfg, Self(q))
  {
  }

  lemma RequestKnown(q: Quest, n: nat)
    requires Sensible(q) && n < |Sought(q)|
    ensures TypeOf(q, n) == Sought(q)[n].rtype < |q.cfg.rescuers|
    ensures n < |Self(q).missing| && Missing(q, n) == Self(q).missing[n]
  {
    QuestKnown(q);
  }

  lemma {:induction false} SearchStaysNone(q: Quest, n: nat, m: nat)
    requires Sensible(q) && n <= m <= |Sought(q)| && SearchUpTo(q, n) == None
    ensures SearchUpTo(q, m) == None
  {
    hide Sensible;
    if n == m {
    } else {
      SearchStaysNone(q, n, m - 1);
    }
  }

  predicate Known(twins: seq<Twin>, ids: seq<nat>) {
    forall k :: 0 <= k < |ids| ==> ids[k] < |twins|
  }

  lemma KnowMore(twins: seq<Twin>, a: seq<nat>, b: seq<nat>)
    requires Known(twins, a) && Known(twins, b)
    ensures Known(twins, a + b)
  {
  }

  lemma KnowNobody(twins: seq<Twin>)
    ensures Known(twins, [])
  {
  }

  lemma FlagFirst(cs: seq<nat>, k: nat)
    requires k <= |cs|
    ensures k == 0 ==> Flagged(cs) - Flagged(cs[..k]) == Flagged(cs)
    ensures k > 0 ==> Flagged(cs) - Flagged(cs[..k]) == Flagged(cs) - Flagged(cs[..k - 1]) - {cs[k - 1]}
    ensures k == |cs| ==> Flagged(cs) - Flagged(cs[..k]) == {}
  {
    if k > 0 {
      assert cs[..k] == cs[..k - 1] + [cs[k - 1]];
    }
    if k == |cs| {
      assert cs[..k] == cs;
    }
  }

  /** Searching on after a failure changes nothing. */
  lemma SearchEnds(q: Quest, n: nat)
    requires Sensible(q) && n <= |Sought(q)| && (n < |Sought(q)| ==> SearchUpTo(q, n) == None)
    ensures Search(q) == SearchUpTo(q, n)
  {
    hide Sensible;
    if n < |Sought(q)| {
      SearchStaysNone(q, n, |Sought(q)|);
    }
  }

  lemma SearchStarts(q: Quest)
    requires Sensible(q)
    ensures SearchUpTo(q, 0) == Some([])
  {
  }

  lemma SearchNext(q: Quest, n: nat, cs: seq<nat>)
    requires Sensible(q) && n < |Sought(q)| && SearchUpTo(q, n) == Some(cs)
    ensures var picks := Greedy(q, TypeOf(q, n), Missing(q, n), Flagged(cs));
            SearchUpTo(q, n + 1) == if |picks| >= Missing(q, n) then Some(cs + picks) else None
  {
    hide Sensible, Greedy, TypeOf, Missing;
  }

  lemma RobKnown(cfg: Config, c: Core, i: nat)
    requires Shape(cfg, c) && i < |c.twins| && c.twins[i].emergency.Some?
    ensures var y := c.twins[i].emergency.value;
            && y < |c.emergencies| && ShapeEmergency(cfg, c.emergencies[y])
            && Wanted(cfg, c.emergencies[y], c.twins[i].rtype)
  {
    assert ShapeTwin(cfg, c, c.twins[i]);
  }

  /** The emergency that gains a twin is not the one that loses it. */
  lemma PreemptKeeps(cfg: Config, c: Core, e: nat, i: nat)
    requires Shape(cfg, c) && Assignable(cfg, c, e, i)
    ensures Preempt(cfg, c, i).emergencies[e] == c.emergencies[e]
  {
  }

  lemma SentAlike(cfg: Config, c: Core, d: Core, e: nat, i: nat)
    requires Assignable(cfg, c, e, i) && d.twins == c.twins && e < |d.emergencies|
    requires d.emergencies[e] == c.emergencies[e].(slots := d.emergencies[e].slots)
    ensures Assignable(cfg, d, e, i) && Dispatch.Sent(cfg, d, e, i) == Dispatch.Sent(cfg, c, e, i)
  {
  }

  lemma FillEnds(cfg: Config, c: Core, e: nat, cs: seq<nat>)
    requires Shape(cfg, c) && e < |c.emergencies| && Sendable(cfg, c, e, cs)
    ensures Fill(cfg, c, e, |c.emergencies[e].slots|, cs) == Some(c)
    ensures FillUntil(cfg, c, e, |c.emergencies[e].slots|, cs) == c
  {
  }

  lemma NothingToFind(q: Quest)
    requires Sensible(q) && Sum(Self(q).missing) == 0
    ensures Dispatcher.FindRescuers(q) == Found(q.core)
  {
    hide Sensible;
  }

  /** How far a search that runs out of candidates has got. */
  ghost predicate Ran(q: Quest, d: Core)
    requires Sensible(q)
  {
    && Search(q).Some? && Shape(q.cfg, q.core) && Sendable(q.cfg, q.core, q.e, Search(q).value)
    && d == FillUntil(q.cfg, q.core, q.e, 0, Search(q).value)
  }

  /** The outcome is decided by the candidates and the dispatch loop. */
  lemma SearchDecides(q: Quest)
    requires Sensible(q) && q.e < |q.core.emergencies| && Shape(q.cfg, q.core) && Sum(Self(q).missing) != 0
    ensures Search(q) == None ==> Dispatcher.FindRescuers(q) == NotFound
    ensures Search(q).Some? ==>
              && Sendable(q.cfg, q.core, q.e, Search(q).value)
              && match Fill(q.cfg, q.core, q.e, 0, Search(q).value)
                 case None =>
                   && Dispatcher.FindRescuers(q) == Overrun
                   && Ran(q, FillUntil(q.cfg, q.core, q.e, 0, Search(q).value))
                 case Some(d) =>
                   Dispatcher.FindRescuers(q) ==
                     Found(Core(d.twins, d.emergencies[q.e := NothingMissing(d.emergencies[q.e])]))
  {
    hide Sensible, Shape, Search, Fill, FillUntil, Sendable;
    if Search(q).Some? {
      SearchSendable(q);
    }
  }

  lemma TypeKnown(cfg: Config, c: Core, i: nat)
    requires Shape(cfg, c) && i < |c.twins|
    ensures c.twins[i].rtype < |cfg.rescuers|
    ensures OnDuty(c.twins[i]) ==> c.twins[i].emergency.Some? && c.twins[i].emergency.value < |c.emergencies|
  {
    assert ShapeTwin(cfg, c, c.twins[i]);
  }

  lemma IdleTick(cfg: Config, c: Core, i: nat)
    requires Shape(cfg, c) && i < |c.twins| && c.twins[i].status == Idle
    ensures Dispatcher.TickTwin(cfg, c, i) == c
  {
    hide Shape;
    assert c.twins[i := c.twins[i]] == c.twins;
  }

  lemma StayTick(cfg: Config, c: Core, i: nat)
    requires Shape(cfg, c) && i < |c.twins| && c.twins[i].status == OnScene && c.twins[i].timeLeft > 1
    ensures var t := c.twins[i];
            Dispatcher.TickTwin(cfg, c, i) ==
            Core(c.twins[i := t.(timeLeft := t.timeLeft - 1, served := t.served + 1)], c.emergencies)
  {
    hide Shape;
  }

  /** The store when a twin that is not resting is about to walk. */
  function MidTick(cfg: Config, c: Core, i: nat): Core
    requires i < |c.twins| && c.twins[i].rtype < |cfg.rescuers|
    requires OnDuty(c.twins[i]) ==> c.twins[i].emergency.Some? && c.twins[i].emergency.value < |c.emergencies|
  {
    var t := c.twins[i];
    if t.status != OnScene then c
    else
      var e := t.emergency.value;
      var u := t.(timeLeft := t.timeLeft - 1, served := t.served + 1);
      Core(c.twins[i := SendBack(cfg.rescuers[t.rtype], u).(emergency := None)],
           c.emergencies[e := Released(c.emergencies[e], t, i)])
  }

  lemma NotOnScene(cfg: Config, c: Core, i: nat)
    requires i < |c.twins| && c.twins[i].rtype < |cfg.rescuers|
    requires OnDuty(c.twins[i]) ==> c.twins[i].emergency.Some? && c.twins[i].emergency.value < |c.emergencies|
    ensures c.twins[i].status != OnScene ==> MidTick(cfg, c, i) == c
  {
  }

  function Walked(cfg: Config, c: Core, i: nat, status: TwinStatus, emergency: Option<nat>): Core
    requires i < |c.twins| && c.twins[i].rtype < |cfg.rescuers|
    requires status == EnRoute ==> emergency.Some? && emergency.value < |c.emergencies|
  {
    var v, r := c.twins[i], cfg.rescuers[c.twins[i].rtype];
    var d := Core(c.twins[i := Advance(r, v)], c.emergencies);
    if status == EnRoute && Step(v.course, v.x, v.y, r.speed).arrived
    then var e := emergency.value;
         Core(d.twins, d.emergencies[e := d.emergencies[e].(notArrived := d.emergencies[e].notArrived - 1)])
    else d
  }

  lemma MidTickCourse(cfg: Config, c: Core, i: nat)
    requires Shape(cfg, c) && i < |c.twins| && c.twins[i].course.dx >= 0 && c.twins[i].course.dy >= 0
    requires c.twins[i].rtype < |cfg.rescuers|
    requires OnDuty(c.twins[i]) ==> c.twins[i].emergency.Some? && c.twins[i].emergency.value < |c.emergencies|
    ensures var m := MidTick(cfg, c, i);
            && |m.twins| == |c.twins| && |m.emergencies| == |c.emergencies| && m.twins[i].rtype == c.twins[i].rtype
            && m.twins[i].course.dx >= 0 && m.twins[i].course.dy >= 0
  {
    hide Shape;
  }

  /** Walking from there completes the twin's update. */
  lemma TickTwinIs(cfg: Config, c: Core, i: nat)
    requires Shape(cfg, c) && i < |c.twins| && c.twins[i].rtype < |cfg.rescuers|
    requires OnDuty(c.twins[i]) ==> c.twins[i].emergency.Some? && c.twins[i].emergency.value < |c.emergencies|
    requires c.twins[i].status != Idle && (c.twins[i].status == OnScene ==> c.twins[i].timeLeft <= 1)
    ensures var m := MidTick(cfg, c, i);
            && |m.twins| == |c.twins| && |m.emergencies| == |c.emergencies| && m.twins[i].rtype == c.twins[i].rtype
            && Dispatcher.TickTwin(cfg, c, i) == Walked(cfg, m, i, c.twins[i].status, c.twins[i].emergency)
  {
    hide Shape, Step;
  }

  lemma TickKnown(cfg: Config, c: Core, i: nat)
    requires World.Sound(cfg, c) && i < |c.twins|
    ensures Shape(cfg, c) && c.twins[i].course.dx >= 0 && c.twins[i].course.dy >= 0
  {
    hide World.Sound;
    World.SoundParts(cfg, c);
    World.TwinHasType(cfg, c, i);
  }

  lemma NobodyTicked(cfg: Config, c: Core)
    requires World.Sound(cfg, c)
    ensures World.ValidIds(c, World.Roster(cfg, 0)) && World.TickTwins(cfg, c, World.Roster(cfg, 0)) == c
  {
    hide World.Sound;
  }

  /** The twins visited before twin j of type r. */
  function Sofar(cfg: Config, r: nat, j: nat): seq<nat>
    requires r < |cfg.rescuers| && j <= |cfg.rescuers[r].twins|
  {
    World.Roster(cfg, r) + cfg.rescuers[r].twins[..j]
  }

  lemma BeginType(cfg: Config, c: Core, r: nat)
    requires r < |cfg.rescuers|
    ensures Sofar(cfg, r, 0) == World.Roster(cfg, r)
  {
  }

  lemma EndType(cfg: Config, r: nat)
    requires r < |cfg.rescuers|
    ensures Sofar(cfg, r, |cfg.rescuers[r].twins|) == World.Roster(cfg, r + 1)
  {
    assert cfg.rescuers[r].twins[..|cfg.rescuers[r].twins|] == cfg.rescuers[r].twins;
  }

  lemma RosteredOf(cfg: Config, c: Core)
    requires World.Sound(cfg, c)
    ensures Rostered(cfg, c)
  {
  }

  lemma SofarValid(cfg: Config, c: Core, r: nat, j: nat)
    requires World.Sound(cfg, c) && r < |cfg.rescuers| && j <= |cfg.rescuers[r].twins|
    ensures World.ValidIds(c, Sofar(cfg, r, j))
  {
    hide World.Sound, World.Roster;
    RosteredOf(cfg, c);
    World.RosterTypes(cfg, c, r);
  }

  lemma NextOfType(cfg: Config, c: Core, r: nat, j: nat)
    requires World.Sound(cfg, c) && r < |cfg.rescuers| && j < |cfg.rescuers[r].twins|
    requires World.ValidIds(c, Sofar(cfg, r, j))
    ensures World.ValidIds(c, Sofar(cfg, r, j + 1))
    ensures var b := World.TickTwins(cfg, c, Sofar(cfg, r, j));
            var i := cfg.rescuers[r].twins[j];
            && World.Sound(cfg, b) && i < |b.twins| && Shape(cfg, b)
            && World.TickTwins(cfg, c, Sofar(cfg, r, j + 1)) == Dispatcher.TickTwin(cfg, b, i)
  {
    hide World.Sound, Dispatcher.TickTwin, World.Roster;
    SofarValid(cfg, c, r, j + 1);
    var ids, i := Sofar(cfg, r, j + 1), cfg.rescuers[r].twins[j];
    assert ids == Sofar(cfg, r, j) + [i];
    assert ids[..|ids| - 1] == Sofar(cfg, r, j) && ids[|ids| - 1] == i;
    TickKnown(cfg, World.TickTwins(cfg, c, Sofar(cfg, r, j)), i);
  }

  lemma NoSlotTicked(cfg: Config, c: Core)
    requires World.Sound(cfg, c)
    ensures World.TickSlots(cfg, c, []) == c
  {
    hide World.Sound;
  }

  lemma NextSlot(cfg: Config, c: Core, active: seq<Option<nat>>, w: nat)
    requires World.Sound(cfg, c) && w < |active|
    ensures ValidTable(cfg.table)
    ensures World.TickSlots(cfg, c, active[..w + 1]) ==
            World.TickSlot(cfg, World.TickSlots(cfg, c, active[..w]), active[w])
  {
    hide World.Sound, World.TickSlot;
    World.TableValid(cfg, c);
    assert active[..w + 1][..w] == active[..w];
  }
}
