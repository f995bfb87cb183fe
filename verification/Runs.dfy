/** What holds in every run: from the server's start, under every schedule of its threads. */
module Runs {
  import opened Common
  import opened PriorityTable
  import opened Domain
  import opened Selection
  import opened Accounting
  import opened Dispatch
  import opened World
  import opened Server
  import opened Custody
  import opened Protocol
  import opened Steps
  import Ledger

  /** The state after the given turns. */
  function After(cfg: Config, s: State, turns: seq<Turn>): (t: State)
    requires Invariant(cfg, s)
    ensures Invariant(cfg, t)
    decreases |turns|
  {
    if turns == [] then s
    else
      var b := After(cfg, s, turns[..|turns| - 1]);
      ActKeepsInvariant(cfg, b, turns[|turns| - 1]);
      Act(cfg, b, turns[|turns| - 1])
  }

  function Reached(cfg: Config, s: State, turns: seq<Turn>): (t: State)
    requires Initial(cfg, s)
    ensures Invariant(cfg, t)
  {
    InitialInvariant(cfg, s);
    After(cfg, s, turns)
  }

  lemma InvariantSound(cfg: Config, s: State)
    requires Invariant(cfg, s)
    ensures Well(cfg, s) && Sound(cfg, s.core) && Books(cfg, s.core) && Shape(cfg, s.core)
  {
  }

  // ---------------------------------------------------------------- the books

  /** The crew of an emergency: the twins of a type, or of any, on their way or on scene. */
  ghost function CrewOf(s: State, e: nat, r: Option<nat>, status: TwinStatus): nat {
    |Crew(s.core.twins, e, r, status)|
  }

  /** Per requested type, required = missing + en route + on scene + finished; and the two
      counters are what they are named after. */
  ghost predicate Accounted(cfg: Config, s: State, e: nat)
    requires e < |s.core.emergencies|
  {
    var em := s.core.emergencies[e];
    && em.etype < |cfg.types| && |em.missing| == |Requests(cfg, em)|
    && (forall k :: 0 <= k < |em.missing| ==>
          var q := Requests(cfg, em)[k];
          && em.missing[k] >= 0
          && q.count == em.missing[k] + CrewOf(s, e, Some(q.rtype), EnRoute) + CrewOf(s, e, Some(q.rtype), OnScene)
                        + |Logged(em.log, q.rtype)|)
    && em.notArrived == Sum(em.missing) + CrewOf(s, e, None, EnRoute)
    && em.notDone == em.notArrived + CrewOf(s, e, None, OnScene)
    && |em.slots| == em.notDone + |em.log|
    && 0 <= em.notArrived <= em.notDone <= |em.slots|
  }

  lemma BooksAccount(cfg: Config, s: State, e: nat)
    requires Books(cfg, s.core) && e < |s.core.emergencies|
    ensures Accounted(cfg, s, e)
  {
    hide Books;
    EmergencyPage(cfg, s.core, e);
    Ledger.SumNonNegative(s.core.emergencies[e].missing);
    var em := s.core.emergencies[e];
    forall k | 0 <= k < |em.missing|
      ensures var q := Requests(cfg, em)[k];
              q.count == em.missing[k] + CrewOf(s, e, Some(q.rtype), EnRoute) + CrewOf(s, e, Some(q.rtype), OnScene)
                         + |Logged(em.log, q.rtype)|
    {
      assert TypeBalanced(cfg, s.core, e, k);
    }
  }

  /** Rescuer accounting, in every reachable state. */
  lemma RescuerAccounting(cfg: Config, s: State, turns: seq<Turn>, e: nat)
    requires Initial(cfg, s) && e < |Reached(cfg, s, turns).core.emergencies|
    ensures Accounted(cfg, Reached(cfg, s, turns), e)
  {
    hide Invariant, Books, Sound, Reached, Accounted, Initial;
    InvariantSound(cfg, Reached(cfg, s, turns));
    BooksAccount(cfg, Reached(cfg, s, turns), e);
  }

  /** Exclusive assignment.  A twin en route or on scene has exactly one slot of exactly one
      emergency, its own; any other twin has none, and no emergency. */
  lemma ExclusiveAssignment(cfg: Config, s: State, turns: seq<Turn>, i: nat)
    requires Initial(cfg, s) && i < |Reached(cfg, s, turns).core.twins|
    ensures
      var c := Reached(cfg, s, turns).core;
      var t := c.twins[i];
      && (OnDuty(t) <==> t.emergency.Some?)
      && (t.emergency.Some? ==>
            t.emergency.value < |c.emergencies| && Some(i) in c.emergencies[t.emergency.value].slots)
      && (forall e, j ::
            (0 <= e < |c.emergencies| && 0 <= j < |c.emergencies[e].slots| && c.emergencies[e].slots[j] == Some(i)) ==>
            && t.emergency == Some(e)
            && forall k :: 0 <= k < |c.emergencies[e].slots| && c.emergencies[e].slots[k] == Some(i) ==> k == j)
  {
    hide Invariant, Books, Sound, Reached;
    var t := Reached(cfg, s, turns);
    InvariantSound(cfg, t);
    TwinPage(cfg, t.core, i);
    forall e, j | 0 <= e < |t.core.emergencies| && 0 <= j < |t.core.emergencies[e].slots|
                  && t.core.emergencies[e].slots[j] == Some(i)
      ensures && t.core.twins[i].emergency == Some(e)
              && forall k :: 0 <= k < |t.core.emergencies[e].slots| && t.core.emergencies[e].slots[k] == Some(i) ==>
                 k == j
    {
      EmergencyPage(cfg, t.core, e);
    }
  }

  // ---------------------------------------------------------------- completion

  /** Completion safety.  A completed emergency misses nobody, nobody is on the way or on
      scene any more, and for each requested type exactly the required number of twins
      stayed their full time. */
  lemma CompletedIsServed(cfg: Config, s: State, turns: seq<Turn>, e: nat)
    requires Initial(cfg, s) && e < |Reached(cfg, s, turns).core.emergencies|
    requires Reached(cfg, s, turns).core.emergencies[e].status == Completed
    ensures
      var t := Reached(cfg, s, turns);
      var em := t.core.emergencies[e];
      && em.etype < |cfg.types| && |em.missing| == |Requests(cfg, em)|
      && CrewOf(t, e, None, EnRoute) == CrewOf(t, e, None, OnScene) == 0
      && (forall k :: 0 <= k < |em.missing| ==>
            em.missing[k] == 0 && |Logged(em.log, Requests(cfg, em)[k].rtype)| == Requests(cfg, em)[k].count)
      && (forall i :: i in em.log ==>
            var k := RequestOf(Requests(cfg, em), em.log[i].rtype);
            k < |Requests(cfg, em)| && em.log[i].ticks == Requests(cfg, em)[k].time)
  {
    hide Invariant, Books, Sound, Reached;
    var t := Reached(cfg, s, turns);
    InvariantSound(cfg, t);
    EmergencyPage(cfg, t.core, e);
    var em := t.core.emergencies[e];
    Ledger.SumNonNegative(em.missing);
    AllZero(em.missing);
    forall k | 0 <= k < |em.missing|
      ensures em.missing[k] == 0 && |Logged(em.log, Requests(cfg, em)[k].rtype)| == Requests(cfg, em)[k].count
    {
      assert TypeBalanced(cfg, t.core, e, k);
      NoneOfType(t.core.twins, e, Requests(cfg, em)[k].rtype, EnRoute);
      NoneOfType(t.core.twins, e, Requests(cfg, em)[k].rtype, OnScene);
    }
  }

  lemma NoneOfType(twins: seq<Twin>, e: nat, r: nat, status: TwinStatus)
    requires |Crew(twins, e, None, status)| == 0
    ensures |Crew(twins, e, Some(r), status)| == 0
  {
    assert forall i: nat :: i in Crew(twins, e, Some(r), status) ==> i in Crew(twins, e, None, status);
  }

  lemma {:induction false} AllZero(s: seq<int>)
    requires forall k :: 0 <= k < |s| ==> s[k] >= 0
    ensures Sum(s) == 0 ==> forall k :: 0 <= k < |s| ==> s[k] == 0
  {
    if s == [] {
    } else {
      AllZero(s[..|s| - 1]);
      Ledger.SumNonNegative(s[..|s| - 1]);
    }
  }

  /** Completion is final: whatever happens later, nothing but its condition variable
      changes, and in particular no failed search's timeout overwrites it. */
  lemma {:induction false} CompletedForever(cfg: Config, s: State, turns: seq<Turn>, e: nat)
    requires Invariant(cfg, s) && e < |s.core.emergencies| && s.core.emergencies[e].status == Completed
    ensures e < |After(cfg, s, turns).core.emergencies|
    ensures var em := After(cfg, s, turns).core.emergencies[e]; em == s.core.emergencies[e].(cond := em.cond)
    decreases |turns|
  {
    hide Invariant, Act;
    if turns == [] {
    } else {
      CompletedForever(cfg, s, turns[..|turns| - 1], e);
      EmergencyStep(cfg, After(cfg, s, turns[..|turns| - 1]), turns[|turns| - 1], e);
    }
  }

  predicate Interrupted(status: EmergencyStatus) {
    status == Paused || status == TimedOut
  }

  /** A preempted emergency never completes: paused or timed out, it is one or the other ever after. */
  lemma {:induction false} PausedNeverCompletes(cfg: Config, s: State, turns: seq<Turn>, e: nat)
    requires Invariant(cfg, s) && e < |s.core.emergencies| && Interrupted(s.core.emergencies[e].status)
    ensures e < |After(cfg, s, turns).core.emergencies|
    ensures Interrupted(After(cfg, s, turns).core.emergencies[e].status)
    decreases |turns|
  {
    hide Invariant, Act;
    if turns == [] {
    } else {
      PausedNeverCompletes(cfg, s, turns[..|turns| - 1], e);
      EmergencyStep(cfg, After(cfg, s, turns[..|turns| - 1]), turns[|turns| - 1], e);
    }
  }

  // ---------------------------------------------------------------- custody

  /** Conservation.  Every accepted emergency is in exactly one place, listed there once. */
  lemma EveryEmergencyInOnePlace(cfg: Config, s: State, turns: seq<Turn>, e: nat) returns (p: Place)
    requires Initial(cfg, s) && e < |Reached(cfg, s, turns).core.emergencies|
    ensures At(Reached(cfg, s, turns), p, e) && Copies(Reached(cfg, s, turns), e) == 1
    ensures forall r: Place :: At(Reached(cfg, s, turns), r, e) ==> r == p
  {
    hide Invariant, Reached, Settled, Sound;
    var t := Reached(cfg, s, turns);
    InvariantParts(cfg, t);
    p := Somewhere(t, e);
    forall r: Place | At(t, r, e) ensures r == p {
      Exclusive(t, p, r, e);
    }
  }

  ghost predicate StatusFits(s: State, e: nat, p: Place)
    requires e < |s.core.emergencies| && At(s, p, e)
  {
    var status := s.core.emergencies[e].status;
    && (p == InCompleted ==> status == Completed)
    && (p == InCanceled ==> status == TimedOut || status == Paused)
    && (status == Waiting <==> p == InQueue || p == AtReceiver || p == AtUpdater
                               || (p.AtWorker? && s.workers[p.w].Holding?))
  }

  lemma SettledFits(cfg: Config, s: State, e: nat, p: Place)
    requires Settled(cfg, s) && At(s, p, e)
    ensures e < |s.core.emergencies| && StatusFits(s, e, p)
  {
    assert Suits(cfg, s, p, s.core.emergencies[e]);
  }

  /** And its place says what has become of it. */
  lemma PlaceShowsStatus(cfg: Config, s: State, turns: seq<Turn>, e: nat, p: Place)
    requires Initial(cfg, s) && At(Reached(cfg, s, turns), p, e)
    ensures e < |Reached(cfg, s, turns).core.emergencies| && StatusFits(Reached(cfg, s, turns), e, p)
  {
    hide Invariant, Reached, Conserved, Sound, Settled, At, StatusFits, SlotsShow, AtHome, Initial, Well;
    var t := Reached(cfg, s, turns);
    InvariantParts(cfg, t);
    SettledFits(cfg, t, e, p);
  }

  /** Each slot is its worker's: it shows what that worker works on, and no two show the same. */
  lemma SlotsBelongToWorkers(cfg: Config, s: State, turns: seq<Turn>, w: nat)
    requires Initial(cfg, s) && w < |Reached(cfg, s, turns).workers|
    ensures
      var t := Reached(cfg, s, turns);
      && |t.active| == |t.workers| && t.active[w] == Opened(t.workers[w])
      && (t.active[w].Some? ==> forall v :: 0 <= v < |t.active| && v != w ==> t.active[v] != t.active[w])
  {
    hide Invariant, Reached, Sound, Settled, Conserved, Initial;
    var t := Reached(cfg, s, turns);
    InvariantParts(cfg, t);
    ActiveApart(t);
  }

  /** And every waiting emergency is in the list of its own level. */
  lemma WaitingAtTheirLevel(cfg: Config, s: State, turns: seq<Turn>, l: nat, k: nat)
    requires Initial(cfg, s) && l < |Reached(cfg, s, turns).queue| && k < |Reached(cfg, s, turns).queue[l]|
    ensures
      var t := Reached(cfg, s, turns);
      var e := t.queue[l][k];
      && e < |t.core.emergencies| && t.core.emergencies[e].status == Waiting
      && LevelOf(cfg, t.core.emergencies[e]) == l
  {
    hide Invariant, Reached, Sound, Settled, Conserved, Initial, At;
    var t := Reached(cfg, s, turns);
    InvariantParts(cfg, t);
    WaitsInQueue(cfg, t, l, k);
  }

  lemma WaitsInQueue(cfg: Config, s: State, l: nat, k: nat)
    requires Settled(cfg, s) && l < |s.queue| && k < |s.queue[l]|
    ensures s.queue[l][k] < |s.core.emergencies| && s.core.emergencies[s.queue[l][k]].status == Waiting
  {
    Queued(s.queue, l, k);
    assert At(s, InQueue, s.queue[l][k]);
    assert Suits(cfg, s, InQueue, s.core.emergencies[s.queue[l][k]]);
  }

  /** No lost wakeup.  A worker asleep on its emergency's condition has nothing to wake up
      for, unless it has been signalled. */
  lemma NoLostWakeup(cfg: Config, s: State, turns: seq<Turn>, w: nat)
    requires Initial(cfg, s) && w < |Reached(cfg, s, turns).workers| && Reached(cfg, s, turns).workers[w].Sleeping?
    ensures
      var t := Reached(cfg, s, turns);
      && t.workers[w].e < |t.core.emergencies|
      && var em := t.core.emergencies[t.workers[w].e];
         && (em.cond == Parked || em.cond == Signalled)
         && (em.cond == Parked ==> em.status == Assigned || em.status == InProgress)
         && (forall v :: 0 <= v < |t.workers| && v != w ==> Held(t.workers[v]) != Some(t.workers[w].e))
  {
    hide Invariant, Reached, Sound, Settled, Conserved;
    var t := Reached(cfg, s, turns);
    InvariantParts(cfg, t);
    SettledWorker(cfg, t, w);
    forall v | 0 <= v < |t.workers| && v != w ensures Held(t.workers[v]) != Some(t.workers[w].e) {
      if Held(t.workers[v]) == Some(t.workers[w].e) {
        Exclusive(t, AtWorker(v), AtWorker(w), t.workers[w].e);
      }
    }
  }

  // ---------------------------------------------------------------- preemption

  /** The level of the emergency a twin works for. */
  function TwinLevel(cfg: Config, s: State, i: nat): nat
    requires i < |s.core.twins|
  {
    WorkLevel(Quest(cfg, s.core, 0), i)
  }

  lemma TwinLevelIs(cfg: Config, s: State, i: nat)
    requires Invariant(cfg, s) && i < |s.core.twins| && OnDuty(s.core.twins[i])
    ensures var e := s.core.twins[i].emergency;
            && e.Some? && e.value < |s.core.emergencies|
            && TwinLevel(cfg, s, i) == LevelOf(cfg, s.core.emergencies[e.value])
    ensures TwinLevel(cfg, s, i) < |cfg.table|
  {
    hide Invariant, Books, Sound;
    InvariantSound(cfg, s);
    TableValid(cfg, s.core);
    TwinPage(cfg, s.core, i);
    LevelIsRow(cfg.table, s.core.emergencies[s.core.twins[i].emergency.value].urgency.priority);
  }

  lemma TickKeepsEmergency(r: RescuerType, t: Twin)
    requires OnDuty(TickAlone(r, t))
    ensures OnDuty(t) && TickAlone(r, t).emergency == t.emergency
  {
    Ledger.TickAloneFacts(r, t);
  }

  /** While a twin is on duty its emergency's level never falls, and rises when it is stolen. */
  lemma StepClimbs(cfg: Config, s: State, turn: Turn, i: nat)
    requires Invariant(cfg, s) && i < |s.core.twins| && OnDuty(s.core.twins[i])
    ensures Well(cfg, s) && i < |Act(cfg, s, turn).core.twins| && Invariant(cfg, Act(cfg, s, turn))
    ensures var t := Act(cfg, s, turn);
            OnDuty(t.core.twins[i]) ==>
              TwinLevel(cfg, s, i) + (if t.core.twins[i].emergency != s.core.twins[i].emergency then 1 else 0)
              <= TwinLevel(cfg, t, i)
  {
    hide Invariant, Sound, Books, Act, TickAlone, TwinLevel, Evolves, SentBy;
    InvariantSound(cfg, s);
    ActKeepsInvariant(cfg, s, turn);
    var t := Act(cfg, s, turn);
    TwinStep(cfg, s, turn, i);
    TwinLevelIs(cfg, s, i);
    if OnDuty(t.core.twins[i]) {
      TwinLevelIs(cfg, t, i);
      var e := t.core.twins[i].emergency.value;
      if MovesWorld(s, turn) {
        TickKeepsEmergency(cfg.rescuers[s.core.twins[i].rtype], s.core.twins[i]);
      } else if t.core.twins[i] != s.core.twins[i] {
        SentClimbs(cfg, s, turn, i, t.core.twins[i]);
      }
      EmergencyStep(cfg, s, turn, e);
      EvolvesClimbs(cfg, s.core.emergencies[e], t.core.emergencies[e]);
    }
  }

  lemma EvolvesClimbs(cfg: Config, a: Emergency, b: Emergency)
    requires Evolves(cfg, a, b)
    ensures LevelOf(cfg, a) <= LevelOf(cfg, b)
  {
  }

  lemma SentClimbs(cfg: Config, s: State, turn: Turn, i: nat, u: Twin)
    requires i < |s.core.twins| && SentBy(cfg, s, turn, i, u) && OnDuty(s.core.twins[i])
    ensures u.emergency.Some? && u.emergency.value < |s.core.emergencies|
    ensures TwinLevel(cfg, s, i) < LevelOf(cfg, s.core.emergencies[u.emergency.value])
  {
    SentFacts(cfg, s.core, Searcher(s, turn).value, i);
  }

  /** The twin is on duty in every state of the run: one sortie, however often re-routed. */
  ghost predicate OneSortie(cfg: Config, s: State, turns: seq<Turn>, i: nat)
    requires Invariant(cfg, s)
    decreases |turns|
  {
    && i < |After(cfg, s, turns).core.twins| && OnDuty(After(cfg, s, turns).core.twins[i])
    && (turns != [] ==> OneSortie(cfg, s, turns[..|turns| - 1], i))
  }

  /** How often the twin is taken from one emergency to another. */
  ghost function Thefts(cfg: Config, s: State, turns: seq<Turn>, i: nat): nat
    requires Invariant(cfg, s) && OneSortie(cfg, s, turns, i)
    decreases |turns|
  {
    if turns == [] then 0
    else
      var was := After(cfg, s, turns[..|turns| - 1]);
      Thefts(cfg, s, turns[..|turns| - 1], i)
      + if After(cfg, s, turns).core.twins[i].emergency != was.core.twins[i].emergency then 1 else 0
  }

  /** Preemption climbs.  During one sortie every theft takes the twin at least one level up,
      whatever is promoted meanwhile; so there are fewer thefts than levels. */
  lemma {:induction false} PreemptionClimbs(cfg: Config, s: State, turns: seq<Turn>, i: nat)
    requires Invariant(cfg, s) && OneSortie(cfg, s, turns, i)
    ensures i < |s.core.twins| && OnDuty(s.core.twins[i])
    ensures TwinLevel(cfg, s, i) + Thefts(cfg, s, turns, i) <= TwinLevel(cfg, After(cfg, s, turns), i) < |cfg.table|
    decreases |turns|
  {
    hide Invariant, Act, TwinLevel;
    TwinLevelIs(cfg, After(cfg, s, turns), i);
    if turns == [] {
    } else {
      PreemptionClimbs(cfg, s, turns[..|turns| - 1], i);
      StepClimbs(cfg, After(cfg, s, turns[..|turns| - 1]), turns[|turns| - 1], i);
    }
  }
}
