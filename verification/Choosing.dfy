/** Whom a search takes, told in the fields of the records alone, in every reachable state
  (src/server/thread_functions/thread_worker.c:97-283). */
module Choosing {
  import opened Common
  import opened Bresenham
  import opened PriorityTable
  import opened Domain
  import opened Selection
  import opened Dispatcher
  import opened Accounting
  import opened Dispatch
  import opened World
  import opened Server
  import opened Custody
  import opened Protocol
  import opened Steps
  import opened Runs
  import opened RunTimes
  import Ledger

  // ---------------------------------------------------------------- who may be taken, and who first

  /** The twin works for an emergency whose priority stands lower in the table. */
  predicate WorksBelow(cfg: Config, c: Core, t: Twin, priority: int) {
    && (t.status == EnRoute || t.status == OnScene)
    && t.emergency.Some? && t.emergency.value < |c.emergencies|
    && Level(cfg.table, c.emergencies[t.emergency.value].urgency.priority) < Level(cfg.table, priority)
  }

  /** How many updates the twin is from the emergency, rounded down. */
  function Travel(cfg: Config, t: Twin, em: Emergency): int
    requires t.rtype < |cfg.rescuers| && cfg.rescuers[t.rtype].speed >= 1
  {
    (Abs(em.x - t.x) + Abs(em.y - t.y)) / cfg.rescuers[t.rtype].speed
  }

  /** Twin i may be taken for emergency e: it is idle or works below it, not for it already, and
      near enough for its timeout, if that is on. */
  predicate Takeable(cfg: Config, c: Core, e: nat, i: nat)
    requires e < |c.emergencies| && i < |c.twins|
  {
    var t, em := c.twins[i], c.emergencies[e];
    && (t.status == Idle || WorksBelow(cfg, c, t, em.urgency.priority))
    && t.emergency != Some(e)
    && t.rtype < |cfg.rescuers| && cfg.rescuers[t.rtype].speed >= 1
    && (em.urgency.timeout == -10 || Travel(cfg, t, em) <= em.urgency.timeout)
  }

  /** All the twins of a type that may be taken. */
  ghost function Pool(cfg: Config, c: Core, e: nat, r: nat): set<nat>
    requires e < |c.emergencies|
  {
    set i: nat | i < |c.twins| && c.twins[i].rtype == r && Takeable(cfg, c, e, i)
  }

  /** Of two twins that may be taken, i goes first: idle before busy, then working for the lower
      level, then nearer, then still on its way, then created first. */
  predicate GoesFirst(cfg: Config, c: Core, e: nat, i: nat, j: nat)
    requires e < |c.emergencies| && i < |c.twins| && j < |c.twins|
    requires Takeable(cfg, c, e, i) && Takeable(cfg, c, e, j)
  {
    var s, t, em := c.twins[i], c.twins[j], c.emergencies[e];
    if (s.status == Idle) != (t.status == Idle) then s.status == Idle
    else if s.status != Idle && ServedLevel(cfg, c, s) != ServedLevel(cfg, c, t) then
      ServedLevel(cfg, c, s) < ServedLevel(cfg, c, t)
    else if Travel(cfg, s, em) != Travel(cfg, t, em) then Travel(cfg, s, em) < Travel(cfg, t, em)
    else if (s.status == OnScene) != (t.status == OnScene) then t.status == OnScene
    else i < j
  }

  function ServedLevel(cfg: Config, c: Core, t: Twin): nat
    requires t.emergency.Some? && t.emergency.value < |c.emergencies|
  {
    Level(cfg.table, c.emergencies[t.emergency.value].urgency.priority)
  }

  lemma TakeableIsEligible(q: Quest, i: nat)
    requires Sensible(q) && i < |q.core.twins|
    ensures Takeable(q.cfg, q.core, q.e, i) <==> Eligible(q, i, {})
  {
    assert ShapeTwin(q.cfg, q.core, q.core.twins[i]);
    assert q.cfg.rescuers[q.core.twins[i].rtype].speed >= 1;
  }

  lemma PoolIsEligible(q: Quest, r: nat)
    requires Sensible(q) && Staffed(q.cfg, q.core) && r < |q.cfg.rescuers|
    ensures Pool(q.cfg, q.core, q.e, r) == EligibleTwins(q, r, {})
  {
    hide Takeable, Eligible;
    forall i: nat ensures i in Pool(q.cfg, q.core, q.e, r) <==> i in EligibleTwins(q, r, {}) {
      if i < |q.core.twins| {
        TakeableIsEligible(q, i);
      }
    }
  }

  lemma FirstIsPrecedence(q: Quest, i: nat, j: nat)
    requires Sensible(q) && i < |q.core.twins| && j < |q.core.twins|
    requires Takeable(q.cfg, q.core, q.e, i) && Takeable(q.cfg, q.core, q.e, j)
    ensures GoesFirst(q.cfg, q.core, q.e, i, j) <==> Precedes(q, i, j)
  {
    assert ShapeTwin(q.cfg, q.core, q.core.twins[i]) && ShapeTwin(q.cfg, q.core, q.core.twins[j]);
  }

  // ---------------------------------------------------------------- the twins a search sends

  /** The candidates of one type are the search's picks for it. */
  lemma {:induction false} CandidatesOfType(q: Quest, n: nat, k: nat, x: nat)
    requires Sensible(q) && n <= |Sought(q)| && k < |Sought(q)| && x < |q.core.twins|
    requires q.core.twins[x].rtype == TypeOf(q, k)
    ensures x in Wishlist(q, n) <==> k < n && x in Greedy(q, TypeOf(q, k), Missing(q, k), {})
  {
    hide Sensible, Greedy;
    if n == 0 {
    } else {
      CandidatesOfType(q, n - 1, k, x);
      GreedyEligible(q, TypeOf(q, n - 1), Missing(q, n - 1), {});
      if k != n - 1 {
        TypesDiffer(q, n - 1, k);
      }
    }
  }

  lemma CandidateTypes(q: Quest, x: nat)
    requires Sensible(q) && Search(q).Some? && x in Search(q).value
    ensures x < |q.core.twins| && RequestOf(Sought(q), q.core.twins[x].rtype) < |Sought(q)|
  {
    SearchFinds(q);
  }

  /** Exactly the candidates are sent. */
  lemma SentExactly(q: Quest, x: nat)
    requires Sensible(q) && Books(q.cfg, q.core) && FindRescuers(q).Found? && x < |q.core.twins|
    ensures Sum(Self(q).missing) == 0 ==> FindRescuers(q).core == q.core
    ensures Sum(Self(q).missing) != 0 ==>
              && Search(q).Some? && (x in Search(q).value ==> Assignable(q.cfg, q.core, q.e, x))
              && FindRescuers(q).core.twins[x] ==
                 if x in Search(q).value then Sent(q.cfg, q.core, q.e, x) else q.core.twins[x]
  {
    hide Books, Sensible;
    SensibleShape(q);
    if Sum(Self(q).missing) != 0 {
      SearchSendable(q);
      FillIsExact(q);
      FillTwins(q.cfg, q.core, q.e, 0, Search(q).value, x);
    }
  }

  /** The twins of a type that a step has changed. */
  ghost function Taken(c: Core, d: Core, r: nat): set<nat> {
    set i: nat | i < |c.twins| && i < |d.twins| && c.twins[i].rtype == r && d.twins[i] != c.twins[i]
  }

  /** So many of the pool, and nobody left in it would have gone before one of them. */
  ghost predicate TakesBest(cfg: Config, c: Core, d: Core, e: nat, r: nat, count: int)
    requires e < |c.emergencies|
  {
    var pool, taken := Pool(cfg, c, e, r), Taken(c, d, r);
    && taken <= pool && |taken| == count
    && (forall i, j :: i in taken && j in pool - taken ==> GoesFirst(cfg, c, e, i, j))
  }

  lemma {:induction false} DistinctCount(s: seq<nat>)
    requires forall i, j :: 0 <= i < j < |s| ==> s[i] != s[j]
    ensures |Flagged(s)| == |s|
  {
    if s == [] {
    } else {
      var n := |s| - 1;
      DistinctCount(s[..n]);
      assert Flagged(s) == Flagged(s[..n]) + {s[n]};
    }
  }

  lemma TakenArePicks(q: Quest, k: nat)
    requires Sensible(q) && Books(q.cfg, q.core) && FindRescuers(q).Found? && Sum(Self(q).missing) != 0
    requires k < |Sought(q)|
    ensures Feasible(q, |Sought(q)|)
    ensures Taken(q.core, FindRescuers(q).core, TypeOf(q, k)) ==
            Flagged(Greedy(q, TypeOf(q, k), Missing(q, k), {}))
  {
    hide Sensible, Books, FindRescuers, Greedy, Assignable, Sent, Feasible;
    var c, d, r := q.core, FindRescuers(q).core, TypeOf(q, k);
    var picks := Greedy(q, r, Missing(q, k), {});
    FindSizes(q);
    FoundFeasible(q);
    GreedyEligible(q, r, Missing(q, k), {});
    forall x: nat ensures x in Taken(c, d, r) <==> x in Flagged(picks) {
      if x < |c.twins| {
        SentExactly(q, x);
        SentChanges(q, x);
        if c.twins[x].rtype == r {
          CandidatesOfType(q, |Sought(q)|, k, x);
        }
      }
    }
  }

  lemma FoundFeasible(q: Quest)
    requires Sensible(q) && FindRescuers(q).Found? && Sum(Self(q).missing) != 0
    ensures Feasible(q, |Sought(q)|) && Search(q) == Some(Wishlist(q, |Sought(q)|))
  {
    hide Sensible;
    SearchIsComplete(q, |Sought(q)|);
  }

  lemma SentChanges(q: Quest, x: nat)
    requires Sensible(q) && x < |q.core.twins|
    ensures Assignable(q.cfg, q.core, q.e, x) ==> Sent(q.cfg, q.core, q.e, x) != q.core.twins[x]
  {
    if Assignable(q.cfg, q.core, q.e, x) {
      SentFacts(q.cfg, q.core, q.e, x);
    }
  }

  /** For each requested type, the search sends as many as are missing, and the best. */
  lemma BestOfType(q: Quest, k: nat)
    requires Sensible(q) && Books(q.cfg, q.core) && Staffed(q.cfg, q.core) && FindRescuers(q).Found?
    requires k < |Sought(q)|
    ensures TakesBest(q.cfg, q.core, FindRescuers(q).core, q.e, TypeOf(q, k), Missing(q, k))
  {
    hide Sensible, Books, FindRescuers, Greedy, EligibleTwins, Eligible, Takeable, Precedes, GoesFirst;
    var c, d, r, n := q.core, FindRescuers(q).core, TypeOf(q, k), Missing(q, k);
    SensibleShape(q);
    PoolIsEligible(q, r);
    if Sum(Self(q).missing) == 0 {
      NobodyMissing(q);
      SentNobody(q);
      assert Taken(c, d, r) == {};
    } else {
      var picks := Greedy(q, r, n, {});
      TakenArePicks(q, k);
      GreedyIsOptimal(q, r, n, {});
      PicksDistinct(q, r, n, {});
      DistinctCount(picks);
      forall i, j | i in Taken(c, d, r) && j in Pool(q.cfg, c, q.e, r) - Taken(c, d, r)
        ensures GoesFirst(q.cfg, c, q.e, i, j)
      {
        var m :| 0 <= m < |picks| && picks[m] == i;
        assert Precedes(q, picks[m], j);
        FirstIsPrecedence(q, i, j);
      }
    }
  }

  lemma SentNobody(q: Quest)
    requires Sensible(q) && Sum(Self(q).missing) == 0
    ensures FindRescuers(q) == Found(q.core)
  {
  }

  // ---------------------------------------------------------------- a worker's search

  /** Some requested type has fewer twins that may be taken than are missing. */
  ghost predicate TooFew(cfg: Config, c: Core, e: nat)
    requires e < |c.emergencies|
  {
    var em := c.emergencies[e];
    && em.etype < |cfg.types|
    && exists k :: 0 <= k < |em.missing| && k < |Requests(cfg, em)|
                   && |Pool(cfg, c, e, Requests(cfg, em)[k].rtype)| < em.missing[k]
  }

  /** More slots are empty than rescuers are missing. */
  predicate Overruns(em: Emergency) {
    0 < Sum(em.missing) < Free(em.slots)
  }

  /** On its way to the emergency's cell for as long as its type is asked for, unless it is
      on that very cell: then on its old course. */
  ghost predicate SetsOut(cfg: Config, em: Emergency, e: nat, t: Twin, u: Twin)
    requires em.etype < |cfg.types|
  {
    && u.status == EnRoute && u.emergency == Some(e) && u.rtype == t.rtype && u.x == t.x && u.y == t.y
    && u.served == t.served
    && u.course == (if t.x == em.x && t.y == em.y then t.course else Aim(t.x, t.y, em.x, em.y))
    && u.timeLeft == (if t.x == em.x && t.y == em.y then u.timeToManage else -1)
    && exists k :: 0 <= k < |Requests(cfg, em)|
                   && Requests(cfg, em)[k].rtype == t.rtype && u.timeToManage == Requests(cfg, em)[k].time
  }

  /** What a search that finds enough leaves behind: of each requested type the best as many
      as are missing have set out, nobody else noticed, and nobody is missing any more. */
  ghost predicate Dispatched(cfg: Config, c: Core, d: Core, e: nat)
    requires e < |c.emergencies| == |d.emergencies| && |d.twins| == |c.twins|
    requires c.emergencies[e].etype < |cfg.types|
  {
    var em, after := c.emergencies[e], d.emergencies[e];
    && |after.missing| == |em.missing| == |Requests(cfg, em)|
    && (forall k :: 0 <= k < |em.missing| ==>
          TakesBest(cfg, c, d, e, Requests(cfg, em)[k].rtype, em.missing[k]) && after.missing[k] == 0)
    && (forall i :: 0 <= i < |c.twins| && d.twins[i] != c.twins[i] ==> SetsOut(cfg, em, e, c.twins[i], d.twins[i]))
  }

  lemma TooFewIsLacking(q: Quest)
    requires Sensible(q) && Staffed(q.cfg, q.core)
    ensures TooFew(q.cfg, q.core, q.e) <==> Lacking(q)
  {
    hide Sensible, EligibleTwins, Pool;
    SensibleShape(q);
    var em := Self(q);
    if TooFew(q.cfg, q.core, q.e) {
      var k :| 0 <= k < |em.missing| && k < |Requests(q.cfg, em)|
               && |Pool(q.cfg, q.core, q.e, Requests(q.cfg, em)[k].rtype)| < em.missing[k];
      PoolIsEligible(q, TypeOf(q, k));
      assert |EligibleTwins(q, TypeOf(q, k), {})| < Missing(q, k);
    }
    if Lacking(q) {
      var k :| 0 <= k < |Sought(q)| && |EligibleTwins(q, TypeOf(q, k), {})| < Missing(q, k);
      PoolIsEligible(q, TypeOf(q, k));
      assert |Pool(q.cfg, q.core, q.e, Requests(q.cfg, em)[k].rtype)| < em.missing[k];
    }
  }

  lemma SentSetsOut(q: Quest, i: nat)
    requires Sensible(q) && Assignable(q.cfg, q.core, q.e, i)
    ensures Self(q).etype < |q.cfg.types|
    ensures SetsOut(q.cfg, Self(q), q.e, q.core.twins[i], Sent(q.cfg, q.core, q.e, i))
  {
    hide Sensible, RequestOf;
    SensibleShape(q);
    var k := RequestOf(Requests(q.cfg, Self(q)), q.core.twins[i].rtype);
    assert Requests(q.cfg, Self(q))[k].rtype == q.core.twins[i].rtype;
  }

  lemma NobodyMissingAfter(q: Quest)
    requires Sensible(q) && FindRescuers(q).Found?
    ensures q.e < |FindRescuers(q).core.emergencies|
    ensures var after := FindRescuers(q).core.emergencies[q.e];
            |after.missing| == |Self(q).missing| && forall k :: 0 <= k < |after.missing| ==> after.missing[k] == 0
  {
    SensibleShape(q);
    hide Sensible;
    if Sum(Self(q).missing) == 0 {
      forall k | 0 <= k < |Self(q).missing| ensures Self(q).missing[k] == 0 {
        ZeroSum(Self(q).missing, k);
      }
    } else {
      SearchSendable(q);
      FillOwn(q.cfg, q.core, q.e, 0, Search(q).value);
    }
  }

  lemma FoundDispatches(q: Quest)
    requires Sensible(q) && Books(q.cfg, q.core) && Staffed(q.cfg, q.core) && FindRescuers(q).Found?
    ensures var d := FindRescuers(q).core;
            && |d.twins| == |q.core.twins| && |d.emergencies| == |q.core.emergencies|
            && Self(q).etype < |q.cfg.types| && Dispatched(q.cfg, q.core, d, q.e)
  {
    hide Sensible, Books, Staffed, FindRescuers, TakesBest, SetsOut, Assignable, Sent;
    SensibleShape(q);
    FindSizes(q);
    var d := FindRescuers(q).core;
    NobodyMissingAfter(q);
    forall k | 0 <= k < |Self(q).missing|
      ensures TakesBest(q.cfg, q.core, d, q.e, Requests(q.cfg, Self(q))[k].rtype, Self(q).missing[k])
    {
      BestOfType(q, k);
    }
    forall i | 0 <= i < |d.twins| && d.twins[i] != q.core.twins[i]
      ensures SetsOut(q.cfg, Self(q), q.e, q.core.twins[i], d.twins[i])
    {
      SentExactly(q, i);
      SentSetsOut(q, i);
    }
  }

  /** Choice.  In every reachable state, a worker's search fails exactly when some requested type
      has too few twins that may be taken; it runs past its candidates exactly when there are
      enough but more slots are empty than rescuers missing; and otherwise it takes of each
      type the best, as many as are missing, and its worker goes on to wait. */
  lemma SearchTakesTheBest(cfg: Config, s: State, turns: seq<Turn>, w: nat)
    requires Initial(cfg, s) && w < |Reached(cfg, s, turns).workers| && Reached(cfg, s, turns).workers[w].Searching?
    ensures
      var b, t := Reached(cfg, s, turns), Reached(cfg, s, turns + [Worker(w)]);
      var e := b.workers[w].e;
      && e < |b.core.emergencies| == |t.core.emergencies| && |t.core.twins| == |b.core.twins|
      && b.core.emergencies[e].etype < |cfg.types|
      && (if TooFew(cfg, b.core, e) then t == b.(workers := b.workers[w := TimingOut(e)])
          else if Overruns(b.core.emergencies[e]) then t == b
          else t == b.(workers := b.workers[w := Testing(e)], core := t.core) && Dispatched(cfg, b.core, t.core, e))
  {
    hide Invariant, Reached, Initial, Sound, Books, Staffed, TooFew, Dispatched, Sensible, FindRescuers, Lacking,
        Settled, Conserved, SlotsShow, AtHome;
    var b := Reached(cfg, s, turns);
    OneTurnOn(cfg, s, turns, Worker(w));
    InvariantParts(cfg, b);
    SettledWorker(cfg, b, w);
    SoundParts(cfg, b.core);
    SoundIsSensible(cfg, b.core, b.workers[w].e);
    var q := Quest(cfg, b.core, b.workers[w].e);
    SensibleShape(q);
    TooFewIsLacking(q);
    SearchOutcome(q);
    if FindRescuers(q).Found? {
      FoundDispatches(q);
    }
  }
}
