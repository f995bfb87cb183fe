/** The updater's passes over the waiting queue, step by step in the state machine, are the
  extract-and-push loops whose closed forms WaitingPasses proves. */
module PassRefinement {
  import opened Common
  import opened PriorityTable
  import opened Timers = Urgency
  import opened Domain
  import opened World
  import opened Server
  import opened Custody
  import opened Protocol
  import QueueSpec
  import W = WaitingPasses

  // ---------------------------------------------------------------- the queue as the passes see it

  function Shown(c: Core, e: nat): W.Waiting {
    if e < |c.emergencies| then W.Waiting(e, c.emergencies[e].urgency, c.emergencies[e].status == TimedOut)
    else W.Waiting(e, Timers.Urgency(0, NO_PROMOTION, NO_TIMEOUT, 0), false)
  }

  function ShownAll(c: Core, s: seq<nat>): (r: seq<W.Waiting>)
    ensures |r| == |s| && forall k :: 0 <= k < |s| ==> r[k] == Shown(c, s[k])
  {
    if s == [] then [] else [Shown(c, s[0])] + ShownAll(c, s[1..])
  }

  function Queue(c: Core, q: seq<seq<nat>>): (r: QueueSpec.Levels<W.Waiting>)
    ensures |r| == |q| && forall l :: 0 <= l < |q| ==> r[l] == ShownAll(c, q[l])
  {
    seq(|q|, l requires 0 <= l < |q| => ShownAll(c, q[l]))
  }

  /** The two predicates ask the same of an emergency. */
  ghost predicate Agree(c: Core, want: nat -> bool, seen: W.Waiting -> bool) {
    forall e: nat :: want(e) == seen(Shown(c, e))
  }

  lemma {:induction false} IndexShown(c: Core, s: seq<nat>, want: nat -> bool, seen: W.Waiting -> bool)
    requires Agree(c, want, seen)
    ensures QueueSpec.IndexOf<W.Waiting>(ShownAll(c, s), seen) == QueueSpec.IndexOf<nat>(s, want)
  {
    if s == [] {
    } else {
      IndexShown(c, s[1..], want, seen);
    }
  }

  lemma {:induction false} FindShown(c: Core, q: seq<seq<nat>>, n: nat, want: nat -> bool, seen: W.Waiting -> bool)
    requires Agree(c, want, seen) && n <= |q|
    ensures QueueSpec.Find<W.Waiting>(Queue(c, q), n, seen) == QueueSpec.Find<nat>(q, n, want)
  {
    if n == 0 {
    } else {
      IndexShown(c, q[n - 1], want, seen);
      FindShown(c, q, n - 1, want, seen);
    }
  }

  lemma {:induction false} RemovedShown(c: Core, s: seq<nat>, k: nat)
    requires k < |s|
    ensures ShownAll(c, RemoveAt(s, k)) == RemoveAt(ShownAll(c, s), k)
  {
    assert |RemoveAt(s, k)| == |s| - 1;
  }

  lemma TakeShown(c: Core, q: seq<seq<nat>>, l: nat, k: nat)
    requires l < |q| && k < |q[l]|
    ensures QueueSpec.Take<W.Waiting>(Queue(c, q), QueueSpec.At(l, k)) ==
            Queue(c, QueueSpec.Take<nat>(q, QueueSpec.At(l, k)))
  {
    hide RemoveAt;
    RemovedShown(c, q[l], k);
    var p := QueueSpec.At(l, k);
    var r, rest := QueueSpec.Take<W.Waiting>(Queue(c, q), p), QueueSpec.Take<nat>(q, p);
    forall m | 0 <= m < |q| ensures r[m] == Queue(c, rest)[m] {
      assert r[m] == ShownAll(c, rest[m]);
    }
    QueueSpec.SameLevels<W.Waiting>(r, Queue(c, rest));
  }

  /** Extraction from the queue of indices shows as extraction from the queue of emergencies. */
  lemma ExtractShown(c: Core, q: seq<seq<nat>>, want: nat -> bool, seen: W.Waiting -> bool)
    requires Agree(c, want, seen)
    ensures QueueSpec.ExtractFirst<W.Waiting>(Queue(c, q), seen) ==
            match QueueSpec.ExtractFirst<nat>(q, want)
            case None => None
            case Some((e, rest)) => Some((Shown(c, e), Queue(c, rest)))
  {
    hide QueueSpec.Take, Agree, Shown;
    FindShown(c, q, |q|, want, seen);
    var p := QueueSpec.Find<nat>(q, |q|, want);
    if p.At? {
      TakeShown(c, q, p.level, p.index);
    }
  }

  lemma PushShown(cfg: Config, c: Core, q: seq<seq<nat>>, e: nat)
    requires |q| > 0 && e < |c.emergencies|
    ensures Queue(c, Filed(cfg, c, q, e)) ==
            QueueSpec.Push<W.Waiting>(Queue(c, q), Shown(c, e), W.LevelOf(cfg.table, Shown(c, e)))
  {
    var r := QueueSpec.Push<W.Waiting>(Queue(c, q), Shown(c, e), W.LevelOf(cfg.table, Shown(c, e)));
    forall l | 0 <= l < |q| ensures r[l] == Queue(c, Filed(cfg, c, q, e))[l] {
      assert r[l] == ShownAll(c, Filed(cfg, c, q, e)[l]);
    }
    QueueSpec.SameLevels<W.Waiting>(r, Queue(c, Filed(cfg, c, q, e)));
  }

  /** What happens to an emergency the queue does not hold does not show. */
  lemma Unaffected(c: Core, q: seq<seq<nat>>, x: nat, em: Emergency)
    requires x < |c.emergencies| && Entries(q, x) == 0
    ensures Queue(With(c, x, em), q) == Queue(c, q)
  {
    var d := With(c, x, em);
    forall l | 0 <= l < |q| ensures Queue(d, q)[l] == Queue(c, q)[l] {
      forall k | 0 <= k < |q[l]| ensures Shown(d, q[l][k]) == Shown(c, q[l][k]) {
        Queued(q, l, k);
      }
      assert ShownAll(d, q[l]) == ShownAll(c, q[l]);
    }
    QueueSpec.SameLevels<W.Waiting>(Queue(d, q), Queue(c, q));
  }

  // ---------------------------------------------------------------- the updater on its own

  lemma UpkeepInvariant(cfg: Config, s: State)
    requires Invariant(cfg, s)
    ensures Well(cfg, s) && ValidTable(cfg.table) && Invariant(cfg, Upkeep(cfg, s))
  {
    hide Invariant, Upkeep;
    ActKeepsInvariant(cfg, s, Updater);
    ValidFrom(cfg, s);
  }

  lemma ValidFrom(cfg: Config, s: State)
    requires Well(cfg, s)
    ensures ValidTable(cfg.table)
  {
    hide Sound;
    TableValid(cfg, s.core);
  }

  /** The updater takes n steps while no other thread moves. */
  function Alone(cfg: Config, s: State, n: nat): (t: State)
    requires Invariant(cfg, s)
    ensures Invariant(cfg, t)
    decreases n
  {
    if n == 0 then s
    else
      UpkeepInvariant(cfg, s);
      Alone(cfg, Upkeep(cfg, s), n - 1)
  }

  lemma {:induction false} AloneAdd(cfg: Config, s: State, m: nat, n: nat)
    requires Invariant(cfg, s)
    ensures Alone(cfg, s, m + n) == Alone(cfg, Alone(cfg, s, m), n)
    decreases m
  {
    hide Invariant, Upkeep;
    if m == 0 {
    } else {
      UpkeepInvariant(cfg, s);
      AloneAdd(cfg, Upkeep(cfg, s), m - 1, n);
    }
  }

  /** The waiting queue and the cancelled queue as the passes see them. */
  function View(s: State): W.Expiry {
    W.Expiry(Queue(s.core, s.queue), Queue(s.core, s.canceled))
  }

  lemma QueueAtHome(cfg: Config, s: State)
    requires Invariant(cfg, s)
    ensures W.AtHome(cfg.table, View(s).queue) && |View(s).queue| == |View(s).cancelled| == |cfg.table| > 0
  {
    hide Invariant, Sound, Conserved, ValidTable;
    InvariantParts(cfg, s);
    ValidFrom(cfg, s);
    forall l, k | 0 <= l < |s.queue| && 0 <= k < |s.queue[l]|
      ensures W.LevelOf(cfg.table, Queue(s.core, s.queue)[l][k]) == l
              && Placed(cfg.table, Queue(s.core, s.queue)[l][k].urgency)
    {
      Queued(s.queue, l, k);
      assert At(s, InQueue, s.queue[l][k]);
      assert Suits(cfg, s, InQueue, s.core.emergencies[s.queue[l][k]]);
    }
    TableNotEmpty(cfg.table);
  }

  lemma HeldNotQueued(cfg: Config, s: State, e: nat)
    requires Invariant(cfg, s) && Extracted(s.updater) == Some(e)
    ensures e < |s.core.emergencies| && Entries(s.queue, e) == 0 && Entries(s.canceled, e) == 0
  {
    hide Invariant, Sound, Settled;
    InvariantParts(cfg, s);
    assert At(s, AtUpdater, e);
    Exclusive(s, AtUpdater, AtUpdater, e);
    if Entries(s.queue, e) > 0 {
      Exclusive(s, AtUpdater, InQueue, e);
    }
    if Entries(s.canceled, e) > 0 {
      Exclusive(s, AtUpdater, InCanceled, e);
    }
  }

  lemma SameLevelFiled(cfg: Config, c: Core, d: Core, q: seq<seq<nat>>, e: nat)
    requires |q| > 0 && e < |c.emergencies| && e < |d.emergencies|
             && d.emergencies[e].urgency == c.emergencies[e].urgency
    ensures Filed(cfg, c, q, e) == Filed(cfg, d, q, e)
  {
  }

  /** Filing the expired emergency shows as pushing it, timed out, on the cancelled queue. */
  lemma CancelShown(cfg: Config, s: State, e: nat)
    requires Invariant(cfg, s) && s.updater == Cancels(e)
    ensures Well(cfg, s) && e < |s.core.emergencies| && |View(s).cancelled| > 0
    ensures var t := Upkeep(cfg, s);
            && t.updater == Expires
            && View(t) == W.Expiry(View(s).queue,
                                   QueueSpec.Push<W.Waiting>(View(s).cancelled, W.TimeOut()(Shown(s.core, e)),
                                                             W.LevelOf(cfg.table, Shown(s.core, e))))
  {
    hide Invariant, Sound, Queue, W.AtHome, ValidTable, Filed;
    UpkeepInvariant(cfg, s);
    HeldNotQueued(cfg, s, e);
    QueueAtHome(cfg, s);
    var em := s.core.emergencies[e].(status := TimedOut);
    var d := With(s.core, e, em);
    Unaffected(s.core, s.queue, e, em);
    Unaffected(s.core, s.canceled, e, em);
    SameLevelFiled(cfg, s.core, d, s.canceled, e);
    PushShown(cfg, d, s.canceled, e);
  }

  /** Filing the promoted one shows as pushing it, promoted, on the waiting queue. */
  lemma BoostShown(cfg: Config, s: State, e: nat)
    requires Invariant(cfg, s) && s.updater == Boosts(e)
    ensures Well(cfg, s) && ValidTable(cfg.table) && e < |s.core.emergencies| && |View(s).queue| > 0
    ensures var t, p := Upkeep(cfg, s), W.Promoted(cfg.table)(Shown(s.core, e));
            && t.updater == Promotes
            && View(t).queue == QueueSpec.Push<W.Waiting>(View(s).queue, p, W.LevelOf(cfg.table, p))
  {
    hide Invariant, Sound, Queue, W.AtHome, ValidTable, Filed, Promote;
    UpkeepInvariant(cfg, s);
    HeldNotQueued(cfg, s, e);
    QueueAtHome(cfg, s);
    var em := s.core.emergencies[e].(urgency := Promote(cfg.table, s.core.emergencies[e].urgency));
    Unaffected(s.core, s.queue, e, em);
    PushShown(cfg, With(s.core, e, em), s.queue, e);
  }

  lemma ExpiredAgree(c: Core)
    ensures Agree(c, ExpiredIn(c), W.HasExpired())
  {
  }

  lemma DueAgree(c: Core)
    ensures Agree(c, DueIn(c), W.IsDue())
  {
  }

  /** A look for an expired emergency, and what is done with it, are a turn of the expiry loop. */
  lemma ExpireTurn(cfg: Config, s: State)
    requires Invariant(cfg, s) && s.updater == Expires
    ensures Well(cfg, s) && |View(s).cancelled| > 0
    ensures match W.ExpireOne(cfg.table, View(s))
            case None => Upkeep(cfg, s) == s.(updater := Promotes)
            case Some(v) => Alone(cfg, s, 2).updater == Expires && View(Alone(cfg, s, 2)) == v
  {
    hide Invariant, Sound, Queue, W.AtHome, ValidTable, QueueSpec.ExtractFirst, Agree, Filed, W.TimeOut;
    UpkeepInvariant(cfg, s);
    QueueAtHome(cfg, s);
    ExpiredAgree(s.core);
    ExtractShown(s.core, s.queue, ExpiredIn(s.core), W.HasExpired());
    if QueueSpec.ExtractFirst<nat>(s.queue, ExpiredIn(s.core)).Some? {
      var (e, rest) := QueueSpec.ExtractFirst<nat>(s.queue, ExpiredIn(s.core)).value;
      CancelShown(cfg, Upkeep(cfg, s), e);
      assert Alone(cfg, s, 2) == Upkeep(cfg, Upkeep(cfg, s));
    }
  }

  lemma PromoteTurn(cfg: Config, s: State)
    requires Invariant(cfg, s) && s.updater == Promotes
    ensures Well(cfg, s) && ValidTable(cfg.table)
    ensures match W.PromoteOne(cfg.table, View(s).queue)
            case None => Upkeep(cfg, s) == s.(updater := Waits)
            case Some(q) => Alone(cfg, s, 2).updater == Promotes && View(Alone(cfg, s, 2)).queue == q
  {
    hide Invariant, Sound, Queue, W.AtHome, ValidTable, QueueSpec.ExtractFirst, Agree, Filed, W.Promoted;
    UpkeepInvariant(cfg, s);
    QueueAtHome(cfg, s);
    DueAgree(s.core);
    ExtractShown(s.core, s.queue, DueIn(s.core), W.IsDue());
    if QueueSpec.ExtractFirst<nat>(s.queue, DueIn(s.core)).Some? {
      var (e, rest) := QueueSpec.ExtractFirst<nat>(s.queue, DueIn(s.core)).value;
      BoostShown(cfg, Upkeep(cfg, s), e);
      assert Alone(cfg, s, 2) == Upkeep(cfg, Upkeep(cfg, s));
    }
  }

  /** The expiry pass, undisturbed, ends, and leaves the two queues in their closed forms. */
  lemma {:induction false} ExpiryPass(cfg: Config, s: State) returns (n: nat)
    requires Invariant(cfg, s) && s.updater == Expires
    ensures |View(s).queue| == |View(s).cancelled|
    ensures var t := Alone(cfg, s, n);
            && t.updater == Promotes
            && View(t).queue == W.Kept(View(s).queue)
            && View(t).cancelled == W.Cancelled(View(s).queue, View(s).cancelled)
    decreases W.Matches(View(s).queue, W.HasExpired())
  {
    hide Invariant, Sound, Upkeep, W.ExpireOne, W.Kept, W.Cancelled, W.AtHome, W.Matches, View;
    QueueAtHome(cfg, s);
    UpkeepInvariant(cfg, s);
    ExpireTurn(cfg, s);
    W.ExpireOneKeeps(cfg.table, View(s));
    W.ExpireOneCounts(cfg.table, View(s));
    if W.ExpireOne(cfg.table, View(s)).None? {
      n := 1;
      SameView(s, Promotes);
    } else {
      var m := ExpiryPass(cfg, Alone(cfg, s, 2));
      n := 2 + m;
      AloneAdd(cfg, s, 2, m);
    }
  }

  lemma SameView(s: State, u: Phase)
    ensures View(s.(updater := u)) == View(s)
  {
  }

  /** So does the promotion pass. */
  lemma {:induction false} PromotionPass(cfg: Config, s: State) returns (n: nat)
    requires Invariant(cfg, s) && s.updater == Promotes
    ensures ValidTable(cfg.table)
    ensures var t := Alone(cfg, s, n);
            t.updater == Waits && View(t).queue == W.AfterPromotion(cfg.table, View(s).queue)
    decreases W.Matches(View(s).queue, W.IsDue())
  {
    hide Invariant, Sound, Upkeep, W.PromoteOne, W.AfterPromotion, W.AtHome, W.Matches, View, ValidTable;
    QueueAtHome(cfg, s);
    UpkeepInvariant(cfg, s);
    PromoteTurn(cfg, s);
    W.PromoteOneKeeps(cfg.table, View(s).queue);
    if W.PromoteOne(cfg.table, View(s).queue).None? {
      n := 1;
      SameView(s, Waits);
    } else {
      W.PromoteOneCounts(cfg.table, View(s).queue);
      var m := PromotionPass(cfg, Alone(cfg, s, 2));
      n := 2 + m;
      AloneAdd(cfg, s, 2, m);
    }
  }
}
