/** Emergencies are neither lost nor duplicated: each is in exactly one place. */
module Custody {
  import opened Common
  import opened Domain
  import opened Selection
  import opened Dispatcher
  import opened World
  import opened Server
  import QueueSpec

  // ---------------------------------------------------------------- counting

  lemma BagAdd(a: multiset<nat>, b: multiset<nat>, x: nat, e: nat)
    requires b == a + multiset{x}
    ensures b[e] == a[e] + if e == x then 1 else 0
  {
  }

  lemma EntriesPush(cfg: Config, c: Core, q: seq<seq<nat>>, x: nat, e: nat)
    requires |q| > 0 && x < |c.emergencies|
    ensures Entries(Filed(cfg, c, q, x), e) == Entries(q, e) + if e == x then 1 else 0
  {
    var l := LevelOf(cfg, c.emergencies[x]);
    QueueSpec.PushBag<nat>(q, x, l);
    BagAdd(multiset(QueueSpec.Order<nat>(q)), multiset(QueueSpec.Order<nat>(QueueSpec.Push<nat>(q, x, l))), x, e);
  }

  lemma EntriesExtract(q: seq<seq<nat>>, want: nat -> bool, e: nat)
    requires QueueSpec.ExtractFirst<nat>(q, want).Some?
    ensures var (x, rest) := QueueSpec.ExtractFirst<nat>(q, want).value;
            want(x) && Entries(q, e) == Entries(rest, e) + if e == x then 1 else 0
  {
    QueueSpec.ExtractBag<nat>(q, want);
    var (x, rest) := QueueSpec.ExtractFirst<nat>(q, want).value;
    BagAdd(multiset(QueueSpec.Order<nat>(rest)), multiset(QueueSpec.Order<nat>(q)), x, e);
  }

  lemma {:induction false} CarriersChange(ws: seq<Worker>, w: nat, v: Worker, e: nat)
    requires w < |ws|
    ensures Carriers(ws[w := v], e) + Here(Held(ws[w]), e) == Carriers(ws, e) + Here(Held(v), e)
  {
    var n := |ws| - 1;
    if w < n {
      CarriersChange(ws[..n], w, v, e);
      assert ws[w := v][..n] == ws[..n][w := v];
    } else {
      assert ws[w := v][..n] == ws[..n];
    }
  }

  lemma CarriedOne(ws: seq<Worker>, w: nat, e: nat)
    requires w < |ws| && Held(ws[w]) == Some(e)
    ensures Carriers(ws, e) >= 1
  {
    CarriersChange(ws, w, Ready, e);
  }

  lemma CarriedTwo(ws: seq<Worker>, v: nat, w: nat, e: nat)
    requires v < w < |ws| && Held(ws[v]) == Some(e) && Held(ws[w]) == Some(e)
    ensures Carriers(ws, e) >= 2
  {
    CarriersChange(ws, w, Ready, e);
    CarriedOne(ws[w := Ready], v, e);
  }

  lemma CopiesTwice(s: State, p: Place, r: Place, e: nat)
    requires At(s, p, e) && At(s, r, e) && p != r
    ensures Copies(s, e) >= 2
  {
    if p.AtWorker? {
      CarriedOne(s.workers, p.w, e);
    }
    if r.AtWorker? {
      CarriedOne(s.workers, r.w, e);
      if p.AtWorker? {
        if p.w < r.w {
          CarriedTwo(s.workers, p.w, r.w, e);
        } else {
          CarriedTwo(s.workers, r.w, p.w, e);
        }
      }
    }
  }

  lemma CopiesAt(s: State, p: Place, e: nat)
    requires At(s, p, e)
    ensures Copies(s, e) >= 1
  {
    if p.AtWorker? {
      CarriedOne(s.workers, p.w, e);
    }
  }

  /** An emergency that is somewhere exists, and is nowhere else. */
  lemma Exclusive(s: State, p: Place, r: Place, e: nat)
    requires Conserved(s) && At(s, p, e) && At(s, r, e)
    ensures p == r && e < |s.core.emergencies|
  {
    CopiesAt(s, p, e);
    if p != r {
      CopiesTwice(s, p, r, e);
    }
  }

  /** And one that exists is somewhere. */
  lemma Somewhere(s: State, e: nat) returns (p: Place)
    requires Conserved(s) && e < |s.core.emergencies|
    ensures At(s, p, e)
  {
    assert Copies(s, e) == 1;
    if s.receiver == Some(e) {
      p := AtReceiver;
    } else if Extracted(s.updater) == Some(e) {
      p := AtUpdater;
    } else if Entries(s.queue, e) > 0 {
      p := InQueue;
    } else if Entries(s.completed, e) > 0 {
      p := InCompleted;
    } else if Entries(s.canceled, e) > 0 {
      p := InCanceled;
    } else {
      var w := WhoCarries(s.workers, e);
      p := AtWorker(w);
    }
  }

  lemma {:induction false} WhoCarries(ws: seq<Worker>, e: nat) returns (w: nat)
    requires Carriers(ws, e) >= 1
    ensures w < |ws| && Held(ws[w]) == Some(e)
  {
    var n := |ws| - 1;
    if Held(ws[n]) == Some(e) {
      w := n;
    } else {
      w := WhoCarries(ws[..n], e);
    }
  }

  lemma TwiceCounts(q: seq<nat>, j: nat, k: nat)
    requires j < k < |q| && q[j] == q[k]
    ensures multiset(q)[q[k]] >= 2
  {
    assert q == q[..k] + [q[k]] + q[k + 1..];
    assert q[j] in q[..k];
  }

  /** The waiting queue holds no emergency twice. */
  lemma QueueDistinct(s: State)
    requires Conserved(s)
    ensures forall j, k :: 0 <= j < k < |QueueSpec.Order<nat>(s.queue)| ==>
              QueueSpec.Order<nat>(s.queue)[j] != QueueSpec.Order<nat>(s.queue)[k]
  {
    var q := QueueSpec.Order<nat>(s.queue);
    forall j, k | 0 <= j < k < |q| ensures q[j] != q[k] {
      assert Copies(s, q[k]) <= 1;
      if q[j] == q[k] {
        TwiceCounts(q, j, k);
      }
    }
  }

  /** No two workers' slots show the same emergency. */
  lemma ActiveApart(s: State)
    requires Conserved(s) && SlotsShow(s)
    ensures Apart(s.active)
  {
    forall v, w | 0 <= v < w < |s.active| && s.active[v].Some? ensures s.active[v] != s.active[w] {
      if s.active[v] == s.active[w] {
        Exclusive(s, AtWorker(v), AtWorker(w), s.active[v].value);
      }
    }
  }

  // ---------------------------------------------------------------- every step

  lemma ReceiveConserves(cfg: Config, s: State, etype: nat, x: int, y: int)
    requires Well(cfg, s) && Conserved(s)
    ensures Conserved(Receive(cfg, s, etype, x, y))
  {
    hide Sound, NewEmergency;
    var t := Receive(cfg, s, etype, x, y);
    if s.receiver.Some? {
      CopiesAt(s, AtReceiver, s.receiver.value);
    }
    forall e: nat ensures Copies(t, e) == if e < |t.core.emergencies| then 1 else 0 {
      assert Copies(s, e) == if e < |s.core.emergencies| then 1 else 0;
      if s.receiver.Some? {
        EntriesPush(cfg, s.core, s.queue, s.receiver.value, e);
      }
    }
  }

  /** A step of one worker that keeps what it holds, or files it. */
  lemma WorkerConserves(cfg: Config, s: State, t: State, w: nat)
    requires Conserved(s) && w < |s.workers|
    requires |t.workers| == |s.workers| && t.workers == s.workers[w := t.workers[w]]
    requires |t.core.emergencies| == |s.core.emergencies|
    requires t.receiver == s.receiver && t.updater == s.updater
    requires
      forall e: nat :: Here(Held(s.workers[w]), e) + Entries(s.queue, e)
                       + Entries(s.completed, e) + Entries(s.canceled, e)
                    == Here(Held(t.workers[w]), e) + Entries(t.queue, e)
                       + Entries(t.completed, e) + Entries(t.canceled, e)
    ensures Conserved(t)
  {
    forall e: nat ensures Copies(t, e) == if e < |t.core.emergencies| then 1 else 0 {
      assert Copies(s, e) == if e < |s.core.emergencies| then 1 else 0;
      CarriersChange(s.workers, w, t.workers[w], e);
    }
  }

  lemma TakeConserves(s: State, w: nat)
    requires Conserved(s) && w < |s.workers| && s.workers[w].Ready?
    ensures Conserved(Take(s, w))
  {
    var t := Take(s, w);
    if QueueSpec.Pop<nat>(s.queue).Some? {
      forall e: nat ensures Copies(t, e) == if e < |t.core.emergencies| then 1 else 0 {
        assert Copies(s, e) == if e < |s.core.emergencies| then 1 else 0;
        CarriersChange(s.workers, w, t.workers[w], e);
        EntriesExtract(s.queue, QueueSpec.Always<nat>(), e);
      }
    }
  }

  /** The worker files what it holds in the completed or in the cancelled queue. */
  lemma FilingConserves(cfg: Config, s: State, t: State, w: nat, x: nat, done: bool)
    requires Conserved(s) && w < |s.workers| && Held(s.workers[w]) == Some(x) && x < |s.core.emergencies|
    requires |s.completed| > 0 && |s.canceled| > 0
    requires t.workers == s.workers[w := Closing] && |t.core.emergencies| == |s.core.emergencies|
    requires t.receiver == s.receiver && t.updater == s.updater && t.queue == s.queue
    requires t.completed == (if done then Filed(cfg, s.core, s.completed, x) else s.completed)
    requires t.canceled == (if done then s.canceled else Filed(cfg, s.core, s.canceled, x))
    ensures Conserved(t)
  {
    forall e: nat ensures Copies(t, e) == if e < |t.core.emergencies| then 1 else 0 {
      assert Copies(s, e) == if e < |s.core.emergencies| then 1 else 0;
      CarriersChange(s.workers, w, t.workers[w], e);
      EntriesPush(cfg, s.core, if done then s.completed else s.canceled, x, e);
    }
  }

  /** Any worker's step, as long as what ends is completed. */
  lemma WorkConserves(cfg: Config, s: State, w: nat)
    requires Well(cfg, s) && Conserved(s) && w < |s.workers|
    requires s.workers[w].Ending? && s.workers[w].e < |s.core.emergencies| ==>
               s.core.emergencies[s.workers[w].e].status == Completed
    ensures Conserved(Work(cfg, s, w))
  {
    hide Sound, FindRescuers, Conserved, Sensible, Here, Filed, Look, Take;
    TableValid(cfg, s.core);
    var t := Work(cfg, s, w);
    if s.workers[w].Ready? {
      TakeConserves(s, w);
    } else if s.workers[w].Closing? {
      WorkerConserves(cfg, s, t, w);
    } else if s.workers[w].e < |s.core.emergencies| {
      var e := s.workers[w].e;
      if s.workers[w].TimingOut? {
        FilingConserves(cfg, s, t, w, e, false);
      } else if s.workers[w].Storing? {
        FilingConserves(cfg, s, t, w, e, true);
      } else if s.workers[w].Searching? {
        LookConserves(cfg, s, w, e);
      } else {
        WorkerConserves(cfg, s, t, w);
      }
    }
  }

  lemma LookConserves(cfg: Config, s: State, w: nat, e: nat)
    requires Well(cfg, s) && Conserved(s) && w < |s.workers| && s.workers[w] == Searching(e) && e < |s.core.emergencies|
    ensures Conserved(Look(cfg, s, w, e))
  {
    hide Sound, FindRescuers, Conserved, Sensible;
    SoundIsSensible(cfg, s.core, e);
    if FindRescuers(Quest(cfg, s.core, e)).Found? {
      FindSizes(Quest(cfg, s.core, e));
    }
    if !FindRescuers(Quest(cfg, s.core, e)).Overrun? {
      WorkerConserves(cfg, s, Look(cfg, s, w, e), w);
    }
  }

  /** The updater takes an emergency out of the queue. */
  lemma ExtractConserves(s: State, t: State, want: nat -> bool)
    requires Conserved(s) && Extracted(s.updater) == None && QueueSpec.ExtractFirst<nat>(s.queue, want).Some?
    requires t == s.(updater := t.updater, queue := QueueSpec.ExtractFirst<nat>(s.queue, want).value.1)
    requires Extracted(t.updater) == Some(QueueSpec.ExtractFirst<nat>(s.queue, want).value.0)
    ensures Conserved(t)
  {
    forall e: nat ensures Copies(t, e) == if e < |t.core.emergencies| then 1 else 0 {
      assert Copies(s, e) == if e < |s.core.emergencies| then 1 else 0;
      EntriesExtract(s.queue, want, e);
    }
  }

  /** And files it again, in the cancelled queue or in the waiting one. */
  lemma RefileConserves(cfg: Config, s: State, t: State, x: nat)
    requires Conserved(s) && Extracted(s.updater) == Some(x) && Extracted(t.updater) == None && x < |s.core.emergencies|
    requires |t.core.emergencies| == |s.core.emergencies| && |s.queue| > 0 && |s.canceled| > 0
    requires t.workers == s.workers && t.receiver == s.receiver && t.completed == s.completed
    requires || (t.queue == s.queue && t.canceled == Filed(cfg, s.core, s.canceled, x))
             || (t.canceled == s.canceled && t.queue == Filed(cfg, t.core, s.queue, x))
    ensures Conserved(t)
  {
    forall e: nat ensures Copies(t, e) == if e < |t.core.emergencies| then 1 else 0 {
      assert Copies(s, e) == if e < |s.core.emergencies| then 1 else 0;
      EntriesPush(cfg, s.core, s.canceled, x, e);
      EntriesPush(cfg, t.core, s.queue, x, e);
    }
  }

  /** Everything stays where it is. */
  lemma StillConserved(s: State, t: State)
    requires Conserved(s) && t.workers == s.workers && t.receiver == s.receiver
    requires Extracted(t.updater) == Extracted(s.updater)
    requires t.queue == s.queue && t.completed == s.completed && t.canceled == s.canceled
    requires |t.core.emergencies| == |s.core.emergencies|
    ensures Conserved(t)
  {
    forall e: nat ensures Copies(t, e) == if e < |t.core.emergencies| then 1 else 0 {
      assert Copies(s, e) == if e < |s.core.emergencies| then 1 else 0;
    }
  }

  lemma UpdateConserves(cfg: Config, s: State)
    requires Well(cfg, s) && Conserved(s)
    ensures Conserved(Upkeep(cfg, s))
  {
    hide Sound, Conserved, TickWorld, Copies;
    TableValid(cfg, s.core);
    var t := Upkeep(cfg, s);
    match s.updater
    case Waits => StillConserved(s, t);
    case Ages => StillConserved(s, t);
    case Expires =>
      if QueueSpec.ExtractFirst<nat>(s.queue, ExpiredIn(s.core)).None? {
        StillConserved(s, t);
      } else {
        ExtractConserves(s, t, ExpiredIn(s.core));
      }
    case Cancels(e) =>
      if e < |s.core.emergencies| {
        RefileConserves(cfg, s, t, e);
      }
    case Promotes =>
      if QueueSpec.ExtractFirst<nat>(s.queue, DueIn(s.core)).None? {
        StillConserved(s, t);
      } else {
        ExtractConserves(s, t, DueIn(s.core));
      }
    case Boosts(e) =>
      if e < |s.core.emergencies| {
        RefileConserves(cfg, s, t, e);
      }
  }
}
