/** Who sleeps on the waiting queue, and why nobody oversleeps
  (src/priority_queue.c:77-157, src/server/thread_functions/thread_worker.c:54-56).

  A worker that finds the queue empty sleeps on its condition variable.  Every push
  signals one sleeper, if there is one; the program does not say which.  A woken worker
  looks at the queue again before it takes anything, so another worker, or the updater's
  passes, may have been there first. */
module QueueHandshake {

  /** What a worker does next with the queue: look at it, sleep until signalled, or look
      again having been woken. */
  datatype Spot = Looks | Sleeps | Roused

  datatype Handshake = Handshake(size: nat, workers: seq<Spot>)

  /** A push names the sleeper its signal wakes; a worker's turn may also be a wakeup
      without a signal; an extraction is the updater's. */
  datatype Turn = Push(woken: nat) | Worker(w: nat) | Extract

  predicate Asleep(h: Handshake, w: nat) {
    w < |h.workers| && h.workers[w] == Sleeps
  }

  /** A push wakes a sleeper, unless nobody sleeps. */
  ghost predicate CanAct(h: Handshake, t: Turn) {
    match t
    case Push(woken) => Asleep(h, woken) || forall w: nat :: !Asleep(h, w)
    case Worker(w) => w < |h.workers|
    case Extract => h.size > 0
  }

  function Act(h: Handshake, t: Turn): Handshake
    requires CanAct(h, t)
  {
    match t
    case Push(woken) =>
      Handshake(h.size + 1, if Asleep(h, woken) then h.workers[woken := Roused] else h.workers)
    case Worker(w) =>
      if h.workers[w] == Sleeps then h.(workers := h.workers[w := Roused])
      else if h.size == 0 then h.(workers := h.workers[w := Sleeps])
      else Handshake(h.size - 1, h.workers[w := Looks])
    case Extract => h.(size := h.size - 1)
  }

  /** A run from an empty queue with n workers: the states after each turn. */
  ghost predicate Run(n: nat, turns: seq<Turn>, states: seq<Handshake>) {
    && |states| == |turns| + 1
    && states[0] == Handshake(0, seq(n, _ => Looks))
    && forall k :: 0 <= k < |turns| ==> CanAct(states[k], turns[k]) && states[k + 1] == Act(states[k], turns[k])
  }

  function Count(ws: seq<Spot>, spot: Spot): nat {
    if ws == [] then 0 else Count(ws[..|ws| - 1], spot) + if ws[|ws| - 1] == spot then 1 else 0
  }

  lemma {:induction false} CountChange(ws: seq<Spot>, w: nat, v: Spot, spot: Spot)
    requires w < |ws|
    ensures Count(ws[w := v], spot) == Count(ws, spot) + (if v == spot then 1 else 0) - if ws[w] == spot then 1 else 0
  {
    var n := |ws| - 1;
    if w == n {
      assert ws[w := v][..n] == ws[..n];
    } else {
      CountChange(ws[..n], w, v, spot);
      assert ws[w := v][..n] == ws[..n][w := v];
    }
  }

  /** While anyone sleeps, every item in the queue has a woken worker on its way to it. */
  ghost predicate NobodyOversleeps(h: Handshake) {
    forall w: nat :: Asleep(h, w) ==> h.size <= Count(h.workers, Roused)
  }

  lemma ActKeeps(h: Handshake, t: Turn)
    requires CanAct(h, t) && NobodyOversleeps(h)
    ensures NobodyOversleeps(Act(h, t))
  {
    var d := Act(h, t);
    forall w: nat | Asleep(d, w) ensures d.size <= Count(d.workers, Roused) {
      match t
      case Push(woken) =>
        if Asleep(h, woken) {
          CountChange(h.workers, woken, Roused, Roused);
        } else {
          assert Asleep(h, w);
        }
      case Worker(v) =>
        CountChange(h.workers, v, d.workers[v], Roused);
        if w != v {
          assert Asleep(h, w);
        }
      case Extract => assert Asleep(h, w);
    }
  }

  /** No worker oversleeps.  In every state of every run, as long as some worker sleeps on
      the queue, at least as many workers are awake and on their way as there are items. */
  lemma NoWorkerOversleeps(n: nat, turns: seq<Turn>, states: seq<Handshake>, k: nat, w: nat)
    requires Run(n, turns, states) && k < |states| && Asleep(states[k], w)
    ensures states[k].size <= Count(states[k].workers, Roused)
  {
    Always(n, turns, states, k);
  }

  lemma {:induction false} Always(n: nat, turns: seq<Turn>, states: seq<Handshake>, k: nat)
    requires Run(n, turns, states) && k < |states|
    ensures NobodyOversleeps(states[k])
  {
    if k == 0 {
    } else {
      Always(n, turns, states, k - 1);
      ActKeeps(states[k - 1], turns[k - 1]);
    }
  }

  // ---------------------------------------------------------------- every item is taken once

  /** A worker that is awake looks at the queue, and there is something in it. */
  predicate Served(h: Handshake, t: Turn) {
    t.Worker? && t.w < |h.workers| && h.workers[t.w] != Sleeps && h.size > 0
  }

  function Pushes(turns: seq<Turn>): nat {
    if turns == [] then 0 else Pushes(turns[..|turns| - 1]) + if turns[|turns| - 1].Push? then 1 else 0
  }

  function Extracts(turns: seq<Turn>): nat {
    if turns == [] then 0 else Extracts(turns[..|turns| - 1]) + if turns[|turns| - 1].Extract? then 1 else 0
  }

  /** How often, in the first k turns, a worker that was awake found something. */
  function Takes(turns: seq<Turn>, states: seq<Handshake>, k: nat): nat
    requires k <= |turns| < |states|
  {
    if k == 0 then 0 else Takes(turns, states, k - 1) + if Served(states[k - 1], turns[k - 1]) then 1 else 0
  }

  /** What a worker's turn does to the worker: asleep it is woken, awake it goes to sleep
      exactly when there is nothing to take. */
  predicate Rises(h: Handshake, d: Handshake, w: nat)
    requires w < |h.workers|
  {
    d.workers == h.workers[w := if h.workers[w] == Sleeps then Roused else if h.size == 0 then Sleeps else Looks]
  }

  /** Nothing is lost or taken twice.  In every state of every run, what was pushed is in the
      queue, or was taken by the updater, or by a worker that was awake when it looked; and no
      worker that is awake leaves an item there and goes to sleep. */
  lemma {:induction false} EveryItemOnce(n: nat, turns: seq<Turn>, states: seq<Handshake>, k: nat)
    requires Run(n, turns, states) && k <= |turns|
    ensures states[k].size + Takes(turns, states, k) + Extracts(turns[..k]) == Pushes(turns[..k])
    ensures |states[k].workers| == n
    ensures k > 0 && turns[k - 1].Worker? ==>
              turns[k - 1].w < |states[k - 1].workers| && Rises(states[k - 1], states[k], turns[k - 1].w)
  {
    if k == 0 {
    } else {
      EveryItemOnce(n, turns, states, k - 1);
      assert turns[..k][..k - 1] == turns[..k - 1];
      assert CanAct(states[k - 1], turns[k - 1]);
    }
  }
}
