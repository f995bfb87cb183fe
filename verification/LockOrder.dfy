/** Why the server's threads cannot block each other for good on their mutexes.

  A thread spends its life in critical sections that begin and end with no mutex held
  (src/server/server_helpers.c:5-43, thread_worker.c:5-35, 57-74 and 201-260,
  thread_updater.c:14-23, 27-36 and 168-206, thread_clock.c:5-20, src/priority_queue.c:69-168).
  A section is the list of its operations on mutexes.  Which section a thread enters
  next is left open, so every order in which the program can enter them is covered. */
module LockOrder {
  import opened Common

  datatype Mutex = Rescuers | Active | WaitingQueue | CompletedQueue | CanceledQueue | Clock

  /** Await releases the mutex and sleeps on a condition until woken, then takes the mutex
      again; it is skipped when there is nothing to wait for. */
  datatype Op = Acquire(m: Mutex) | Release(m: Mutex) | Await(m: Mutex)

  type Section = seq<Op>

  datatype Role = Worker | Updater | Receiver | Timer

  function Queueing(m: Mutex): Section {
    [Acquire(m), Release(m)]
  }

  const POP: Section := [Acquire(WaitingQueue), Await(WaitingQueue), Release(WaitingQueue)]
  const SLOT: Section := [Acquire(Active), Release(Active)]
  const SYSTEM: Section := [Acquire(Rescuers), Acquire(Active), Release(Active), Release(Rescuers)]
  const REST: Section := [Acquire(Active), Await(Active), Release(Active)]
  const COMPLETE: Section := [Acquire(Active), Acquire(CompletedQueue), Release(CompletedQueue), Release(Active)]
  const CANCEL: Section := [Acquire(Active), Acquire(CanceledQueue), Release(CanceledQueue), Release(Active)]
  const NEXT_TICK: Section := [Acquire(Clock), Await(Clock), Release(Clock)]
  const TICK: Section := [Acquire(Clock), Release(Clock)]

  function Sections(role: Role): set<Section> {
    match role
    case Worker => {POP, SLOT, SYSTEM, REST, COMPLETE, CANCEL}
    case Updater => {NEXT_TICK, SYSTEM, Queueing(WaitingQueue), Queueing(CanceledQueue)}
    case Receiver => {Queueing(WaitingQueue)}
    case Timer => {TICK}
  }

  /** Where a thread is: before operation `at` of a section, asleep in an Await, or woken
      from it and wanting its mutex back. */
  datatype Spot = Outside | Inside(s: Section, at: nat) | Asleep(s: Section, at: nat) | Waking(s: Section, at: nat)

  datatype Thread = Thread(role: Role, spot: Spot)

  function HeldAfter(s: Section, n: nat): set<Mutex>
    requires n <= |s|
  {
    if n == 0 then {}
    else match s[n - 1]
      case Acquire(m) => HeldAfter(s, n - 1) + {m}
      case Release(m) => HeldAfter(s, n - 1) - {m}
      case Await(_) => HeldAfter(s, n - 1)
  }

  predicate Proper(t: Thread) {
    match t.spot
    case Outside => true
    case Inside(s, at) => s in Sections(t.role) && at <= |s|
    case Asleep(s, at) => s in Sections(t.role) && at < |s| && s[at].Await?
    case Waking(s, at) => s in Sections(t.role) && at < |s| && s[at].Await?
  }

  function Holds(t: Thread): set<Mutex>
    requires Proper(t)
  {
    match t.spot
    case Outside => {}
    case Inside(s, at) => HeldAfter(s, at)
    case Asleep(s, at) => HeldAfter(s, at) - {s[at].m}
    case Waking(s, at) => HeldAfter(s, at) - {s[at].m}
  }

  /** The mutex the thread's next step has to take. */
  function Wants(t: Thread): Option<Mutex>
    requires Proper(t)
  {
    match t.spot
    case Inside(s, at) => if at < |s| && s[at].Acquire? then Some(s[at].m) else None
    case Waking(s, at) => Some(s[at].m)
    case _ => None
  }

  // ---------------------------------------------------------------- the order

  /** The order in which mutexes are taken; the clock's is never taken together with another. */
  function Rank(m: Mutex): nat {
    match m
    case Rescuers => 0
    case Active => 1
    case _ => 2
  }

  /** A thread wants only a mutex above all it holds, and sleeps holding none. */
  lemma TakesInOrder(t: Thread)
    requires Proper(t)
    ensures Wants(t).Some? ==> forall m :: m in Holds(t) ==> Rank(m) < Rank(Wants(t).value)
    ensures t.spot.Asleep? || t.spot.Waking? ==> Holds(t) == {}
    ensures t.spot.Inside? && t.spot.at == |t.spot.s| ==> Holds(t) == {}
  {
    match t.spot
    case Outside =>
    case Inside(s, at) => SectionOrdered(t.role, s, at);
    case Asleep(s, at) => SectionOrdered(t.role, s, at);
    case Waking(s, at) => SectionOrdered(t.role, s, at);
  }

  lemma SectionOrdered(role: Role, s: Section, at: nat)
    requires s in Sections(role) && at <= |s|
    ensures at < |s| && s[at].Acquire? ==> forall m :: m in HeldAfter(s, at) ==> Rank(m) < Rank(s[at].m)
    ensures at < |s| && s[at].Await? ==> HeldAfter(s, at) == {s[at].m}
    ensures at < |s| && s[at].Release? ==> s[at].m in HeldAfter(s, at)
    ensures at == |s| ==> HeldAfter(s, at) == {}
  {
    assert HeldAfter(s, 0) == {};
    if |s| >= 1 { assert HeldAfter(s, 1) == {s[0].m}; }
    if |s| == 4 {
      assert HeldAfter(s, 2) == {s[0].m, s[1].m};
      assert HeldAfter(s, 3) == {s[0].m};
    }
  }

  // ---------------------------------------------------------------- the machine

  /** Thread a waits for a mutex that thread b has. */
  predicate Blocks(a: Thread, b: Thread)
    requires Proper(a) && Proper(b)
  {
    Wants(a).Some? && Wants(a).value in Holds(b)
  }

  predicate Free(ts: seq<Thread>, m: Mutex)
    requires forall i :: 0 <= i < |ts| ==> Proper(ts[i])
  {
    forall i :: 0 <= i < |ts| ==> m !in Holds(ts[i])
  }

  predicate AllProper(ts: seq<Thread>) {
    forall i :: 0 <= i < |ts| ==> Proper(ts[i])
  }

  /** What thread i can do next. */
  predicate Steps(ts: seq<Thread>, i: nat, spot: Spot)
    requires AllProper(ts) && i < |ts|
  {
    match ts[i].spot
    case Outside => spot.Inside? && spot.s in Sections(ts[i].role) && spot.at == 0
    case Inside(s, at) =>
      if at == |s| then spot == Outside
      else (match s[at]
            case Acquire(m) => Free(ts, m) && spot == Inside(s, at + 1)
            case Release(_) => spot == Inside(s, at + 1)
            case Await(_) => spot == Inside(s, at + 1) || spot == Asleep(s, at))
    case Asleep(s, at) => spot == Waking(s, at)
    case Waking(s, at) => Free(ts, s[at].m) && spot == Inside(s, at)
  }

  ghost predicate Next(ts: seq<Thread>, us: seq<Thread>) {
    && AllProper(ts)
    && exists i: nat, spot: Spot :: i < |ts| && Steps(ts, i, spot) && us == ts[i := ts[i].(spot := spot)]
  }

  ghost predicate Run(states: seq<seq<Thread>>) {
    && states != []
    && (forall i :: 0 <= i < |states[0]| ==> states[0][i].spot == Outside)
    && (forall k :: 0 <= k < |states| - 1 ==> Next(states[k], states[k + 1]))
  }

  /** No mutex has two holders. */
  ghost predicate Exclusive(ts: seq<Thread>) {
    && AllProper(ts)
    && forall i, j :: 0 <= i < j < |ts| ==> Holds(ts[i]) !! Holds(ts[j])
  }

  /** A step gives a thread at most one more mutex, and a free one. */
  lemma StepHolds(ts: seq<Thread>, i: nat, spot: Spot)
    requires AllProper(ts) && i < |ts| && Steps(ts, i, spot)
    ensures Proper(ts[i].(spot := spot))
    ensures forall m :: m in Holds(ts[i].(spot := spot)) ==> m in Holds(ts[i]) || Free(ts, m)
  {
    TakesInOrder(ts[i]);
  }

  lemma NextKeepsExclusive(ts: seq<Thread>, us: seq<Thread>)
    requires Exclusive(ts) && Next(ts, us)
    ensures Exclusive(us)
  {
    var i: nat, spot: Spot :| i < |ts| && Steps(ts, i, spot) && us == ts[i := ts[i].(spot := spot)];
    StepHolds(ts, i, spot);
    forall a, b | 0 <= a < b < |us| ensures Holds(us[a]) !! Holds(us[b]) {
      if a == i {
        Apart(ts, i, spot, b);
      } else if b == i {
        Apart(ts, i, spot, a);
      }
    }
  }

  lemma Apart(ts: seq<Thread>, i: nat, spot: Spot, b: nat)
    requires Exclusive(ts) && i < |ts| && Steps(ts, i, spot) && b < |ts| && b != i
    ensures Proper(ts[i].(spot := spot)) && Holds(ts[i].(spot := spot)) !! Holds(ts[b])
  {
    StepHolds(ts, i, spot);
    assert Holds(ts[i]) !! Holds(ts[b]);
  }

  lemma {:induction false} RunIsExclusive(states: seq<seq<Thread>>, k: nat)
    requires Run(states) && k < |states|
    ensures Exclusive(states[k])
  {
    if k == 0 {
    } else {
      RunIsExclusive(states, k - 1);
      NextKeepsExclusive(states[k - 1], states[k]);
    }
  }

  // ---------------------------------------------------------------- what the mutexes protect

  /** Who has to wait for a further mutex, and what it holds meanwhile: a worker that files
      an emergency, or any thread about to touch the active emergencies inside a search or an
      update, does so under the lock the section opened with. */
  lemma WantsUnder(t: Thread)
    requires Proper(t) && t.spot.Inside? && Wants(t).Some?
    ensures t.role == Worker && (Wants(t).value == CompletedQueue || Wants(t).value == CanceledQueue) ==>
              Holds(t) == {Active}
    ensures t.spot.at > 0 && Wants(t).value == Active ==> Holds(t) == {Rescuers}
    ensures Wants(t).value == Rescuers || Wants(t).value == WaitingQueue || Wants(t).value == Clock ==> Holds(t) == {}
  {
    var s, at := t.spot.s, t.spot.at;
    SectionOrdered(t.role, s, at);
    assert HeldAfter(s, 0) == {};
    if at >= 1 {
      assert HeldAfter(s, 1) == {s[0].m};
    }
  }

  /** A thread alone with its section gets through it: from before operation `at` there are
      steps to the end, whether or not it sleeps on the way. */
  lemma {:induction false} RunsThrough(role: Role, s: Section, at: nat, sleeps: bool) returns (spots: seq<Spot>)
    requires s in Sections(role) && at <= |s|
    ensures spots != [] && spots[0] == Inside(s, at) && spots[|spots| - 1] == Outside
    ensures forall k :: 0 <= k < |spots| ==> Proper(Thread(role, spots[k]))
    ensures forall k :: 0 <= k < |spots| - 1 ==> Steps([Thread(role, spots[k])], 0, spots[k + 1])
    ensures sleeps ==> forall n :: at <= n < |s| && s[n].Await? ==> Asleep(s, n) in spots
    decreases |s| - at
  {
    if at == |s| {
      spots := [Inside(s, at), Outside];
    } else {
      var rest := RunsThrough(role, s, at + 1, sleeps);
      var t := Thread(role, Inside(s, at));
      SectionOrdered(role, s, at);
      if s[at].Await? && sleeps {
        spots := [Inside(s, at), Asleep(s, at), Waking(s, at)] + [Inside(s, at)] + rest;
        assert spots[3..] == [Inside(s, at)] + rest;
      } else {
        spots := [Inside(s, at)] + rest;
      }
    }
  }

  // ---------------------------------------------------------------- no cycle, and progress

  lemma {:induction false} RanksClimb(ts: seq<Thread>, walk: seq<nat>, k: nat)
    requires AllProper(ts) && k + 1 < |walk|
    requires forall j :: 0 <= j < |walk| ==> walk[j] < |ts|
    requires forall j :: 0 <= j < |walk| - 1 ==> Blocks(ts[walk[j]], ts[walk[j + 1]])
    requires Wants(ts[walk[k + 1]]).Some?
    ensures Wants(ts[walk[0]]).Some? && Rank(Wants(ts[walk[0]]).value) < Rank(Wants(ts[walk[k + 1]]).value)
  {
    assert Blocks(ts[walk[k]], ts[walk[k + 1]]);
    TakesInOrder(ts[walk[k + 1]]);
    if k == 0 {
    } else {
      RanksClimb(ts, walk, k - 1);
    }
  }

  /** No state of any run has a cycle of threads each waiting for a mutex the next one has. */
  lemma NoWaitCycle(states: seq<seq<Thread>>, n: nat, walk: seq<nat>)
    requires Run(states) && n < |states| && |walk| >= 2 && walk[0] == walk[|walk| - 1]
    requires forall j :: 0 <= j < |walk| ==> walk[j] < |states[n]|
    ensures Exclusive(states[n])
    ensures exists j :: 0 <= j < |walk| - 1 && !Blocks(states[n][walk[j]], states[n][walk[j + 1]])
  {
    RunIsExclusive(states, n);
    if forall j :: 0 <= j < |walk| - 1 ==> Blocks(states[n][walk[j]], states[n][walk[j + 1]]) {
      assert Blocks(states[n][walk[0]], states[n][walk[1]]);
      RanksClimb(states[n], walk, |walk| - 2);
    }
  }

  /** The thread holds a mutex and can take its next step at once. */
  ghost predicate Runnable(ts: seq<Thread>, i: nat)
    requires AllProper(ts) && i < |ts|
  {
    Holds(ts[i]) != {} && exists spot :: Steps(ts, i, spot)
  }

  /** Whenever a thread has to wait for a mutex, some thread that holds one can move. */
  lemma {:induction false} SomeHolderMoves(ts: seq<Thread>, a: nat, b: nat) returns (h: nat)
    requires Exclusive(ts) && a < |ts| && b < |ts| && Blocks(ts[a], ts[b])
    ensures h < |ts| && Runnable(ts, h)
    decreases 3 - Rank(Wants(ts[a]).value)
  {
    TakesInOrder(ts[b]);
    if Wants(ts[b]).Some? && !Free(ts, Wants(ts[b]).value) {
      var c :| 0 <= c < |ts| && Wants(ts[b]).value in Holds(ts[c]);
      h := SomeHolderMoves(ts, b, c);
    } else {
      h := b;
      HolderMoves(ts, b);
    }
  }

  lemma HolderMoves(ts: seq<Thread>, b: nat)
    requires AllProper(ts) && b < |ts| && Holds(ts[b]) != {}
    requires Wants(ts[b]).Some? ==> Free(ts, Wants(ts[b]).value)
    ensures Runnable(ts, b)
  {
    TakesInOrder(ts[b]);
    assert ts[b].spot.Inside? && ts[b].spot.at < |ts[b].spot.s|;
    assert Steps(ts, b, Inside(ts[b].spot.s, ts[b].spot.at + 1));
  }

  /** Deadlock freedom: in every state of every run, if a thread waits for a mutex another
      one has, then a thread that holds a mutex can take a step. */
  lemma NoDeadlock(states: seq<seq<Thread>>, n: nat, a: nat, b: nat) returns (h: nat)
    requires Run(states) && n < |states| && a < |states[n]| && b < |states[n]|
    requires Proper(states[n][a]) && Proper(states[n][b]) && Blocks(states[n][a], states[n][b])
    ensures Exclusive(states[n]) && h < |states[n]| && Runnable(states[n], h)
  {
    RunIsExclusive(states, n);
    h := SomeHolderMoves(states[n], a, b);
  }
}
