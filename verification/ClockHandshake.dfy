/** The handshake between the clock thread and the updater
  (src/server/thread_functions/thread_clock.c:5-47, thread_updater.c:13-24). */
module ClockHandshake {

  /** What the updater does next: look at the tick flag, sleep until the broadcast, look
      again after being woken, or update the server. */
  datatype Spot = Checks | Parked | Roused | Updates

  /** `seen` is the tick count when the updater last cleared the flag, `updates` counts
      finished updates; the server keeps neither. */
  datatype Handshake = Handshake(tick: bool, ticks: nat, seen: nat, updates: nat, spot: Spot)

  const START := Handshake(false, 0, 0, 0, Checks)

  // ---------------------------------------------------------------- the shared fields

  /** The fields of the server's clock that the two threads share under its mutex. */
  class Clock {
    var tick: bool
    var tickCountSinceStart: nat

    constructor ()
      ensures !tick && tickCountSinceStart == 0
    {
      tick, tickCountSinceStart := false, 0;
    }

    ghost predicate Shows(h: Handshake)
      reads this
    {
      tick == h.tick && tickCountSinceStart == h.ticks
    }

    /** tick: what the clock thread does in its critical section, before the broadcast. */
    method Tick(ghost h: Handshake)
      requires Shows(h)
      modifies this
      ensures Shows(Ticked(h))
    {
      tick := true;
      tickCountSinceStart := tickCountSinceStart + 1;
    }

    /** The updater's look at the flag: clear it if it is set. */
    method Untick(ghost h: Handshake) returns (goOn: bool)
      requires Shows(h) && (h.spot == Checks || h.spot == Roused)
      modifies this
      ensures Shows(Proceed(h)) && (goOn <==> Proceed(h).spot == Updates)
    {
      goOn := tick;
      if goOn {
        tick := false;
      }
    }
  }

  // ---------------------------------------------------------------- the two threads

  /** The clock thread: set the flag, count the tick, wake the updater. */
  function Ticked(h: Handshake): Handshake {
    h.(tick := true, ticks := h.ticks + 1, spot := if h.spot == Parked then Roused else h.spot)
  }

  /** The updater; a wakeup may come without a broadcast. */
  function Proceed(h: Handshake): Handshake {
    match h.spot
    case Updates => h.(updates := h.updates + 1, spot := Checks)
    case Parked => h.(spot := Roused)
    case _ => if h.tick then h.(tick := false, seen := h.ticks, spot := Updates) else h.(spot := Parked)
  }

  datatype Thread = Timer | Updater

  function Turn(h: Handshake, t: Thread): Handshake {
    if t == Timer then Ticked(h) else Proceed(h)
  }

  function After(h: Handshake, turns: seq<Thread>): Handshake {
    if turns == [] then h else Turn(After(h, turns[..|turns| - 1]), turns[|turns| - 1])
  }

  // ---------------------------------------------------------------- what holds in every run

  /** The flag is set exactly when a tick has not been seen; a parked updater has missed
      none; and every update, finished or under way, took a tick of its own. */
  predicate InStep(h: Handshake) {
    && h.seen <= h.ticks
    && (h.tick <==> h.seen < h.ticks)
    && (h.spot == Parked ==> !h.tick)
    && h.updates + (if h.spot == Updates then 1 else 0) <= h.seen
  }

  lemma {:induction false} AlwaysInStep(turns: seq<Thread>)
    ensures InStep(After(START, turns))
  {
    if turns == [] {
    } else {
      AlwaysInStep(turns[..|turns| - 1]);
    }
  }

  /** No lost wakeup, and never more updates than ticks. */
  lemma NoTickMissed(turns: seq<Thread>)
    ensures var h := After(START, turns);
            && (h.spot == Parked ==> !h.tick && h.seen == h.ticks)
            && h.updates <= h.ticks
  {
    AlwaysInStep(turns);
  }

  function Looks(turns: seq<Thread>): nat {
    if turns == [] then 0 else Looks(turns[..|turns| - 1]) + if turns[|turns| - 1] == Updater then 1 else 0
  }

  /** How many steps the updater is from seeing a pending tick. */
  function ToGo(h: Handshake): nat {
    if h.spot == Updates then 2 else 1
  }

  lemma {:induction false} AfterAppend(h: Handshake, a: seq<Thread>, b: seq<Thread>)
    ensures After(h, a + b) == After(After(h, a), b)
  {
    if b == [] {
      assert a + b == a;
    } else {
      assert (a + b)[..|a + b| - 1] == a + b[..|b| - 1];
      AfterAppend(h, a, b[..|b| - 1]);
    }
  }

  lemma {:induction false} SeenOrSooner(h: Handshake, turns: seq<Thread>)
    requires InStep(h)
    ensures var d := After(h, turns);
            InStep(d) && d.ticks >= h.ticks && (d.seen >= h.ticks || ToGo(d) + Looks(turns) <= ToGo(h))
  {
    if turns == [] {
    } else {
      SeenOrSooner(h, turns[..|turns| - 1]);
    }
  }

  /** How many of its own steps the updater is from finishing an update. */
  function ToFinish(h: Handshake): nat {
    if h.spot == Updates then 1 else 2
  }

  lemma {:induction false} FinishedOrSooner(h: Handshake, turns: seq<Thread>)
    requires InStep(h) && h.tick
    ensures var d := After(h, turns);
            && InStep(d) && d.updates >= h.updates
            && (d.updates > h.updates || ((d.tick || d.spot == Updates) && ToFinish(d) + Looks(turns) <= ToFinish(h)))
  {
    if turns == [] {
    } else {
      FinishedOrSooner(h, turns[..|turns| - 1]);
    }
  }

  /** Every tick is seen: once the updater has taken two more steps, however many ticks
      come in between, it has started an update after it; and if the tick was still to be
      seen, it has finished an update since. */
  lemma EveryTickIsSeen(before: seq<Thread>, turns: seq<Thread>)
    requires Looks(turns) >= 2
    ensures After(START, before + turns).seen >= After(START, before).ticks
    ensures After(START, before).tick ==> After(START, before + turns).updates > After(START, before).updates
  {
    AlwaysInStep(before);
    AfterAppend(START, before, turns);
    SeenOrSooner(After(START, before), turns);
    if After(START, before).tick {
      FinishedOrSooner(After(START, before), turns);
    }
  }
}
