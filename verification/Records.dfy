/** The server's records as objects: a digital twin and an emergency, changed in place, each
  proved to show the value the rest of the model computes with
  (include/structs.h:80-139, src/server/server_helpers.c:55-74,
  src/core/utils/structs.c:29-44). */
module Records {
  import opened Common
  import opened Bresenham
  import opened PriorityTable
  import opened Timers = Urgency
  import opened Domain
  import opened Dispatcher
  import opened World

  // ---------------------------------------------------------------- a digital twin

  class DigitalTwin {
    const id: nat
    const rtype: nat
    const trajectory: Trajectory
    var x: int
    var y: int
    var status: TwinStatus
    var emergency: Option<nat>
    var timeToManage: int
    var timeLeft: int
    var isACandidate: bool
    ghost var served: nat

    /** The twin as a value; being a candidate is between searches nobody's business. */
    ghost function View(): Twin
      reads this, trajectory
    {
      Twin(rtype, x, y, status, trajectory.View(), emergency, timeToManage, timeLeft, served)
    }

    /** mallocate_rescuer_digital_twin: idle on its base. */
    constructor (id: nat, rtype: nat, r: RescuerType)
      ensures fresh(trajectory) && !isACandidate && this.id == id
      ensures View() == Twin(rtype, r.x, r.y, Idle, Aim(r.x, r.y, r.x, r.y), None, INVALID_TIME, INVALID_TIME, 0)
    {
      this.id, this.rtype := id, rtype;
      x, y, status, emergency := r.x, r.y, Idle, None;
      timeToManage, timeLeft, isACandidate, served := INVALID_TIME, INVALID_TIME, false, 0;
      trajectory := new Trajectory(r.x, r.y);
    }

    /** change_rescuer_digital_twin_destination */
    method ChangeDestination(newX: int, newY: int)
      modifies this`timeLeft, trajectory
      ensures View() == Redirect(old(View()), newX, newY)
    {
      if x == newX && y == newY {
        return;
      }
      timeLeft := INVALID_TIME;
      trajectory.Change(x, y, newX, newY);
    }

    /** send_rescuer_digital_twin_to_scene */
    method SendToScene(e: nat, sceneX: int, sceneY: int, time: int)
      modifies this, trajectory
      ensures View() == Domain.SendToScene(old(View()), e, sceneX, sceneY, time)
      ensures old(OnDuty(View()) && emergency == Some(e)) ==> View() == old(View())
      ensures status == old(status) || status == EnRoute
      ensures isACandidate == old(isACandidate)
    {
      if (status == OnScene || status == EnRoute) && emergency == Some(e) {
        return;
      }
      status := EnRoute;
      emergency := Some(e);
      timeToManage := time;
      timeLeft := time;
      ChangeDestination(sceneX, sceneY);
    }

    /** send_rescuer_digital_twin_back_to_base */
    method SendBack(r: RescuerType)
      modifies this, trajectory
      ensures View() == Domain.SendBack(r, old(View()))
      ensures old(status == Idle || status == Returning) ==> View() == old(View())
      ensures isACandidate == old(isACandidate)
    {
      if status == Idle || status == Returning {
        return;
      }
      status := Returning;
      timeToManage := INVALID_TIME;
      timeLeft := INVALID_TIME;
      ChangeDestination(r.x, r.y);
    }

    /** On scene, an update of the service time; true while there is time left. */
    method Serve() returns (stays: bool)
      modifies this
      ensures View() == old(View()).(timeLeft := old(timeLeft) - 1, served := old(served) + 1)
      ensures isACandidate == old(isACandidate) && (stays <==> timeLeft > 0)
    {
      timeLeft := timeLeft - 1;
      served := served + 1;
      return timeLeft > 0;
    }

    /** Leaving for the base, with nothing more to contribute to the emergency. */
    method GoHome(r: RescuerType)
      modifies this, trajectory
      ensures View() == Domain.SendBack(r, old(View())).(emergency := None)
      ensures isACandidate == old(isACandidate)
    {
      SendBack(r);
      emergency := None;
    }

    /** The second half of update_rescuer_digital_twin_state: walk, and note an arrival. */
    method Walk(r: RescuerType) returns (arrived: bool)
      requires trajectory.dx >= 0 && trajectory.dy >= 0
      modifies this, trajectory
      ensures View() == Advance(r, old(View()))
      ensures isACandidate == old(isACandidate)
      ensures arrived <==> Step(old(View()).course, old(x), old(y), r.speed).arrived
    {
      var xStep, yStep;
      arrived, xStep, yStep := trajectory.ComputeStep(x, y, r.speed);
      x := x + xStep;
      y := y + yStep;
      if arrived {
        match status {
          case EnRoute =>
            timeLeft := timeToManage;
            status := OnScene;
            served := 0;
          case Returning =>
            status := Idle;
          case _ =>
        }
      }
    }
  }

  // ---------------------------------------------------------------- an emergency

  class EmergencyRecord {
    const id: nat
    const etype: nat
    const x: int
    const y: int
    const rescuersMissing: array<int>
    const rescuerTwins: array<Option<nat>>
    var priority: int
    var promotionTimer: int
    var timeoutTimer: int
    var timesPromoted: nat
    var timesPaused: nat
    var status: EmergencyStatus
    var notArrived: int
    var notDone: int
    var cond: Cond
    ghost var log: map<nat, Service>

    ghost function View(): Emergency
      reads this, rescuersMissing, rescuerTwins
    {
      Emergency(etype, Timers.Urgency(priority, promotionTimer, timeoutTimer, timesPromoted), status, x, y,
                rescuersMissing[..], rescuerTwins[..], notArrived, notDone, timesPaused, cond, log)
    }

    /** mallocate_emergency */
    constructor (cfg: Config, id: nat, etype: nat, x: int, y: int)
      requires ValidTable(cfg.table) && etype < |cfg.types|
      ensures fresh(rescuersMissing) && fresh(rescuerTwins) && this.id == id
      ensures View() == NewEmergency(cfg, etype, x, y)
      ensures this.etype == etype && this.x == x && this.y == y && status == Waiting
      ensures priority == cfg.types[etype].priority && TimersOf(cfg.table, priority, promotionTimer, timeoutTimer)
    {
      var t := cfg.types[etype];
      var count := CountRescuers(t.requests);
      var level := GetPriorityLevel(t.priority, cfg.table);
      LevelIsRow(cfg.table, t.priority);
      this.id, this.etype, this.x, this.y := id, etype, x, y;
      priority, status, notArrived, notDone := t.priority, Waiting, count, count;
      timeoutTimer, promotionTimer := cfg.table[level].timeout, cfg.table[level].promotion;
      timesPromoted, timesPaused, cond, log := 0, 0, NoWaiter, map[];
      var requests := t.requests;
      rescuersMissing := new int[|requests|](k requires 0 <= k < |requests| => requests[k].count);
      rescuerTwins := new Option<nat>[count](_ => None);
      new;
      RowTimers(cfg.table, priority, level);
      assert rescuersMissing[..] == Counts(requests);
      assert rescuerTwins[..] == seq(count, _ => None);
    }

    /** get_twin_index_by_id */
    method TwinIndex(i: nat) returns (j: nat)
      ensures j == SlotOf(rescuerTwins[..], i)
    {
      j := 0;
      while j < rescuerTwins.Length && rescuerTwins[j] != Some(i)
        invariant j <= rescuerTwins.Length
        invariant forall m :: 0 <= m < j ==> rescuerTwins[m] != Some(i)
      {
        j := j + 1;
      }
      SlotOfIs(rescuerTwins[..], i, j);
    }

    /** remove_twin_from_its_emergency */
    method RemoveTwin(i: nat)
      modifies rescuerTwins
      ensures rescuerTwins[..] == Without(old(rescuerTwins[..]), i)
    {
      var j := TwinIndex(i);
      if j < rescuerTwins.Length {
        rescuerTwins[j] := None;
      }
    }

    /** cnd_signal on the emergency's condition variable */
    method WakeWorker()
      modifies this`cond
      ensures cond == Signal(old(cond))
    {
      if cond == Parked {
        cond := Signalled;
      }
    }

    /** The part of preempt_if_needed that concerns the emergency that is robbed. */
    method Rob(requests: seq<Request>, i: nat, rtype: nat, wasOnScene: bool)
      requires |requests| == rescuersMissing.Length && RequestOf(requests, rtype) < |requests|
      modifies this, rescuersMissing, rescuerTwins
      ensures View() == Bereft(requests, old(View()), rtype, wasOnScene, i)
    {
      hide RequestOf, Without;
      var k := RequestIndex(requests, rtype);
      rescuersMissing[k] := rescuersMissing[k] + 1;
      if wasOnScene {
        notArrived := notArrived + 1;
      }
      RemoveTwin(i);
      if status != Paused {
        timesPaused := timesPaused + 1;
        status := Paused;
        WakeWorker();
      }
    }

    /** What update_rescuer_digital_twin_state does to the emergency when a twin has finished. */
    method Release(i: nat, ghost t: Twin)
      modifies this, rescuerTwins
      ensures View() == Released(old(View()), t, i)
    {
      notDone := notDone - 1;
      RemoveTwin(i);
      log := log[i := Service(t.rtype, t.served + 1)];
    }

    /** And when one has arrived. */
    method Reach()
      modifies this`notArrived
      ensures View() == old(View()).(notArrived := old(notArrived) - 1)
    {
      notArrived := notArrived - 1;
    }

    /** promote_emergency */
    method PromoteNow(table: seq<Rule>)
      requires ValidTable(table)
      modifies this`priority, this`promotionTimer, this`timeoutTimer, this`timesPromoted
      ensures View() == old(View()).(urgency := Promote(table, old(View()).urgency))
      ensures IsNext(table, old(priority), priority) && TimersOf(table, priority, promotionTimer, timeoutTimer)
      ensures timesPromoted == old(timesPromoted) + 1
    {
      var level := GetPriorityLevel(priority, table);
      LevelIsRow(table, priority);
      if level != |table| - 1 {
        priority := table[level + 1].number;
      }
      level := GetPriorityLevel(priority, table);
      LevelIsRow(table, priority);
      timeoutTimer := table[level].timeout;
      promotionTimer := table[level].promotion;
      timesPromoted := timesPromoted + 1;
      RowTimers(table, priority, level);
      NextIsNext(table, old(priority));
    }

    /** update_active_emergency_state */
    method TickActive(cfg: Config)
      requires ValidTable(cfg.table)
      modifies this
      ensures View() == TickEmergency(cfg, old(View()))
    {
      if promotionTimer != NO_PROMOTION {
        if promotionTimer <= 0 {
          PromoteNow(cfg.table);
        } else {
          promotionTimer := promotionTimer - 1;
        }
      } else if status == Paused {
        timeoutTimer := timeoutTimer - 1;
      } else if notDone <= 0 {
        status := Completed;
        WakeWorker();
      } else if notArrived <= 0 && status == Assigned {
        status := InProgress;
      }
    }

    /** update_waiting_emergency_state */
    method AgeWaiting()
      modifies this`promotionTimer, this`timeoutTimer
      ensures View() == old(View()).(urgency := Age(old(View()).urgency))
    {
      if promotionTimer != NO_PROMOTION {
        promotionTimer := promotionTimer - 1;
      }
      if timeoutTimer != NO_TIMEOUT {
        timeoutTimer := timeoutTimer - 1;
      }
    }
  }

  /** The loop that adds up the rescuers an emergency type asks for. */
  method CountRescuers(requests: seq<Request>) returns (count: nat)
    ensures count == Required(requests)
  {
    count := 0;
    for k := 0 to |requests|
      invariant count == Required(requests[..k])
    {
      assert requests[..k + 1][..k] == requests[..k];
      count := count + requests[k].count;
    }
    assert requests[..|requests|] == requests;
  }

  /** get_rescuer_request_by_name */
  method RequestIndex(requests: seq<Request>, rtype: nat) returns (k: nat)
    ensures k == RequestOf(requests, rtype)
  {
    k := 0;
    while k < |requests| && requests[k].rtype != rtype
      invariant k <= |requests|
      invariant forall j :: 0 <= j < k ==> requests[j].rtype != rtype
    {
      k := k + 1;
    }
    RequestOfIs(requests, rtype, k);
  }

  /** The scan's stopping place is the first match, or the end. */
  lemma {:induction false} RequestOfIs(requests: seq<Request>, rtype: nat, k: nat)
    requires k <= |requests| && (k < |requests| ==> requests[k].rtype == rtype)
    requires forall j :: 0 <= j < k ==> requests[j].rtype != rtype
    ensures RequestOf(requests, rtype) == k
  {
    if k < |requests| {
      if k < |requests| - 1 {
        RequestOfIs(requests[..|requests| - 1], rtype, k);
      } else {
        RequestOfIs(requests[..|requests| - 1], rtype, |requests| - 1);
      }
    } else if requests != [] {
      RequestOfIs(requests[..|requests| - 1], rtype, |requests| - 1);
    }
  }

  lemma {:induction false} SlotOfIs(slots: seq<Option<nat>>, i: nat, k: nat)
    requires k <= |slots| && (k < |slots| ==> slots[k] == Some(i))
    requires forall j :: 0 <= j < k ==> slots[j] != Some(i)
    ensures SlotOf(slots, i) == k
  {
    if k < |slots| {
      if k < |slots| - 1 {
        SlotOfIs(slots[..|slots| - 1], i, k);
      } else {
        SlotOfIs(slots[..|slots| - 1], i, |slots| - 1);
      }
    } else if slots != [] {
      SlotOfIs(slots[..|slots| - 1], i, |slots| - 1);
    }
  }
}
