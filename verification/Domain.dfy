/** The entities the server works on, as values.

  Twins and emergencies live in one store and refer to each other by index, as
  the records of include/structs.h refer to each other by pointer. */
module Domain {
  import opened Common
  import opened Bresenham
  import opened PriorityTable
  import opened Urgency

  const INVALID_TIME := -1

  /** A kind of rescuer: its speed, its base and the twins that belong to it. */
  datatype RescuerType = RescuerType(speed: int, x: int, y: int, twins: seq<nat>)

  datatype Request = Request(rtype: nat, count: nat, time: int)

  datatype EmergencyType = EmergencyType(priority: int, requests: seq<Request>)

  datatype Config = Config(
    table: seq<Rule>,
    rescuers: seq<RescuerType>,
    types: seq<EmergencyType>,
    width: int,
    height: int)

  datatype TwinStatus = Idle | EnRoute | OnScene | Returning

  /** A rescuer's digital twin.  `served` counts the updates it has spent on the
      present scene; the server itself keeps no such count. */
  datatype Twin = Twin(
    rtype: nat,
    x: int,
    y: int,
    status: TwinStatus,
    course: Course,
    emergency: Option<nat>,
    timeToManage: int,
    timeLeft: int,
    served: nat)

  datatype EmergencyStatus = Waiting | Assigned | InProgress | Paused | Completed | Canceled | TimedOut

  /** Who waits on an emergency's condition variable, and whether it has been signalled since. */
  datatype Cond = NoWaiter | Parked | Signalled

  /** What a twin contributed to an emergency it has finished with. */
  datatype Service = Service(rtype: nat, ticks: nat)

  /** An emergency.  `missing[k]` and `slots` are rescuers_missing and rescuer_twins;
      `log` records the twins that finished here, which the server does not keep. */
  datatype Emergency = Emergency(
    etype: nat,
    urgency: Urgency,
    status: EmergencyStatus,
    x: int,
    y: int,
    missing: seq<int>,
    slots: seq<Option<nat>>,
    notArrived: int,
    notDone: int,
    paused: nat,
    cond: Cond,
    log: map<nat, Service>)

  datatype Core = Core(twins: seq<Twin>, emergencies: seq<Emergency>)

  predicate InMap(cfg: Config, x: int, y: int) {
    0 <= x < cfg.width && 0 <= y < cfg.height
  }

  function Required(requests: seq<Request>): nat {
    if requests == [] then 0 else Required(requests[..|requests| - 1]) + requests[|requests| - 1].count
  }

  function Sum(s: seq<int>): int {
    if s == [] then 0 else Sum(s[..|s| - 1]) + s[|s| - 1]
  }

  /** get_rescuer_request_by_name: the request for a rescuer type, or |requests| when there is none. */
  function RequestOf(requests: seq<Request>, rtype: nat): (k: nat)
    ensures k <= |requests|
    ensures k < |requests| ==> requests[k].rtype == rtype
    ensures forall j :: 0 <= j < k ==> requests[j].rtype != rtype
  {
    if requests == [] then 0
    else
      var k := RequestOf(requests[..|requests| - 1], rtype);
      if k < |requests| - 1 || requests[|requests| - 1].rtype == rtype then k else |requests|
  }

  predicate OnDuty(t: Twin) {
    t.status == EnRoute || t.status == OnScene
  }

  /** What the configuration files promise once parsed. */
  ghost predicate ValidConfig(cfg: Config) {
    && ValidTable(cfg.table)
    && (forall r :: 0 <= r < |cfg.rescuers| ==>
          cfg.rescuers[r].speed >= 1 && InMap(cfg, cfg.rescuers[r].x, cfg.rescuers[r].y))
    && (forall y :: 0 <= y < |cfg.types| ==> ValidRequests(cfg, cfg.types[y].requests))
  }

  ghost predicate ValidRequests(cfg: Config, requests: seq<Request>) {
    && (forall j, k :: 0 <= j < k < |requests| ==> requests[j].rtype != requests[k].rtype)
    && (forall k :: 0 <= k < |requests| ==> requests[k].time >= 1 && requests[k].rtype < |cfg.rescuers|)
  }

  function Requests(cfg: Config, e: Emergency): seq<Request>
    requires e.etype < |cfg.types|
  {
    cfg.types[e.etype].requests
  }

  /** The twin's rescuer type is one the emergency asked for. */
  predicate Wanted(cfg: Config, e: Emergency, rtype: nat) {
    e.etype < |cfg.types| && RequestOf(Requests(cfg, e), rtype) < |Requests(cfg, e)|
  }

  predicate ShapeTwin(cfg: Config, c: Core, t: Twin) {
    && t.rtype < |cfg.rescuers|
    && (!OnDuty(t) ==> t.emergency == None)
    && (OnDuty(t) ==> t.emergency.Some? && t.emergency.value < |c.emergencies|
                      && Wanted(cfg, c.emergencies[t.emergency.value], t.rtype))
  }

  predicate ShapeEmergency(cfg: Config, e: Emergency) {
    && e.etype < |cfg.types|
    && |e.missing| == |Requests(cfg, e)|
    && (forall k :: 0 <= k < |e.missing| ==> e.missing[k] >= 0)
  }

  /** Each rescuer type lists its twins in the order they were created. */
  ghost predicate Rostered(cfg: Config, c: Core) {
    && (forall r, j :: 0 <= r < |cfg.rescuers| && 0 <= j < |cfg.rescuers[r].twins| ==>
          cfg.rescuers[r].twins[j] < |c.twins| && c.twins[cfg.rescuers[r].twins[j]].rtype == r)
    && (forall r, j, k :: 0 <= r < |cfg.rescuers| && 0 <= j < k < |cfg.rescuers[r].twins| ==>
          cfg.rescuers[r].twins[j] < cfg.rescuers[r].twins[k])
  }

  /** No dangling reference: what the code follows without asking. */
  ghost predicate Shape(cfg: Config, c: Core) {
    && (forall i :: 0 <= i < |c.twins| ==> ShapeTwin(cfg, c, c.twins[i]))
    && (forall e :: 0 <= e < |c.emergencies| ==> ShapeEmergency(cfg, c.emergencies[e]))
  }

  function LevelOf(cfg: Config, e: Emergency): nat {
    Level(cfg.table, e.urgency.priority)
  }

  /** cnd_signal wakes the waiter, if there is one, and is lost otherwise. */
  function Signal(cond: Cond): Cond {
    if cond == Parked then Signalled else cond
  }

  /** The position of a twin in the slots, or |slots| (get_twin_index_by_id). */
  function SlotOf(slots: seq<Option<nat>>, i: nat): (j: nat)
    ensures j <= |slots|
    ensures j < |slots| ==> slots[j] == Some(i)
    ensures forall m :: 0 <= m < j ==> slots[m] != Some(i)
  {
    if slots == [] then 0
    else
      var j := SlotOf(slots[..|slots| - 1], i);
      if j < |slots| - 1 || slots[|slots| - 1] == Some(i) then j else |slots|
  }

  /** remove_twin_from_its_emergency */
  function Without(slots: seq<Option<nat>>, i: nat): (r: seq<Option<nat>>)
    ensures |r| == |slots|
  {
    var j := SlotOf(slots, i);
    if j < |slots| then slots[j := None] else slots
  }

  // ---------------------------------------------------------------- a twin on its own

  /** change_rescuer_digital_twin_destination: a twin already on the cell keeps its course. */
  function Redirect(t: Twin, x: int, y: int): Twin {
    if t.x == x && t.y == y then t
    else t.(timeLeft := INVALID_TIME, course := Aim(t.x, t.y, x, y))
  }

  /** send_rescuer_digital_twin_to_scene */
  function SendToScene(t: Twin, e: nat, x: int, y: int, time: int): Twin {
    if OnDuty(t) && t.emergency == Some(e) then t
    else Redirect(t.(status := EnRoute, emergency := Some(e), timeToManage := time, timeLeft := time), x, y)
  }

  /** send_rescuer_digital_twin_back_to_base */
  function SendBack(r: RescuerType, t: Twin): Twin {
    if t.status == Idle || t.status == Returning then t
    else Redirect(t.(status := Returning, timeToManage := INVALID_TIME, timeLeft := INVALID_TIME), r.x, r.y)
  }

  /** The walking half of a twin's update. */
  function Advance(r: RescuerType, t: Twin): Twin
  {
    var s := Step(t.course, t.x, t.y, r.speed);
    var moved := t.(x := t.x + s.xStep, y := t.y + s.yStep, course := t.course.(err := s.err));
    if !s.arrived then moved
    else match t.status
      case EnRoute => moved.(status := OnScene, timeLeft := t.timeToManage, served := 0)
      case Returning => moved.(status := Idle)
      case _ => moved
  }

  /** The twin's own part of update_rescuer_digital_twin_state. */
  function TickAlone(r: RescuerType, t: Twin): Twin
  {
    match t.status
    case Idle => t
    case OnScene =>
      var u := t.(timeLeft := t.timeLeft - 1, served := t.served + 1);
      if u.timeLeft > 0 then u else Advance(r, SendBack(r, u).(emergency := None))
    case _ => Advance(r, t)
  }

  predicate Arrives(t: Twin, u: Twin) {
    t.status == EnRoute && u.status == OnScene
  }

  predicate Finishes(t: Twin, u: Twin) {
    t.status == OnScene && u.status != OnScene
  }
}
