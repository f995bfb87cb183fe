/** Where a twin is: the position invariant, and how long a sortie takes. */
module Sortie {
  import opened Common
  import opened Bresenham
  import opened Domain

  predicate AtTarget(t: Twin) {
    t.x == t.course.xt && t.y == t.course.yt
  }

  function Left(t: Twin): nat {
    Manhattan(t.x, t.y, t.course.xt, t.course.yt)
  }

  predicate Homeward(r: RescuerType, t: Twin) {
    t.course.xt == r.x && t.course.yt == r.y
  }

  /** Twin and target are inside the map; an idle twin stands on its base, a returning one
      heads there, one on scene stands on its target, and a twin off its target follows
      the line to it with the exact saved error. */
  predicate Positioned(cfg: Config, r: RescuerType, t: Twin) {
    && InMap(cfg, t.x, t.y) && InMap(cfg, t.course.xt, t.course.yt)
    && t.course.dx >= 0 && t.course.dy >= 0
    && (!AtTarget(t) ==> OnCourse(t.course, Cell(t.x, t.y, t.course.err))
                         && NearLine(t.course, Cell(t.x, t.y, t.course.err)))
    && (t.status == Idle ==> AtTarget(t) && Homeward(r, t))
    && (t.status == Returning ==> Homeward(r, t))
    && (t.status == OnScene ==> AtTarget(t))
  }

  predicate ValidRescuer(cfg: Config, r: RescuerType) {
    r.speed >= 1 && InMap(cfg, r.x, r.y)
  }

  predicate Underway(t: Twin) {
    t.status == EnRoute || t.status == Returning
  }

  // ---------------------------------------------------------------- one update

  /** A walking update brings the twin exactly `speed` cells closer, or onto its target. */
  lemma AdvanceExact(cfg: Config, r: RescuerType, t: Twin)
    requires ValidRescuer(cfg, r) && Positioned(cfg, r, t) && Underway(t)
    ensures var u := Advance(r, t);
            && Positioned(cfg, r, u)
            && u.course == t.course.(err := u.course.err)
            && (Left(t) <= r.speed ==> AtTarget(u) && u.status == if t.status == EnRoute then OnScene else Idle)
            && (Left(t) > r.speed ==> u.status == t.status && Left(u) == Left(t) - r.speed)
  {
    hide OnCourse, NearLine, UnitMoves, Descends, WalkEnd;
    var c := t.course;
    if AtTarget(t) {
      assert Manhattan(t.x, t.y, c.xt, c.yt) == 0;
    } else {
      StepExact(c, t.x, t.y, r.speed);
      var u := Advance(r, t);
      if Left(t) > r.speed {
        SameCourse(c, u.course, Cell(u.x, u.y, u.course.err));
      }
    }
  }

  /** Only the saved error distinguishes a course from the one it was laid as. */
  lemma SameCourse(c: Course, d: Course, w: Cell)
    requires d == c.(err := d.err)
    ensures OnCourse(c, w) == OnCourse(d, w) && NearLine(c, w) == NearLine(d, w)
  {
  }

  lemma RedirectKeeps(cfg: Config, r: RescuerType, t: Twin, x: int, y: int)
    requires InMap(cfg, t.x, t.y) && InMap(cfg, x, y)
    requires t.x == x && t.y == y ==> Positioned(cfg, r, t)
    requires t.status == EnRoute || (t.status == Returning && x == r.x && y == r.y)
    ensures Positioned(cfg, r, Redirect(t, x, y))
  {
    AimOnCourse(t.x, t.y, x, y);
  }

  /** A twin sent home or to a scene keeps the position invariant. */
  lemma SendKeeps(cfg: Config, r: RescuerType, t: Twin, e: nat, x: int, y: int, time: int)
    requires Positioned(cfg, r, t) && InMap(cfg, x, y)
    ensures Positioned(cfg, r, SendToScene(t, e, x, y, time))
  {
    if !(OnDuty(t) && t.emergency == Some(e)) {
      RedirectKeeps(cfg, r, t.(status := EnRoute, emergency := Some(e), timeToManage := time, timeLeft := time), x, y);
    }
  }

  lemma SendBackKeeps(cfg: Config, r: RescuerType, t: Twin)
    requires ValidRescuer(cfg, r) && Positioned(cfg, r, t) && t.status == OnScene
    ensures var u := SendBack(r, t);
            && Positioned(cfg, r, u) && u.status == Returning && u.rtype == t.rtype
            && u.x == t.x && u.y == t.y && Left(u) == Manhattan(t.x, t.y, r.x, r.y)
  {
    RedirectKeeps(cfg, r, t.(status := Returning, timeToManage := INVALID_TIME, timeLeft := INVALID_TIME), r.x, r.y);
  }

  /** The off-map error of update_rescuer_digital_twin_state is never reached. */
  lemma TickKeepsPosition(cfg: Config, r: RescuerType, t: Twin)
    requires ValidRescuer(cfg, r) && Positioned(cfg, r, t)
    ensures Positioned(cfg, r, TickAlone(r, t))
  {
    hide OnCourse, NearLine, Step, Aim;
    match t.status
    case Idle =>
    case OnScene =>
      var u := t.(timeLeft := t.timeLeft - 1, served := t.served + 1);
      if u.timeLeft <= 0 {
        SendBackKeeps(cfg, r, u);
        AdvanceExact(cfg, r, SendBack(r, u).(emergency := None));
      }
    case _ => AdvanceExact(cfg, r, t);
  }

  // ---------------------------------------------------------------- a whole sortie

  /** The updates needed to walk s cells at speed v; arriving takes one even from the target itself. */
  function Arrival(s: nat, v: nat): nat
    requires v >= 1
  {
    if s <= v then 1 else 1 + Arrival(s - v, v)
  }

  /** That is max(1, ceil(s / v)). */
  lemma {:induction false} ArrivalIsCeiling(s: nat, v: nat)
    requires v >= 1
    ensures Arrival(s, v) == if s == 0 then 1 else (s + v - 1) / v
    decreases s
  {
    if s > v {
      ArrivalIsCeiling(s - v, v);
      DivideLess(s - 1, v);
    } else if s > 0 {
      DivideOnce(s + v - 1, v);
    }
  }

  lemma DivideLess(a: nat, v: nat)
    requires v >= 1
    ensures (a + v) / v == a / v + 1
  {
    var q := a / v;
    assert q * v <= a < q * v + v;
    assert (q + 1) * v == q * v + v;
    Quotient(a + v, v, q + 1);
  }

  lemma Quotient(x: nat, v: nat, q: nat)
    requires v >= 1 && q * v <= x < q * v + v
    ensures x / v == q
  {
    var p := x / v;
    assert p * v <= x < p * v + v;
    if p > q {
      MoreRows(q, p, v);
    } else if p < q {
      MoreRows(p, q, v);
    }
  }

  lemma MoreRows(a: nat, b: nat, v: nat)
    requires a < b
    ensures a * v + v <= b * v
  {
    var d := b - a - 1;
    assert b * v == a * v + v + d * v;
    assert d * v >= 0;
  }

  lemma DivideOnce(a: nat, v: nat)
    requires v <= a < 2 * v
    ensures a / v == 1
  {
  }

  /** The search's estimate floor(s / v) is right or one update short. */
  lemma {:induction false} EstimateOffByOne(s: nat, v: nat)
    requires v >= 1
    ensures s / v <= Arrival(s, v) <= s / v + 1
    ensures Arrival(s, v) == s / v <==> s > 0 && s % v == 0
    decreases s
  {
    if s > v {
      EstimateOffByOne(s - v, v);
      DivideLess(s - v, v);
      ModLess(s - v, v);
    } else if s == v {
      DivideOnce(s, v);
      ModLess(0, v);
    } else {
      DivideSmall(s, v);
    }
  }

  lemma ModLess(a: nat, v: nat)
    requires v >= 1
    ensures (a + v) % v == a % v
  {
    DivideLess(a, v);
    assert a == a / v * v + a % v && a + v == (a + v) / v * v + (a + v) % v;
    assert (a / v + 1) * v == a / v * v + v;
  }

  lemma DivideSmall(s: nat, v: nat)
    requires s < v
    ensures s / v == 0 && s % v == s
  {
  }

  function Ticks(r: RescuerType, t: Twin, n: nat): Twin
    decreases n
  {
    if n == 0 then t else Ticks(r, TickAlone(r, t), n - 1)
  }

  lemma {:induction false} TicksAdd(r: RescuerType, t: Twin, m: nat, n: nat)
    ensures Ticks(r, t, m + n) == Ticks(r, Ticks(r, t, m), n)
    decreases m
  {
    if m == 0 {
    } else {
      TicksAdd(r, TickAlone(r, t), m - 1, n);
    }
  }

  /** What a walk does not touch: the target, the emergency, and the time the scene will take. */
  predicate SameTrip(t: Twin, u: Twin) {
    && u.course.xt == t.course.xt && u.course.yt == t.course.yt
    && u.emergency == t.emergency && u.timeToManage == t.timeToManage && u.rtype == t.rtype
  }

  /** Travel: still underway before update Arrival(s, v), on the target at that update. */
  lemma {:induction false} TravelTime(cfg: Config, r: RescuerType, t: Twin, n: nat)
    requires ValidRescuer(cfg, r) && Positioned(cfg, r, t) && Underway(t)
    requires n <= Arrival(Left(t), r.speed)
    ensures var u := Ticks(r, t, n);
            && Positioned(cfg, r, u) && SameTrip(t, u)
            && (n < Arrival(Left(t), r.speed) ==> u.status == t.status)
            && (n == Arrival(Left(t), r.speed) ==>
                  AtTarget(u) && u.status == (if t.status == EnRoute then OnScene else Idle)
                  && (u.status == OnScene ==> u.timeLeft == t.timeToManage && u.served == 0))
    decreases n
  {
    if n == 0 {
    } else {
      var u := TickAlone(r, t);
      AdvanceExact(cfg, r, t);
      if Left(t) > r.speed {
        TravelTime(cfg, r, u, n - 1);
      }
    }
  }

  /** On scene: the twin stays put until its time is up. */
  lemma {:induction false} SceneTime(r: RescuerType, t: Twin, n: nat)
    requires t.status == OnScene && n < t.timeLeft
    ensures Ticks(r, t, n) == t.(timeLeft := t.timeLeft - n, served := t.served + n)
    decreases n
  {
    if n == 0 {
    } else {
      SceneTime(r, TickAlone(r, t), n - 1);
    }
  }

  /** Leaving: the update that ends the service also walks the first step home. */
  lemma {:induction false} ReturnTime(cfg: Config, r: RescuerType, t: Twin, n: nat)
    requires ValidRescuer(cfg, r) && Positioned(cfg, r, t) && t.status == OnScene && t.timeLeft == 1
    requires 1 <= n <= Arrival(Manhattan(t.x, t.y, r.x, r.y), r.speed)
    ensures var u := Ticks(r, t, n);
            && Positioned(cfg, r, u) && u.emergency == None
            && u.status == if n == Arrival(Manhattan(t.x, t.y, r.x, r.y), r.speed) then Idle else Returning
  {
    var u := t.(timeLeft := 0, served := t.served + 1);
    var v := SendBack(r, u).(emergency := None);
    SendBackKeeps(cfg, r, u);
    TravelTime(cfg, r, v, n);
    assert TickAlone(r, t) == Advance(r, v) == TickAlone(r, v);
  }

  /** The exact length of a sortie that is not re-routed.  A twin sent s cells away for m
      updates is on scene from update A = Arrival(s) to A+m, and idle on its base
      from update A + m + Arrival(s') - 1, s' being the distance from scene to base. */
  lemma SortieLength(cfg: Config, r: RescuerType, t: Twin, n: nat)
    requires ValidRescuer(cfg, r) && Positioned(cfg, r, t)
    requires t.status == EnRoute && t.timeToManage >= 1
    ensures var a := Arrival(Left(t), r.speed);
            var b := a + t.timeToManage;
            var home := b + Arrival(Manhattan(t.course.xt, t.course.yt, r.x, r.y), r.speed) - 1;
            var u := Ticks(r, t, n);
            && Positioned(cfg, r, u)
            && (u.status == EnRoute <==> n < a)
            && (u.status == OnScene <==> a <= n < b)
            && (u.status == Returning <==> b <= n < home)
            && (u.status == Idle <==> home <= n)
            && (a <= n < b ==> u.x == t.course.xt && u.y == t.course.yt && u.served == n - a)
            && (home <= n ==> u.x == r.x && u.y == r.y)
  {
    var a := Arrival(Left(t), r.speed);
    var b := a + t.timeToManage;
    if n <= a {
      TravelTime(cfg, r, t, n);
    } else {
      TravelTime(cfg, r, t, a);
      TicksAdd(r, t, a, n - a);
      AfterArrival(cfg, r, Ticks(r, t, a), n - a);
    }
  }

  /** The second half of a sortie, from the update of arrival on. */
  lemma AfterArrival(cfg: Config, r: RescuerType, t: Twin, n: nat)
    requires ValidRescuer(cfg, r) && Positioned(cfg, r, t)
    requires t.status == OnScene && t.timeLeft >= 1 && t.served == 0 && n > 0
    ensures var home := t.timeLeft + Arrival(Manhattan(t.x, t.y, r.x, r.y), r.speed) - 1;
            var u := Ticks(r, t, n);
            && Positioned(cfg, r, u)
            && u.status == (if n < t.timeLeft then OnScene else if n < home then Returning else Idle)
            && (n < t.timeLeft ==> u.x == t.x && u.y == t.y && u.served == n)
  {
    var m := t.timeLeft - 1;
    if n <= m {
      SceneTime(r, t, n);
    } else {
      SceneTime(r, t, m);
      TicksAdd(r, t, m, n - m);
      HomeTime(cfg, r, Ticks(r, t, m), n - m);
    }
  }

  lemma HomeTime(cfg: Config, r: RescuerType, t: Twin, n: nat)
    requires ValidRescuer(cfg, r) && Positioned(cfg, r, t) && t.status == OnScene && t.timeLeft == 1 && n > 0
    ensures var u := Ticks(r, t, n);
            && Positioned(cfg, r, u)
            && u.status == if n < Arrival(Manhattan(t.x, t.y, r.x, r.y), r.speed) then Returning else Idle
  {
    var back := Arrival(Manhattan(t.x, t.y, r.x, r.y), r.speed);
    if n <= back {
      ReturnTime(cfg, r, t, n);
    } else {
      ReturnTime(cfg, r, t, back);
      TicksAdd(r, t, back, n - back);
      IdleStays(r, Ticks(r, t, back), n - back);
    }
  }

  lemma {:induction false} IdleStays(r: RescuerType, t: Twin, n: nat)
    requires t.status == Idle
    ensures Ticks(r, t, n) == t
    decreases n
  {
    if n == 0 {
    } else {
      IdleStays(r, t, n - 1);
    }
  }
}
