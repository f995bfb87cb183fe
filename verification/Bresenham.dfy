/** The speed-limited line walker of src/bresenham.c.

  A course remembers the target, the distances and directions measured when it
  was laid, and Bresenham's error.  A call walks at most a given number of
  cells, and may stop between the x move and the y move of one loop iteration;
  the next call then decides again from the saved error. */
module Bresenham {

  function Abs(v: int): nat {
    if v < 0 then -v else v
  }

  function Manhattan(x0: int, y0: int, x1: int, y1: int): nat {
    Abs(x0 - x1) + Abs(y0 - y1)
  }

  /** The value of a bresenham_trajectory_t. */
  datatype Course = Course(xt: int, yt: int, dx: int, dy: int, sx: int, sy: int, err: int)

  /** A cell reached by a unit move, with the error saved there. */
  datatype Cell = Cell(x: int, y: int, err: int)

  datatype StepResult = StepResult(arrived: bool, xStep: int, yStep: int, err: int)

  /** The course laid from one cell to another. */
  function Aim(cx: int, cy: int, nx: int, ny: int): Course {
    var dx, dy := Abs(nx - cx), Abs(ny - cy);
    Course(nx, ny, dx, dy, if cx < nx then 1 else -1, if cy < ny then 1 else -1, dx - dy)
  }

  function Distance(c: Course, w: Cell): nat {
    Manhattan(w.x, w.y, c.xt, c.yt)
  }

  function AfterX(c: Course, w: Cell): Cell {
    Cell(w.x + c.sx, w.y, w.err - c.dy)
  }

  function AfterY(c: Course, w: Cell): Cell {
    Cell(w.x, w.y + c.sy, w.err + c.dx)
  }

  /** The cells one iteration of the walking loop visits: an x move, a y move or both;
      the y test reads the error from before the x move. */
  function FirstMoves(c: Course, w: Cell, budget: nat): (r: seq<Cell>)
    requires budget > 0
    ensures 1 <= |r| <= budget
  {
    var p := AfterX(c, w);
    if 2 * w.err < -c.dy then [AfterY(c, w)]
    else if budget > 1 && 2 * w.err <= c.dx then [p, AfterY(c, p)]
    else [p]
  }

  /** The cells one call visits when it may walk `budget` of them. */
  function UnitMoves(c: Course, w: Cell, budget: nat): seq<Cell>
    decreases budget
  {
    if budget == 0 || (w.x == c.xt && w.y == c.yt) then []
    else
      var first := FirstMoves(c, w, budget);
      first + UnitMoves(c, Last(w, first), budget - |first|)
  }

  function Last(w: Cell, cells: seq<Cell>): Cell {
    if cells == [] then w else cells[|cells| - 1]
  }

  function WalkEnd(c: Course, w: Cell, budget: nat): Cell
  {
    Last(w, UnitMoves(c, w, budget))
  }

  /** What compute_bresenham_step returns, stores through its out-parameters and leaves in err. */
  function Step(c: Course, x: int, y: int, cells: int): StepResult
  {
    if cells < 0 then StepResult(true, 0, 0, c.err)
    else if Manhattan(x, y, c.xt, c.yt) <= cells then
      StepResult(true, Abs(x - c.xt) * c.sx, Abs(y - c.yt) * c.sy, c.err)
    else
      var end := WalkEnd(c, Cell(x, y, c.err), cells);
      StepResult(end.x == c.xt && end.y == c.yt, end.x - x, end.y - y, end.err)
  }

  // ---------------------------------------------------------------- invariant

  /** The cell lies in the box of the course, the directions point at the target,
      and the saved error is the exact function of the distances left. */
  predicate OnCourse(c: Course, w: Cell) {
    var rx, ry := Abs(c.xt - w.x), Abs(c.yt - w.y);
    && rx <= c.dx && ry <= c.dy
    && (w.x < c.xt ==> c.sx == 1) && (w.x > c.xt ==> c.sx == -1)
    && (w.y < c.yt ==> c.sy == 1) && (w.y > c.yt ==> c.sy == -1)
    && w.err == ErrAt(c.dx, c.dy, rx, ry)
  }

  /** The error when rx cells are left on x and ry on y. */
  function ErrAt(dx: int, dy: int, rx: int, ry: int): int {
    dx - dy + dy * rx - dx * ry
  }

  lemma ErrAtMoves(dx: int, dy: int, rx: int, ry: int)
    ensures ErrAt(dx, dy, rx - 1, ry) == ErrAt(dx, dy, rx, ry) - dy
    ensures ErrAt(dx, dy, rx, ry - 1) == ErrAt(dx, dy, rx, ry) + dx
  {
    assert dy * (rx - 1) == dy * rx - dy;
    assert dx * (ry - 1) == dx * ry - dx;
  }

  /** How far the cell is from the ideal line: dx*b - dy*a after a x-moves and b y-moves. */
  function Deviation(c: Course, w: Cell): int {
    c.dx * (c.dy - Abs(c.yt - w.y)) - c.dy * (c.dx - Abs(c.xt - w.x))
  }

  predicate NearLine(c: Course, w: Cell) {
    && -(2 * c.dx + c.dy) <= 2 * Deviation(c, w)
    && 2 * Deviation(c, w) <= (if c.dx > c.dy then c.dx else c.dy)
  }

  lemma ErrIsDeviation(c: Course, w: Cell)
    requires OnCourse(c, w)
    ensures w.err == c.dx - c.dy + Deviation(c, w)
    ensures NearLine(c, w) <==>
            -3 * c.dy <= 2 * w.err && (2 * w.err <= 2 * c.dx - c.dy || 2 * w.err <= 3 * c.dx - 2 * c.dy)
  {
    DeviationLeft(c.dx, c.dy, Abs(c.xt - w.x), Abs(c.yt - w.y));
    assert w.err == c.dx - c.dy + Deviation(c, w);
    hide Deviation, ErrAt;
  }

  lemma DeviationLeft(dx: int, dy: int, rx: int, ry: int)
    ensures ErrAt(dx, dy, rx, ry) == dx - dy + (dx * (dy - ry) - dy * (dx - rx))
  {
    assert dx * (dy - ry) == dx * dy - dx * ry;
    assert dy * (dx - rx) == dx * dy - dy * rx;
  }

  lemma AimOnCourse(cx: int, cy: int, nx: int, ny: int)
    ensures var c := Aim(cx, cy, nx, ny);
            OnCourse(c, Cell(cx, cy, c.err)) && NearLine(c, Cell(cx, cy, c.err))
  {
    var c := Aim(cx, cy, nx, ny);
    assert c.dy * c.dx == c.dx * c.dy;
    ErrIsDeviation(c, Cell(cx, cy, c.err));
  }

  /** With nothing left on x, the error is too small for an x move. */
  lemma NoMoveX(dx: nat, dy: nat, ry: nat)
    requires 1 <= ry <= dy
    ensures 2 * ErrAt(dx, dy, 0, ry) < 0 - dy
  {
    assert dx * (ry - 1) >= 0;
  }

  /** With nothing left on y, the error is too large for a y move. */
  lemma NoMoveY(dx: nat, dy: nat, rx: nat)
    requires 1 <= rx <= dx
    ensures 2 * ErrAt(dx, dy, rx, 0) > dx
  {
    assert dy * (rx - 1) >= 0;
  }

  /** An x move is taken only while there is distance left on x. */
  lemma MoveX(c: Course, w: Cell)
    requires OnCourse(c, w) && Distance(c, w) > 0 && 2 * w.err >= -c.dy
    ensures OnCourse(c, AfterX(c, w)) && Distance(c, AfterX(c, w)) == Distance(c, w) - 1
    ensures Between(w.x, AfterX(c, w).x, c.xt) && Adjacent(w, AfterX(c, w))
  {
    var rx, ry := Abs(c.xt - w.x), Abs(c.yt - w.y);
    if rx == 0 {
      NoMoveX(c.dx, c.dy, ry);
      assert false;
    }
    var p := AfterX(c, w);
    assert Abs(c.xt - p.x) == rx - 1 && Abs(c.yt - p.y) == ry;
    ErrAtMoves(c.dx, c.dy, rx, ry);
  }

  /** A y move is taken only while there is distance left on y; the test uses the
      error read at the start of the iteration, so p may already have moved on x. */
  lemma MoveY(c: Course, w: Cell, p: Cell)
    requires OnCourse(c, w) && Distance(c, w) > 0 && 2 * w.err <= c.dx
    requires p == w || (p == AfterX(c, w) && OnCourse(c, p))
    ensures OnCourse(c, AfterY(c, p)) && Distance(c, AfterY(c, p)) == Distance(c, p) - 1
    ensures Between(p.y, AfterY(c, p).y, c.yt) && Adjacent(p, AfterY(c, p))
  {
    var rx, ry := Abs(c.xt - w.x), Abs(c.yt - w.y);
    if ry == 0 {
      NoMoveY(c.dx, c.dy, rx);
      assert false;
    }
    var q := AfterY(c, p);
    assert Abs(c.yt - p.y) == ry && Abs(c.xt - q.x) == Abs(c.xt - p.x) && Abs(c.yt - q.y) == ry - 1;
    ErrAtMoves(c.dx, c.dy, Abs(c.xt - p.x), ry);
  }

  /** The error stays in its band through one iteration. */
  lemma MovesStayNear(c: Course, w: Cell, p: Cell)
    requires OnCourse(c, w) && NearLine(c, w) && OnCourse(c, p)
    requires (p.err == w.err - c.dy && 2 * w.err >= -c.dy)
          || (p.err == w.err + c.dx && 2 * w.err < -c.dy)
          || (p.err == w.err - c.dy + c.dx && 2 * w.err <= c.dx && 2 * w.err >= -c.dy)
    ensures NearLine(c, p)
  {
    ErrIsDeviation(c, w);
    ErrIsDeviation(c, p);
    assert c.dx >= 0 && c.dy >= 0;
  }

  predicate Between(a: int, v: int, b: int) {
    a <= v <= b || b <= v <= a
  }

  /** Each visited cell is next to the one before and one unit closer, on course, near the
      line, and between the start and the target. */
  predicate Descends(c: Course, w: Cell, cells: seq<Cell>) {
    forall k :: 0 <= k < |cells| ==>
      UnitMove(w, cells, k) && Nearer(c, w, cells[k], k + 1)
  }

  predicate UnitMove(w: Cell, cells: seq<Cell>, k: nat)
    requires k < |cells|
  {
    Adjacent(if k == 0 then w else cells[k - 1], cells[k])
  }

  /** A cell of the course, n unit moves after w. */
  predicate Nearer(c: Course, w: Cell, v: Cell, n: nat) {
    && OnCourse(c, v) && NearLine(c, v) && Distance(c, v) == Distance(c, w) - n
    && Between(w.x, v.x, c.xt) && Between(w.y, v.y, c.yt)
  }

  predicate Adjacent(v: Cell, w: Cell) {
    Manhattan(v.x, v.y, w.x, w.y) == 1
  }

  lemma FirstMovesDescend(c: Course, w: Cell, budget: nat)
    requires OnCourse(c, w) && NearLine(c, w) && Distance(c, w) > budget > 0
    ensures Descends(c, w, FirstMoves(c, w, budget))
  {
    if 2 * w.err < -c.dy {
      MoveY(c, w, w);
      MovesStayNear(c, w, AfterY(c, w));
    } else {
      var p := AfterX(c, w);
      MoveX(c, w);
      MovesStayNear(c, w, p);
      if budget > 1 && 2 * w.err <= c.dx {
        MoveY(c, w, p);
        MovesStayNear(c, w, AfterY(c, p));
      }
    }
  }

  lemma DescendsAppend(c: Course, w: Cell, first: seq<Cell>, rest: seq<Cell>)
    requires Descends(c, w, first) && Descends(c, Last(w, first), rest)
    ensures Descends(c, w, first + rest)
  {
    hide Nearer, Manhattan;
    var cells, n := first + rest, |first|;
    if n == 0 {
      assert cells == rest;
    } else {
      forall k | 0 <= k < |cells|
        ensures UnitMove(w, cells, k) && Nearer(c, w, cells[k], k + 1)
      {
        if k < n {
          assert cells[k] == first[k] && UnitMove(w, first, k);
        } else {
          assert cells[k] == rest[k - n] && UnitMove(Last(w, first), rest, k - n);
          NearerYet(c, w, Last(w, first), rest[k - n], n, k - n + 1);
        }
      }
    }
  }

  lemma NearerYet(c: Course, w: Cell, p: Cell, v: Cell, m: nat, n: nat)
    requires Nearer(c, w, p, m) && Nearer(c, p, v, n)
    ensures Nearer(c, w, v, m + n)
  {
    hide OnCourse, NearLine, Manhattan;
  }

  /** Short of the target, a call visits as many cells as it may, each a unit move from the last. */
  lemma {:induction false} UnitMovesDescend(c: Course, w: Cell, budget: nat)
    requires OnCourse(c, w) && NearLine(c, w) && Distance(c, w) > budget
    ensures var cells := UnitMoves(c, w, budget);
            |cells| == budget && Descends(c, w, cells)
    decreases budget
  {
    if budget == 0 {
    } else {
      var first := FirstMoves(c, w, budget);
      FirstMovesDescend(c, w, budget);
      UnitMovesDescend(c, Last(w, first), budget - |first|);
      DescendsAppend(c, w, first, UnitMoves(c, Last(w, first), budget - |first|));
    }
  }

  // ---------------------------------------------------------------- theorems

  lemma JumpLands(from: int, to: int, sign: int)
    requires (from < to ==> sign == 1) && (from > to ==> sign == -1)
    ensures from + Abs(from - to) * sign == to
  {
  }

  /** A call that is farther than `cells` ends where that many unit moves end, off the target. */
  lemma StepWalks(c: Course, x: int, y: int, cells: nat)
    requires OnCourse(c, Cell(x, y, c.err)) && NearLine(c, Cell(x, y, c.err)) && Manhattan(x, y, c.xt, c.yt) > cells
    ensures var w, r := Cell(x, y, c.err), Step(c, x, y, cells);
            var moves := UnitMoves(c, w, cells);
            && !r.arrived && |moves| == cells && Descends(c, w, moves)
            && Last(w, moves) == Cell(x + r.xStep, y + r.yStep, r.err)
  {
    hide OnCourse, NearLine, UnitMoves;
    UnitMovesDescend(c, Cell(x, y, c.err), cells);
  }

  /** No overshoot.  A call that is farther than `cells` walks exactly that many
      unit moves towards the target and reports false; any other lands on it. */
  lemma StepExact(c: Course, x: int, y: int, cells: nat)
    requires OnCourse(c, Cell(x, y, c.err)) && NearLine(c, Cell(x, y, c.err))
    ensures var r := Step(c, x, y, cells);
            var s := Manhattan(x, y, c.xt, c.yt);
            && (r.arrived <==> s <= cells)
            && (r.arrived ==> x + r.xStep == c.xt && y + r.yStep == c.yt && r.err == c.err)
            && (!r.arrived ==> |UnitMoves(c, Cell(x, y, c.err), cells)| == cells
                               && Descends(c, Cell(x, y, c.err), UnitMoves(c, Cell(x, y, c.err), cells))
                               && Last(Cell(x, y, c.err), UnitMoves(c, Cell(x, y, c.err), cells))
                                  == Cell(x + r.xStep, y + r.yStep, r.err)
                               && Manhattan(x + r.xStep, y + r.yStep, c.xt, c.yt) == s - cells
                               && OnCourse(c, Cell(x + r.xStep, y + r.yStep, r.err))
                               && NearLine(c, Cell(x + r.xStep, y + r.yStep, r.err))
                               && Between(x, x + r.xStep, c.xt) && Between(y, y + r.yStep, c.yt))
  {
    hide NearLine, UnitMoves, ErrAt;
    if Manhattan(x, y, c.xt, c.yt) > cells {
      StepWalks(c, x, y, cells);
    } else {
      JumpLands(x, c.xt, c.sx);
      JumpLands(y, c.yt, c.sy);
    }
  }

  /** The cells visited tick after tick, with any speed at each tick, up to the final arrival jump. */
  function Journey(c: Course, w: Cell, speeds: seq<nat>): seq<Cell>
    decreases |speeds|
  {
    if speeds == [] || Distance(c, w) <= speeds[0] then []
    else
      var cells := UnitMoves(c, w, speeds[0]);
      cells + Journey(c, Last(w, cells), speeds[1..])
  }

  lemma {:induction false} JourneyDescends(c: Course, w: Cell, speeds: seq<nat>)
    requires OnCourse(c, w) && NearLine(c, w)
    ensures Descends(c, w, Journey(c, w, speeds))
    decreases |speeds|
  {
    if speeds == [] || Distance(c, w) <= speeds[0] {
    } else {
      var cells := UnitMoves(c, w, speeds[0]);
      UnitMovesDescend(c, w, speeds[0]);
      JourneyDescends(c, Last(w, cells), speeds[1..]);
      DescendsAppend(c, w, cells, Journey(c, Last(w, cells), speeds[1..]));
    }
  }

  /** Line fidelity: however the walk is split into ticks, every cell it visits is
      within the band around the ideal line, inside the box spanned by start and
      target, and one unit move closer to the target than the one before. */
  lemma LineFidelity(cx: int, cy: int, nx: int, ny: int, speeds: seq<nat>, k: nat)
    requires var c := Aim(cx, cy, nx, ny); k < |Journey(c, Cell(cx, cy, c.err), speeds)|
    ensures var c := Aim(cx, cy, nx, ny);
            var v := Journey(c, Cell(cx, cy, c.err), speeds)[k];
            && NearLine(c, v)
            && -3 * c.dy <= 2 * v.err && (2 * v.err <= 2 * c.dx - c.dy || 2 * v.err <= 3 * c.dx - 2 * c.dy)
            && Between(cx, v.x, nx) && Between(cy, v.y, ny)
            && Manhattan(v.x, v.y, nx, ny) == Manhattan(cx, cy, nx, ny) - 1 - k
            && InBand(cx, cy, nx, ny, v)
  {
    var c := Aim(cx, cy, nx, ny);
    var w := Cell(cx, cy, c.err);
    AimOnCourse(cx, cy, nx, ny);
    JourneyDescends(c, w, speeds);
    hide OnCourse, NearLine, Between, Manhattan, Journey, InBand;
    NearFromStart(c, w, Journey(c, w, speeds)[k], k + 1);
  }

  /** The band seen from where the course was laid. */
  predicate InBand(cx: int, cy: int, nx: int, ny: int, v: Cell) {
    var dx, dy := Abs(nx - cx), Abs(ny - cy);
    var off := dx * Abs(v.y - cy) - dy * Abs(v.x - cx);
    -(2 * dx + dy) <= 2 * off <= if dx > dy then dx else dy
  }

  lemma NearFromStart(c: Course, w: Cell, v: Cell, n: nat)
    requires c == Aim(w.x, w.y, c.xt, c.yt) && Nearer(c, w, v, n)
    ensures -3 * c.dy <= 2 * v.err && (2 * v.err <= 2 * c.dx - c.dy || 2 * v.err <= 3 * c.dx - 2 * c.dy)
    ensures InBand(w.x, w.y, c.xt, c.yt, v)
  {
    ErrIsDeviation(c, v);
    FromStart(c, w, v, n);
    hide OnCourse, Deviation, Between, Manhattan;
  }

  // ---------------------------------------------------------------- the rounded line

  /** The height of the ideal line over the n-th point of its longer side, rounded, halves up. */
  function Height(longer: nat, shorter: nat, n: int): int
    requires longer > 0
  {
    (2 * shorter * n + longer) / (2 * longer)
  }

  /** The cells of the rounded line from the origin to (dx, dy), one for each number of moves:
      where its shorter side climbs, the x move comes before the y move. */
  predicate OnLine(dx: nat, dy: nat, a: int, b: int)
    requires dx + dy > 0
  {
    if dx >= dy then Height(dx, dy, a - 1) <= b <= Height(dx, dy, a)
    else Height(dy, dx, b) <= a <= Height(dy, dx, b + 1)
  }

  lemma HeightBounds(longer: nat, shorter: nat, n: int, h: int)
    requires longer > 0
    ensures h <= Height(longer, shorter, n) <==> 2 * longer * h - 2 * shorter * n <= longer
    ensures h >= Height(longer, shorter, n) <==> 2 * longer * h - 2 * shorter * n > 0 - longer
  {
    Floor(2 * shorter * n + longer, 2 * longer, h);
    assert 2 * longer * (h + 1) == 2 * longer * h + 2 * longer;
  }

  lemma Floor(v: int, d: nat, h: int)
    requires d > 0
    ensures h <= v / d <==> d * h <= v
    ensures h >= v / d <==> v < d * (h + 1)
  {
    var f := v / d;
    assert d * f <= v < d * (f + 1);
    if h <= f {
      assert d * h <= d * f;
    } else {
      assert d * (f + 1) <= d * h;
    }
    if h < f {
      assert d * (h + 1) <= d * f;
    } else {
      assert d * (f + 1) <= d * (h + 1);
    }
  }

  /** The bounds leave one cell for each number of moves. */
  lemma LineIsOnePath(dx: nat, dy: nat, a: int, b: int, p: int, q: int)
    requires dx + dy > 0 && a + b == p + q && OnLine(dx, dy, a, b) && OnLine(dx, dy, p, q)
    ensures a == p && b == q
  {
    if dx >= dy {
      HeightClimbs(dx, dy, a, p - 1);
      HeightClimbs(dx, dy, p, a - 1);
    } else {
      HeightClimbs(dy, dx, b + 1, q);
      HeightClimbs(dy, dx, q + 1, b);
    }
  }

  lemma HeightClimbs(longer: nat, shorter: nat, m: int, n: int)
    requires longer > 0
    ensures m <= n ==> Height(longer, shorter, m) <= Height(longer, shorter, n)
  {
    if m <= n {
      HeightBounds(longer, shorter, m, Height(longer, shorter, m));
      HeightBounds(longer, shorter, n, Height(longer, shorter, m));
      assert shorter * m <= shorter * n;
    }
  }

  /** No cell of its row or column is nearer to the ideal line. */
  predicate Nearest(c: Course, w: Cell) {
    if c.dx >= c.dy then -c.dx < 2 * Deviation(c, w) <= c.dx else -c.dy <= 2 * Deviation(c, w) < c.dy
  }

  /** Nearest, or halfway to it: an x move past the nearest cell, a y move short of the next. */
  predicate OnRaster(c: Course, w: Cell) {
    if c.dx >= c.dy then -c.dx - 2 * c.dy < 2 * Deviation(c, w) <= c.dx
    else -c.dy - 2 * c.dx <= 2 * Deviation(c, w) < c.dy
  }

  /** The deviation of the cell diagonally ahead. */
  function Ahead(c: Course, w: Cell): int {
    Deviation(c, w) + c.dx - c.dy
  }

  /** How any call sets out, by the geometry of the line alone: it moves on x unless the cell
      diagonally ahead lies too far on one side of the line; having moved on x it moves on y at
      once, if it may move again, unless that cell lies too far on the other side. */
  lemma SetsOutByDeviation(c: Course, w: Cell, budget: nat)
    requires OnCourse(c, w) && NearLine(c, w) && Distance(c, w) > budget > 0
    ensures var cells := UnitMoves(c, w, budget);
            && |cells| == budget
            && (cells[0].x, cells[0].y) == (if 2 * Ahead(c, w) >= -c.dy then (w.x + c.sx, w.y) else (w.x, w.y + c.sy))
            && (budget > 1 && -c.dy <= 2 * Ahead(c, w) <= c.dx ==>
                  (cells[1].x, cells[1].y) == (w.x + c.sx, w.y + c.sy))
  {
    ErrIsDeviation(c, w);
    UnitMovesDescend(c, w, budget);
    hide OnCourse, NearLine, Deviation, Descends;
  }

  /** On a diagonal course no cell is half a diagonal off. */
  lemma DiagonalDeviation(c: Course, w: Cell)
    requires c.dx == c.dy > 0
    ensures 2 * Deviation(c, w) != -c.dx
  {
    NotHalf(c.dx, c.dy - Abs(c.yt - w.y), c.dx - Abs(c.xt - w.x));
  }

  lemma NotHalf(d: nat, p: int, q: int)
    requires d > 0
    ensures 2 * (d * p - d * q) != 0 - d
  {
    if p < q {
      assert d * p <= d * (q - 1);
      assert d * (q - 1) == d * q - d;
    } else {
      assert d * q <= d * p;
    }
  }

  /** The saved error tells how near the cell is. */
  lemma NearestByErr(c: Course, w: Cell)
    requires OnCourse(c, w)
    ensures var off := 2 * w.err - 2 * c.dx + 2 * c.dy;
            && (Nearest(c, w) <==> if c.dx >= c.dy then -c.dx < off <= c.dx else -c.dy <= off < c.dy)
            && (OnRaster(c, w) <==>
                  if c.dx >= c.dy then -c.dx - 2 * c.dy < off <= c.dx else -c.dy - 2 * c.dx <= off < c.dy)
            && (NearLine(c, w) ==> -(2 * c.dx + c.dy) <= off <= if c.dx > c.dy then c.dx else c.dy)
            && (c.dx == c.dy > 0 ==> off != -c.dx)
  {
    ErrIsDeviation(c, w);
    hide Deviation, OnCourse;
    if c.dx == c.dy > 0 {
      DiagonalDeviation(c, w);
    }
  }

  /** From wherever a walk may stop, an iteration the budget does not cut short ends on the
      cell nearest to the line; one cut short after starting from such a cell is halfway. */
  lemma IterationEndsNearest(c: Course, w: Cell, budget: nat)
    requires OnCourse(c, w) && NearLine(c, w) && Distance(c, w) > budget > 0
    ensures var first := FirstMoves(c, w, budget);
            && (budget > 1 ==> Nearest(c, Last(w, first)))
            && (Nearest(c, w) ==> OnRaster(c, first[0]))
            && (Nearest(c, Last(w, first)) ==> OnRaster(c, Last(w, first)))
            && (|first| > 1 ==> first[1] == Last(w, first))
            && (|first| <= 1 ==> first[0] == Last(w, first))
  {
    var first := FirstMoves(c, w, budget);
    FirstMovesDescend(c, w, budget);
    var p, q := first[0], Last(w, first);
    assert OnCourse(c, p) && OnCourse(c, q);
    assert c.dx >= 0 && c.dy >= 0 && c.dx + c.dy > 0;
    hide OnCourse, NearLine, Nearest, OnRaster, Descends, Manhattan;
    NearestByErr(c, w);
    NearestByErr(c, p);
    NearestByErr(c, q);
  }

  /** The cells lie on the raster, the first one only if asked, and no two in a row are halfway. */
  ghost predicate Rastered(c: Course, cells: seq<Cell>, fromFirst: bool) {
    && (forall k :: 0 < k < |cells| ==> Nearest(c, cells[k - 1]) || Nearest(c, cells[k]))
    && (forall k :: 0 <= k < |cells| && (k > 0 || fromFirst) ==> OnRaster(c, cells[k]))
  }

  lemma RasteredAppend(c: Course, first: seq<Cell>, rest: seq<Cell>, fromFirst: bool)
    requires 1 <= |first| <= 2 && Rastered(c, rest, true)
    requires Nearest(c, first[|first| - 1]) && OnRaster(c, first[|first| - 1])
    requires fromFirst ==> OnRaster(c, first[0])
    ensures Rastered(c, first + rest, fromFirst)
  {
    hide Nearest, OnRaster;
  }

  /** Every call, wherever the one before it stopped: of two cells visited in a row at least
      one is nearest to the line, and from the second on all lie on its raster. */
  lemma {:induction false} CallKeepsToRaster(c: Course, w: Cell, budget: nat)
    requires OnCourse(c, w) && NearLine(c, w) && Distance(c, w) > budget
    ensures Rastered(c, UnitMoves(c, w, budget), Nearest(c, w))
    decreases budget
  {
    hide OnCourse, NearLine, FirstMoves, Nearest, OnRaster, Manhattan, Rastered;
    if budget == 0 {
      RasteredShort(c, [], Nearest(c, w));
    } else {
      var first := FirstMoves(c, w, budget);
      FirstMovesEnd(c, w, budget);
      IterationEndsNearest(c, w, budget);
      if budget == 1 {
        assert UnitMoves(c, w, budget) == first;
        RasteredShort(c, first, Nearest(c, w));
      } else {
        CallKeepsToRaster(c, Last(w, first), budget - |first|);
        RasteredAppend(c, first, UnitMoves(c, Last(w, first), budget - |first|), Nearest(c, w));
      }
    }
  }

  lemma RasteredShort(c: Course, cells: seq<Cell>, fromFirst: bool)
    requires |cells| <= 1 && (cells != [] && fromFirst ==> OnRaster(c, cells[0]))
    ensures Rastered(c, cells, fromFirst)
  {
    hide OnRaster;
  }

  lemma FirstMovesEnd(c: Course, w: Cell, budget: nat)
    requires OnCourse(c, w) && NearLine(c, w) && Distance(c, w) > budget > 0
    ensures w.x != c.xt || w.y != c.yt
    ensures var first := FirstMoves(c, w, budget);
            && |first| <= 2 && OnCourse(c, Last(w, first)) && NearLine(c, Last(w, first))
            && Distance(c, Last(w, first)) == Distance(c, w) - |first|
  {
    FirstMovesDescend(c, w, budget);
    hide OnCourse, NearLine, Manhattan;
    var first := FirstMoves(c, w, budget);
    assert Nearer(c, w, first[|first| - 1], |first|);
  }

  lemma RasterIsLine(c: Course, w: Cell, a: int, b: int)
    requires c.dx >= 0 && c.dy >= 0 && c.dx + c.dy > 0
    requires Deviation(c, w) == c.dx * b - c.dy * a
    ensures OnRaster(c, w) <==> OnLine(c.dx, c.dy, a, b)
  {
    hide Deviation, Height;
    if c.dx >= c.dy {
      HeightBounds(c.dx, c.dy, a - 1, b);
      HeightBounds(c.dx, c.dy, a, b);
      assert 2 * c.dy * (a - 1) == 2 * c.dy * a - 2 * c.dy;
      assert 2 * Deviation(c, w) == 2 * c.dx * b - 2 * c.dy * a;
    } else {
      HeightBounds(c.dy, c.dx, b, a);
      HeightBounds(c.dy, c.dx, b + 1, a);
      assert 2 * c.dx * (b + 1) == 2 * c.dx * b + 2 * c.dx;
      assert 2 * Deviation(c, w) == 2 * c.dx * b - 2 * c.dy * a;
    }
  }

  /** The cell is the n-th of the rounded line from (cx, cy) to (nx, ny). */
  predicate Follows(cx: int, cy: int, nx: int, ny: int, v: Cell, n: nat) {
    var dx, dy, a, b := Abs(nx - cx), Abs(ny - cy), Abs(v.x - cx), Abs(v.y - cy);
    && a + b == n && dx + dy > 0 && OnLine(dx, dy, a, b)
    && Between(cx, v.x, nx) && Between(cy, v.y, ny)
  }

  /** At most half a cell off the ideal line, measured along its shorter side. */
  predicate Hugs(cx: int, cy: int, nx: int, ny: int, v: Cell) {
    var dx, dy, a, b := Abs(nx - cx), Abs(ny - cy), Abs(v.x - cx), Abs(v.y - cy);
    2 * Abs(dx * b - dy * a) <= if dx >= dy then dx else dy
  }

  /** A call on a course just laid visits the cells of the rounded line from where it was laid
      to its target, in order; and every other cell at least is nearest to the ideal line. */
  lemma CallFollowsLine(cx: int, cy: int, nx: int, ny: int, cells: nat, k: nat)
    requires k < cells < Manhattan(cx, cy, nx, ny)
    ensures var c := Aim(cx, cy, nx, ny);
            var visited := UnitMoves(c, Cell(cx, cy, c.err), cells);
            && |visited| == cells && Follows(cx, cy, nx, ny, visited[k], k + 1)
            && (k > 0 ==> Hugs(cx, cy, nx, ny, visited[k - 1]) || Hugs(cx, cy, nx, ny, visited[k]))
  {
    var c := Aim(cx, cy, nx, ny);
    var w := Cell(cx, cy, c.err);
    AimOnCourse(cx, cy, nx, ny);
    StartsNearest(c, w);
    hide OnCourse, NearLine, UnitMoves, OnRaster, Nearest, Follows, Hugs;
    UnitMovesDescend(c, w, cells);
    CallKeepsToRaster(c, w, cells);
    var visited := UnitMoves(c, w, cells);
    SeenFromStart(c, w, visited[k], k + 1);
    if k > 0 {
      SeenFromStart(c, w, visited[k - 1], k);
    }
  }

  lemma SeenFromStart(c: Course, w: Cell, v: Cell, n: nat)
    requires c == Aim(w.x, w.y, c.xt, c.yt) && Nearer(c, w, v, n) && Distance(c, w) > 0
    ensures OnRaster(c, v) ==> Follows(w.x, w.y, c.xt, c.yt, v, n)
    ensures Nearest(c, v) ==> Hugs(w.x, w.y, c.xt, c.yt, v)
  {
    FromStart(c, w, v, n);
    RasterIsLine(c, v, Abs(v.x - w.x), Abs(v.y - w.y));
    hide OnRaster, OnLine, Deviation, OnCourse, NearLine;
  }

  /** So one call that falls short of the target ends on the cell of the rounded line that is
      as many moves away as the call may walk. */
  lemma StepFollowsLine(cx: int, cy: int, nx: int, ny: int, cells: nat)
    requires 0 < cells < Manhattan(cx, cy, nx, ny)
    ensures var r := Step(Aim(cx, cy, nx, ny), cx, cy, cells);
            !r.arrived && Follows(cx, cy, nx, ny, Cell(cx + r.xStep, cy + r.yStep, r.err), cells)
  {
    AimOnCourse(cx, cy, nx, ny);
    hide OnCourse, NearLine, UnitMoves, Follows;
    StepWalks(Aim(cx, cy, nx, ny), cx, cy, cells);
    CallFollowsLine(cx, cy, nx, ny, cells, cells - 1);
  }

  /** The distances walked, seen from where the course was laid. */
  lemma FromStart(c: Course, w: Cell, v: Cell, n: nat)
    requires c == Aim(w.x, w.y, c.xt, c.yt) && Nearer(c, w, v, n)
    ensures var a, b := Abs(v.x - w.x), Abs(v.y - w.y);
            && a + b == n && Deviation(c, v) == c.dx * b - c.dy * a
            && Between(w.x, v.x, c.xt) && Between(w.y, v.y, c.yt)
  {
    hide NearLine, ErrAt;
    var a, b := Abs(v.x - w.x), Abs(v.y - w.y);
    assert a == c.dx - Abs(c.xt - v.x);
    assert b == c.dy - Abs(c.yt - v.y);
  }

  lemma StartsNearest(c: Course, w: Cell)
    requires c == Aim(w.x, w.y, c.xt, c.yt) && Distance(c, w) > 0
    ensures Nearest(c, w)
  {
    assert c.dy * (c.dx - c.dx) == 0 == c.dx * (c.dy - c.dy);
  }

  // ---------------------------------------------------------------- the mutable trajectory

  /** One iteration of the walking loop does not change where the walk ends. */
  lemma WalkEndUnfolds(c: Course, w: Cell, budget: nat)
    requires budget > 0 && (w.x != c.xt || w.y != c.yt)
    ensures var first := FirstMoves(c, w, budget);
            WalkEnd(c, w, budget) == WalkEnd(c, Last(w, first), budget - |first|)
  {
    var first := FirstMoves(c, w, budget);
    LastAfter(first, UnitMoves(c, Last(w, first), budget - |first|), w);
  }

  lemma WalkEndStops(c: Course, w: Cell, budget: nat)
    requires budget == 0 || (w.x == c.xt && w.y == c.yt)
    ensures WalkEnd(c, w, budget) == w
  {
  }

  lemma LastAfter(first: seq<Cell>, rest: seq<Cell>, w: Cell)
    requires first != []
    ensures Last(w, first + rest) == Last(first[|first| - 1], rest)
  {
  }

  class Trajectory {
    var xTarget: int
    var yTarget: int
    var dx: int
    var dy: int
    var sx: int
    var sy: int
    var err: int

    ghost function View(): Course
      reads this
    {
      Course(xTarget, yTarget, dx, dy, sx, sy, err)
    }

    constructor (x: int, y: int)
      ensures View() == Aim(x, y, x, y)
    {
      xTarget, yTarget, dx, dy, sx, sy, err := x, y, 0, 0, -1, -1, 0;
    }

    /** change_bresenham_trajectory */
    method Change(currentX: int, currentY: int, newX: int, newY: int)
      modifies this
      ensures View() == Aim(currentX, currentY, newX, newY)
    {
      xTarget := newX;
      yTarget := newY;
      dx := Abs(newX - currentX);
      dy := Abs(newY - currentY);
      sx := if currentX < newX then 1 else -1;
      sy := if currentY < newY then 1 else -1;
      err := dx - dy;
    }

    /** compute_bresenham_step */
    method ComputeStep(x: int, y: int, cellsPerStep: int) returns (arrived: bool, xStep: int, yStep: int)
      requires dx >= 0 && dy >= 0
      modifies this`err
      ensures StepResult(arrived, xStep, yStep, err) == Step(old(View()), x, y, cellsPerStep)
      ensures cellsPerStep < 0 ==> arrived && xStep == yStep == 0 && err == old(err)
    {
      hide WalkEnd, Manhattan;
      xStep, yStep := 0, 0;
      if cellsPerStep < 0 {
        return true, xStep, yStep;
      }
      if Manhattan(x, y, xTarget, yTarget) <= cellsPerStep {
        return true, Abs(x - xTarget) * sx, Abs(y - yTarget) * sy;
      }
      ghost var c := View();
      ghost var end := WalkEnd(c, Cell(x, y, err), cellsPerStep);
      var xA, yA, i := x, y, 0;
      while i < cellsPerStep
        invariant 0 <= i <= cellsPerStep
        invariant c == View().(err := c.err)
        invariant xStep == xA - x && yStep == yA - y
        invariant end == WalkEnd(c, Cell(xA, yA, err), cellsPerStep - i)
        decreases cellsPerStep - i
      {
        if xA == xTarget && yA == yTarget {
          WalkEndStops(c, Cell(xA, yA, err), cellsPerStep - i);
          return true, xStep, yStep;
        }
        var e2 := 2 * err;
        WalkEndUnfolds(c, Cell(xA, yA, err), cellsPerStep - i);
        if e2 >= -dy {
          err := err - dy;
          xA := xA + sx;
          xStep := xStep + sx;
          i := i + 1;
        }
        if i >= cellsPerStep {
          break;
        }
        if e2 <= dx {
          err := err + dx;
          yA := yA + sy;
          yStep := yStep + sy;
          i := i + 1;
        }
      }
      WalkEndStops(c, Cell(xA, yA, err), 0);
      return xA == xTarget && yA == yTarget, xStep, yStep;
    }
  }
}
