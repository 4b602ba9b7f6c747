/** Vector labels to the coarse grid (scripts/e2e-mini-train.py, `target_grid`). */
module Raster {
  import opened Ratios

  const COLUMNS: nat := 16
  const ROWS: nat := 12
  const CELL: nat := 4

  type Point = (real, real)

  function AbsReal(x: real): real { if x < 0.0 then -x else x }

  function MaxReal(a: real, b: real): real { if a < b then b else a }

  /** `int(max(|dx|, |dy|)) or 1`: how many steps an edge is walked in. */
  function Steps(p: Point, q: Point): (n: nat)
    ensures n >= 1
  {
    var n := MaxReal(AbsReal(q.0 - p.0), AbsReal(q.1 - p.1)).Floor;
    if n == 0 then 1 else n
  }

  /** Where the walk is on one axis after `index` of `steps` steps. */
  function Along(a: real, b: real, index: int, steps: nat): real
    requires steps >= 1
  {
    a + (b - a) * (index as real / steps as real)
  }

  /** The cell a coordinate falls in, on one axis. */
  function CellOf(x: real): int {
    (x / CELL as real).Floor
  }

  function SampleCell(p: Point, q: Point, index: int): (int, int) {
    (CellOf(Along(p.1, q.1, index, Steps(p, q))), CellOf(Along(p.0, q.0, index, Steps(p, q))))
  }

  /** The walk from p to q passes through the cell. */
  ghost predicate Crosses(p: Point, q: Point, row: int, column: int) {
    exists index :: 0 <= index <= Steps(p, q) && SampleCell(p, q, index) == (row, column)
  }

  ghost predicate EdgeCrosses(points: seq<Point>, row: int, column: int) {
    exists k :: 0 <= k < |points| - 1 && Crosses(points[k], points[k + 1], row, column)
  }

  ghost predicate Marked(edges: seq<seq<Point>>, row: int, column: int) {
    exists e :: 0 <= e < |edges| && EdgeCrosses(edges[e], row, column)
  }

  function Slot(row: int, column: int): int { row * COLUMNS + column }

  predicate InGrid(row: int, column: int) {
    0 <= row < ROWS && 0 <= column < COLUMNS
  }

  lemma SlotInjective(row: int, column: int, r: int, c: int)
    requires InGrid(row, column) && InGrid(r, c)
    ensures 0 <= Slot(row, column) < COLUMNS * ROWS
    ensures Slot(row, column) == Slot(r, c) ==> row == r && column == c
  {
  }

  ghost predicate CrossesBefore(p: Point, q: Point, n: int, row: int, column: int) {
    exists index :: 0 <= index < n && SampleCell(p, q, index) == (row, column)
  }

  /** One sample, written if it is on the grid. */
  method MarkCell(grid: array<int>, row: int, column: int)
    requires grid.Length == COLUMNS * ROWS
    modifies grid
    ensures forall r, c :: InGrid(r, c) ==>
      0 <= Slot(r, c) < grid.Length && grid[Slot(r, c)] == if (r, c) == (row, column) then 1 else old(grid[Slot(r, c)])
  {
    forall r, c | InGrid(r, c)
      ensures 0 <= Slot(r, c) < grid.Length
      ensures InGrid(row, column) && Slot(r, c) == Slot(row, column) ==> r == row && c == column
    {
      SlotInjective(r, c, r, c);
      if InGrid(row, column) {
        SlotInjective(row, column, r, c);
      }
    }
    if 0 <= column < COLUMNS && 0 <= row < ROWS {
      grid[row * COLUMNS + column] := 1;
    }
  }

  method MarkSegment(grid: array<int>, p: Point, q: Point)
    requires grid.Length == COLUMNS * ROWS
    modifies grid
    ensures forall r, c :: InGrid(r, c) ==>
      0 <= Slot(r, c) < grid.Length && grid[Slot(r, c)] == if Crosses(p, q, r, c) then 1 else old(grid[Slot(r, c)])
  {
    forall r, c | InGrid(r, c)
      ensures 0 <= Slot(r, c) < grid.Length
    {
      SlotInjective(r, c, r, c);
    }
    var steps := Steps(p, q);
    for index := 0 to steps + 1
      invariant forall r, c :: InGrid(r, c) ==>
        grid[Slot(r, c)] == if CrossesBefore(p, q, index, r, c) then 1 else old(grid[Slot(r, c)])
    {
      var column := CellOf(Along(p.0, q.0, index, steps));
      var row := CellOf(Along(p.1, q.1, index, steps));
      assert SampleCell(p, q, index) == (row, column);
      MarkCell(grid, row, column);
      forall r, c
        ensures CrossesBefore(p, q, index + 1, r, c) <==> CrossesBefore(p, q, index, r, c) || (r, c) == (row, column)
      {
      }
    }
    assert forall r, c :: CrossesBefore(p, q, steps + 1, r, c) <==> Crosses(p, q, r, c);
  }

  ghost predicate EdgeCrossesBefore(points: seq<Point>, n: int, row: int, column: int) {
    exists k :: 0 <= k < n && k + 1 < |points| && Crosses(points[k], points[k + 1], row, column)
  }

  method MarkEdge(grid: array<int>, points: seq<Point>)
    requires grid.Length == COLUMNS * ROWS
    modifies grid
    ensures forall r, c :: InGrid(r, c) ==>
      0 <= Slot(r, c) < grid.Length
        && grid[Slot(r, c)] == if EdgeCrosses(points, r, c) then 1 else old(grid[Slot(r, c)])
  {
    forall r, c | InGrid(r, c)
      ensures 0 <= Slot(r, c) < grid.Length
    {
      SlotInjective(r, c, r, c);
    }
    var k := 0;
    while k + 1 < |points|
      invariant 0 <= k && (k > 0 ==> k < |points|)
      invariant forall r, c :: InGrid(r, c) ==>
        grid[Slot(r, c)] == if EdgeCrossesBefore(points, k, r, c) then 1 else old(grid[Slot(r, c)])
    {
      MarkSegment(grid, points[k], points[k + 1]);
      forall r, c
        ensures EdgeCrossesBefore(points, k + 1, r, c)
           <==> EdgeCrossesBefore(points, k, r, c) || Crosses(points[k], points[k + 1], r, c)
      {
      }
      k := k + 1;
    }
    assert forall r, c :: EdgeCrossesBefore(points, k, r, c) <==> EdgeCrosses(points, r, c);
  }

  ghost predicate MarkedBefore(edges: seq<seq<Point>>, n: int, row: int, column: int) {
    exists e :: 0 <= e < n && e < |edges| && EdgeCrosses(edges[e], row, column)
  }

  /** A grid that holds a one exactly in the cells the edges pass through. */
  ghost predicate Shows(grid: seq<int>, edges: seq<seq<Point>>) {
    && |grid| == COLUMNS * ROWS
    && forall r, c :: InGrid(r, c) ==>
         0 <= Slot(r, c) < |grid| && grid[Slot(r, c)] == if Marked(edges, r, c) then 1 else 0
  }

  /** `target_grid`: every write is on the grid, and the cells written are those some edge's walk passes through. */
  method TargetGrid(edges: seq<seq<Point>>) returns (grid: array<int>)
    ensures fresh(grid) && Shows(grid[..], edges)
  {
    grid := new int[COLUMNS * ROWS](_ => 0);
    forall r, c | InGrid(r, c)
      ensures 0 <= Slot(r, c) < grid.Length
    {
      SlotInjective(r, c, r, c);
    }
    for e := 0 to |edges|
      invariant forall r, c :: InGrid(r, c) ==> grid[Slot(r, c)] == if MarkedBefore(edges, e, r, c) then 1 else 0
    {
      MarkEdge(grid, edges[e]);
      forall r, c
        ensures MarkedBefore(edges, e + 1, r, c) <==> MarkedBefore(edges, e, r, c) || EdgeCrosses(edges[e], r, c)
      {
      }
    }
    assert forall r, c :: MarkedBefore(edges, |edges|, r, c) <==> Marked(edges, r, c);
  }

  // ── What the walk is like ──────────────────────────────────────────────────

  /** The grid of two lists of edges is the pointwise or of theirs. */
  lemma GridOfBoth(a: seq<seq<Point>>, b: seq<seq<Point>>, row: int, column: int)
    ensures Marked(a + b, row, column) <==> Marked(a, row, column) || Marked(b, row, column)
  {
    if Marked(b, row, column) {
      var e :| 0 <= e < |b| && EdgeCrosses(b[e], row, column);
      assert (a + b)[|a| + e] == b[e];
    }
    if Marked(a, row, column) {
      var e :| 0 <= e < |a| && EdgeCrosses(a[e], row, column);
      assert (a + b)[e] == a[e];
    }
    if Marked(a + b, row, column) {
      var e :| 0 <= e < |a + b| && EdgeCrosses((a + b)[e], row, column);
      assert (a + b)[e] == if e < |a| then a[e] else b[e - |a|];
    }
  }

  lemma QuotientsAddUp(a: int, b: int, n: nat)
    requires n >= 1 && a + b == n
    ensures a as real / n as real + b as real / n as real == 1.0
  {
    var m := n as real;
    assert a as real / m + b as real / m == (a as real + b as real) / m;
  }

  /** Walking an edge backwards visits the same places. */
  lemma AlongReversed(a: real, b: real, index: int, steps: nat)
    requires steps >= 1
    ensures Along(a, b, index, steps) == Along(b, a, steps - index, steps)
  {
    var t, u := index as real / steps as real, (steps - index) as real / steps as real;
    QuotientsAddUp(index, steps - index, steps);
    assert (a - b) * u == (a - b) * (1.0 - t) == (a - b) - (a - b) * t;
    assert (a - b) * t == -((b - a) * t);
  }

  lemma CrossesBackwards(p: Point, q: Point, row: int, column: int)
    requires Crosses(p, q, row, column)
    ensures Crosses(q, p, row, column)
  {
    var index :| 0 <= index <= Steps(p, q) && SampleCell(p, q, index) == (row, column);
    assert Steps(p, q) == Steps(q, p);
    AlongReversed(p.0, q.0, index, Steps(p, q));
    AlongReversed(p.1, q.1, index, Steps(p, q));
    assert SampleCell(q, p, Steps(p, q) - index) == (row, column);
  }

  /** Reversing an edge marks the same cells. */
  lemma CrossesReversed(p: Point, q: Point, row: int, column: int)
    ensures Crosses(p, q, row, column) <==> Crosses(q, p, row, column)
  {
    if Crosses(p, q, row, column) {
      CrossesBackwards(p, q, row, column);
    }
    if Crosses(q, p, row, column) {
      CrossesBackwards(q, p, row, column);
    }
  }

  lemma EdgeBackwards(points: seq<Point>, reversed: seq<Point>, row: int, column: int)
    requires |reversed| == |points| && forall i :: 0 <= i < |points| ==> reversed[i] == points[|points| - 1 - i]
    ensures EdgeCrosses(points, row, column) ==> EdgeCrosses(reversed, row, column)
  {
    if k :| 0 <= k < |points| - 1 && Crosses(points[k], points[k + 1], row, column) {
      CrossesReversed(points[k], points[k + 1], row, column);
      var j := |points| - 2 - k;
      assert reversed[j] == points[k + 1] && reversed[j + 1] == points[k];
    }
  }

  /** And so does listing the points of a whole edge from its other end. */
  lemma EdgeReversed(points: seq<Point>, reversed: seq<Point>, row: int, column: int)
    requires |reversed| == |points| && forall i :: 0 <= i < |points| ==> reversed[i] == points[|points| - 1 - i]
    ensures EdgeCrosses(points, row, column) <==> EdgeCrosses(reversed, row, column)
  {
    EdgeBackwards(points, reversed, row, column);
    EdgeBackwards(reversed, points, row, column);
  }

  lemma NextFraction(d: real, index: int, n: nat)
    requires n >= 1
    ensures d * ((index + 1) as real / n as real) - d * (index as real / n as real) == d / n as real
  {
    var m := n as real;
    var t, u := index as real / m, (index + 1) as real / m;
    assert u - t == 1.0 / m;
    assert d * u - d * t == d * (u - t) == d / m;
  }

  lemma NextAlong(a: real, b: real, index: int, steps: nat)
    requires steps >= 1
    ensures Along(a, b, index + 1, steps) - Along(a, b, index, steps) == (b - a) / steps as real
  {
    NextFraction(b - a, index, steps);
  }

  lemma LessThanTwo(d: real, n: real)
    requires n > 0.0 && AbsReal(d) < 2.0 * n
    ensures AbsReal(d / n) < 2.0
  {
    Divided(d, 2.0 * n, n);
    Divided(-2.0 * n, d, n);
    Cancels(2.0, n);
    Cancels(-2.0, n);
  }

  /** Successive samples are less than two pixels apart on each axis, whatever the end points. */
  lemma SamplesClose(a: real, b: real, index: int, steps: nat, longest: real)
    requires AbsReal(b - a) <= longest && steps == (if longest.Floor == 0 then 1 else longest.Floor)
    requires steps >= 1
    ensures AbsReal(Along(a, b, index + 1, steps) - Along(a, b, index, steps)) < 2.0
  {
    NextAlong(a, b, index, steps);
    LessThanTwo(b - a, steps as real);
  }

  /** So the cells visited form a chain: each is the last one or one of its eight neighbours. */
  lemma CellsChain(p: Point, q: Point, index: int)
    ensures var (row, column) := SampleCell(p, q, index);
      var (r, c) := SampleCell(p, q, index + 1);
      -1 <= r - row <= 1 && -1 <= c - column <= 1
  {
    var longest := MaxReal(AbsReal(q.0 - p.0), AbsReal(q.1 - p.1));
    SamplesClose(p.0, q.0, index, Steps(p, q), longest);
    SamplesClose(p.1, q.1, index, Steps(p, q), longest);
  }

  // ── Axis-aligned edges between whole pixels ────────────────────────────────

  datatype Line = Line(x0: int, y0: int, x1: int, y1: int)

  function Start(l: Line): Point { (l.x0 as real, l.y0 as real) }

  function End(l: Line): Point { (l.x1 as real, l.y1 as real) }

  predicate Aligned(l: Line) { l.x0 == l.x1 || l.y0 == l.y1 }

  predicate Between(a: int, x: int, b: int) { a <= x <= b || b <= x <= a }

  /** The pixels a drawing of the line covers. */
  predicate Covers(l: Line, x: int, y: int) {
    Between(l.x0, x, l.x1) && Between(l.y0, y, l.y1)
  }

  function Length(l: Line): nat {
    var dx, dy := if l.x0 < l.x1 then l.x1 - l.x0 else l.x0 - l.x1, if l.y0 < l.y1 then l.y1 - l.y0 else l.y0 - l.y1;
    dx + dy
  }

  function Sign(a: int, b: int): int { if a < b then 1 else if a > b then -1 else 0 }

  lemma StepsOfLine(l: Line)
    requires Aligned(l)
    ensures Steps(Start(l), End(l)) == if Length(l) == 0 then 1 else Length(l)
  {
    assert MaxReal(AbsReal(End(l).0 - Start(l).0), AbsReal(End(l).1 - Start(l).1)) == Length(l) as real;
  }

  /** A walk over n whole pixels in n steps lands on each of them. */
  lemma AlongWhole(a: int, b: int, index: int, steps: nat)
    requires steps >= 1 && (a == b || (a < b && steps == b - a) || (b < a && steps == a - b))
    ensures Along(a as real, b as real, index, steps) == (a + Sign(a, b) * index) as real
  {
    var n := steps as real;
    assert (b - a) as real == Sign(a, b) as real * n;
    assert n * (index as real / n) == index as real;
  }

  lemma CellOfWhole(x: int)
    ensures CellOf(x as real) == x / 4
  {
    var k := x / 4;
    assert x as real / 4.0 >= k as real && x as real / 4.0 < (k + 1) as real;
  }

  lemma SampleOfLine(l: Line, index: int)
    requires Aligned(l) && 0 <= index <= Steps(Start(l), End(l))
    ensures var x, y := l.x0 + Sign(l.x0, l.x1) * index, l.y0 + Sign(l.y0, l.y1) * index;
      SampleCell(Start(l), End(l), index) == (y / 4, x / 4)
  {
    StepsOfLine(l);
    var steps := Steps(Start(l), End(l));
    AlongWhole(l.x0, l.x1, index, steps);
    AlongWhole(l.y0, l.y1, index, steps);
    CellOfWhole(l.x0 + Sign(l.x0, l.x1) * index);
    CellOfWhole(l.y0 + Sign(l.y0, l.y1) * index);
  }

  /** The walk along such a line passes through exactly the cells that hold a pixel of its drawing. */
  lemma CrossesIffCovers(l: Line, row: int, column: int)
    requires Aligned(l)
    ensures Crosses(Start(l), End(l), row, column)
       <==> exists x, y :: Covers(l, x, y) && y / 4 == row && x / 4 == column
  {
    StepsOfLine(l);
    var p, q := Start(l), End(l);
    if Crosses(p, q, row, column) {
      var index :| 0 <= index <= Steps(p, q) && SampleCell(p, q, index) == (row, column);
      SampleOfLine(l, index);
      assert Covers(l, l.x0 + Sign(l.x0, l.x1) * index, l.y0 + Sign(l.y0, l.y1) * index);
    }
    if x, y :| Covers(l, x, y) && y / 4 == row && x / 4 == column {
      var index := if l.x0 == l.x1 then (y - l.y0) * Sign(l.y0, l.y1) else (x - l.x0) * Sign(l.x0, l.x1);
      SampleOfLine(l, index);
    }
  }
}
