/** The labels derived from a plan's annotations agree with the image that is served back. */
module Labels {
  import opened Wrappers
  import PngFile
  import opened Raster
  import opened Plans
  import opened Features

  // ── Any drawing made of axis-aligned lines ─────────────────────────────────

  function PointsOf(lines: seq<Line>): (edges: seq<seq<Point>>)
    ensures |edges| == |lines| && forall k :: 0 <= k < |lines| ==> edges[k] == [Start(lines[k]), End(lines[k])]
  {
    seq(|lines|, k requires 0 <= k < |lines| => [Start(lines[k]), End(lines[k])])
  }

  predicate InCell(x: int, y: int, row: int, column: int) {
    y / CELL == row && x / CELL == column
  }

  /** The derived label of a cell says whether the drawing covers one of its pixels. */
  lemma MarkedIffDrawn(lines: seq<Line>, row: int, column: int)
    requires forall k :: 0 <= k < |lines| ==> Aligned(lines[k])
    ensures Marked(PointsOf(lines), row, column)
       <==> exists x, y :: CoveredBy(lines, x, y) && InCell(x, y, row, column)
  {
    var edges := PointsOf(lines);
    if Marked(edges, row, column) {
      var e :| 0 <= e < |edges| && EdgeCrosses(edges[e], row, column);
      CrossesIffCovers(lines[e], row, column);
      var x, y :| Covers(lines[e], x, y) && y / 4 == row && x / 4 == column;
      assert CoveredBy(lines, x, y) && InCell(x, y, row, column);
    }
    if x, y :| CoveredBy(lines, x, y) && InCell(x, y, row, column) {
      var k :| 0 <= k < |lines| && Covers(lines[k], x, y);
      CrossesIffCovers(lines[k], row, column);
      assert Crosses(edges[k][0], edges[k][1], row, column);
      assert EdgeCrosses(edges[k], row, column);
    }
  }

  // ── This plan: the clutter hides part of a wall, but never all of it in a cell ──

  lemma WallsAligned(seed: int)
    ensures forall k :: 0 <= k < |Walls(seed)| ==> Aligned(Walls(seed)[k])
  {
  }

  lemma ClutterOverWall(seed: int, x: int, y: int)
    requires CoveredBy(Walls(seed), x, y) && Cluttered(seed, x, y)
    ensures x == Divider(seed) == 20
  {
    var k :| 0 <= k < |Walls(seed)| && Covers(Walls(seed)[k], x, y);
    assert k == 4;
  }

  /** A wall in a cell shows there, even where the clutter is painted over it. */
  lemma WallShows(seed: int, x: int, y: int, row: int, column: int)
    requires InGrid(row, column) && CoveredBy(Walls(seed), x, y) && InCell(x, y, row, column)
    ensures exists v, u :: InCell(u, v, row, column) && Shade(seed, u, v) == INK
  {
    if !Cluttered(seed, x, y) {
      assert InCell(x, y, row, column) && Shade(seed, x, y) == INK;
    } else {
      ClutterOverWall(seed, x, y);
      var v := if y < 12 then 8 else 14;
      assert Covers(Walls(seed)[4], x, v);
      assert !Cluttered(seed, x, v);
      assert InCell(x, v, row, column) && Shade(seed, x, v) == INK;
    }
  }

  predicate HasInk(seed: int, row: int, column: int)
    requires InGrid(row, column)
  {
    exists v, u :: row * CELL <= v < row * CELL + CELL && column * CELL <= u < column * CELL + CELL
                   && Shade(seed, u, v) == INK
  }

  lemma MarkedIffInk(seed: int, row: int, column: int)
    requires InGrid(row, column)
    ensures Marked(PointsOf(Walls(seed)), row, column) <==> HasInk(seed, row, column)
  {
    WallsAligned(seed);
    MarkedIffDrawn(Walls(seed), row, column);
    if x, y :| CoveredBy(Walls(seed), x, y) && InCell(x, y, row, column) {
      WallShows(seed, x, y, row, column);
      var v, u :| InCell(u, v, row, column) && Shade(seed, u, v) == INK;
      assert row * CELL <= v < row * CELL + CELL && column * CELL <= u < column * CELL + CELL;
    }
    if HasInk(seed, row, column) {
      var v, u :| row * CELL <= v < row * CELL + CELL && column * CELL <= u < column * CELL + CELL
        && Shade(seed, u, v) == INK;
      assert CoveredBy(Walls(seed), u, v) && InCell(u, v, row, column);
    }
  }

  lemma PictureFits(seed: int)
    ensures Fits(Picture(seed)) && PngFile.NearlyShaped(Picture(seed), PngFile.WIDTH, PngFile.HEIGHT)
  {
  }

  /** The window lists the pixels of its cell line by line. */
  lemma WindowAt(seed: int, row: int, column: int, k: nat, x: nat, y: nat)
    requires InGrid(row, column) && Fits(Picture(seed)) && k < CELL * CELL
    requires row * CELL <= y && column * CELL <= x < column * CELL + CELL
    requires k == (y - row * CELL) * CELL + (x - column * CELL)
    ensures Window(Picture(seed), row, column)[k] == Shade(seed, x, y)
  {
    assert k / CELL == y - row * CELL && k % CELL == x - column * CELL;
    assert y < PngFile.HEIGHT && x < PngFile.WIDTH && Picture(seed)[y][x] == Shade(seed, x, y);
  }

  lemma WindowHoldsInk(seed: int, row: int, column: int)
    requires InGrid(row, column) && Fits(Picture(seed))
    ensures INK in Window(Picture(seed), row, column) <==> HasInk(seed, row, column)
  {
    var w := Window(Picture(seed), row, column);
    if HasInk(seed, row, column) {
      var v, u :| row * CELL <= v < row * CELL + CELL && column * CELL <= u < column * CELL + CELL
        && Shade(seed, u, v) == INK;
      WindowAt(seed, row, column, (v - row * CELL) * CELL + (u - column * CELL), u, v);
    }
    if INK in w {
      var k :| 0 <= k < |w| && w[k] == INK;
      WindowAt(seed, row, column, k, column * CELL + k % CELL, row * CELL + k / CELL);
    }
  }

  lemma ShadesInWindow(seed: int, row: int, column: int)
    requires InGrid(row, column) && Fits(Picture(seed))
    ensures forall b :: b in Window(Picture(seed), row, column) ==> b == INK || b >= CLUTTER
  {
    var w := Window(Picture(seed), row, column);
    forall b | b in w
      ensures b == INK || b >= CLUTTER
    {
      var k :| 0 <= k < |w| && w[k] == b;
      WindowAt(seed, row, column, k, column * CELL + k % CELL, row * CELL + k / CELL);
    }
  }

  const DARK: real := 1.0 - 20.0 / 255.0
  const LIGHT: real := 1.0 - 170.0 / 255.0

  /** The second feature of a cell separates the two labels, for every seed. */
  lemma DarkestSeparates(seed: int, row: int, column: int)
    requires InGrid(row, column) && Fits(Picture(seed))
    ensures var d := FeaturesOf(Picture(seed), row, column)[1];
      if Marked(PointsOf(Walls(seed)), row, column) then d == DARK else d <= LIGHT < DARK
  {
    MarkedIffInk(seed, row, column);
    WindowHoldsInk(seed, row, column);
    ShadesInWindow(seed, row, column);
  }

  lemma LabelledEdges(seed: int)
    ensures EdgesIn(Labels(seed)) == Ok(PointsOf(Walls(seed)))
  {
    var a, walls := Labels(seed), Walls(seed);
    assert forall k :: 0 <= k < 5 ==> IsEdge(a[k]) && a[k].points == [Start(walls[k]), End(walls[k])];
    assert a[5].id[0] != "edge"[0];
    FirstEdges(a, 5);
    assert a == a[..5] + [a[5]];
    assert EdgesIn(a) == EdgesIn(a[..5]);
    assert EdgesIn(a).value == PointsOf(walls);
  }

  predicate IsEdge(a: Annotation) { NamesEdge(a) && a.Edge? }

  lemma {:induction false} FirstEdges(annotations: seq<Annotation>, n: nat)
    requires n <= |annotations| && forall k :: 0 <= k < n ==> IsEdge(annotations[k])
    ensures var edges := EdgesIn(annotations[..n]);
      edges.Ok? && |edges.value| == n
      && forall k :: 0 <= k < n ==> IsEdge(annotations[k]) && edges.value[k] == annotations[k].points
  {
    if n > 0 {
      FirstEdges(annotations, n - 1);
      assert annotations[..n][..n - 1] == annotations[..n - 1];
    }
  }

  predicate TellsApart(dark: real, target: int) {
    if target == 1 then dark == DARK else target == 0 && dark <= LIGHT
  }

  /** A label per cell, and in every cell the second feature of the served image tells the labels apart. */
  ghost predicate Separated(rows: seq<seq<real>>, labels: seq<int>) {
    && |rows| == |labels| == ROWS * COLUMNS
    && (forall k :: 0 <= k < ROWS * COLUMNS ==> UnitRow(rows[k]))
    && (forall k :: 0 <= k < ROWS * COLUMNS ==> TellsApart(rows[k][1], labels[k]))
  }

  /**
   From one seed to labelled samples: draw and encode, decode what was stored, derive the labels,
   read the features.
   */
  method Prepare(z: PngFile.Zlib, seed: int) returns (stored: bool, rows: seq<seq<real>>, labels: array<int>)
    requires PngFile.Faithful(z)
    ensures stored <==> PngFile.EncodedFile(z, Picture(seed)).Ok?
    ensures stored ==> Separated(rows, labels[..])
  {
    var file, annotations := Plan(z, seed);
    rows, labels := [], new int[0];
    if file.Err? {
      return false, rows, labels;
    }
    var decoded := PngFile.Decode(z, file.value);
    PictureFits(seed);
    PngFile.RoundTrip(z, Picture(seed));
    var extracted := Extract(decoded.value);
    var edges := CollectEdges(annotations);
    LabelledEdges(seed);
    labels := TargetGrid(edges.value);
    SamplesSeparate(seed, extracted.value, labels[..]);
    return true, extracted.value, labels;
  }

  lemma SamplesSeparate(seed: int, rows: seq<seq<real>>, labels: seq<int>)
    requires Fits(Picture(seed)) && |rows| == ROWS * COLUMNS && Listed(Picture(seed), rows)
    requires Shows(labels, PointsOf(Walls(seed)))
    ensures Separated(rows, labels)
  {
    forall k | 0 <= k < ROWS * COLUMNS
      ensures UnitRow(rows[k])
      ensures TellsApart(rows[k][1], labels[k])
    {
      var row, column := k / COLUMNS, k % COLUMNS;
      assert InGrid(row, column) && Slot(row, column) == k;
      assert rows[k] == FeaturesOf(Picture(seed), row, column);
      DarkestSeparates(seed, row, column);
      FeaturesInRange(Picture(seed), row, column);
    }
  }
}
