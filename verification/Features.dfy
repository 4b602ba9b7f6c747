/** What the trainer reads off an image, cell by cell (scripts/e2e-mini-train.py, `features`). */
module Features {
  import opened Wrappers
  import opened PngFilter
  import opened PngFile
  import opened Raster
  import opened Ratios

  /** Python's IndexError: the image has no pixel where a window looks. */
  datatype NoPixel = NoPixel

  predicate Fits(pixels: seq<seq<Byte>>) {
    |pixels| >= HEIGHT && forall y :: 0 <= y < HEIGHT ==> |pixels[y]| >= WIDTH
  }

  predicate HasWindow(pixels: seq<seq<Byte>>, row: int, column: int)
    requires InGrid(row, column)
  {
    && row * CELL + CELL <= |pixels|
    && forall y :: row * CELL <= y < row * CELL + CELL ==> column * CELL + CELL <= |pixels[y]|
  }

  function Window(pixels: seq<seq<Byte>>, row: int, column: int): (w: seq<Byte>)
    requires InGrid(row, column) && HasWindow(pixels, row, column)
  {
    seq(CELL * CELL, k requires 0 <= k < CELL * CELL => pixels[row * CELL + k / CELL][column * CELL + k % CELL])
  }

  function Sum(s: seq<Byte>): (n: nat)
    ensures n <= 255 * |s|
  {
    if s == [] then 0 else Sum(s[..|s| - 1]) + s[|s| - 1]
  }

  function Min(s: seq<Byte>): (m: Byte)
    requires s != []
    ensures m in s && forall b :: b in s ==> m <= b
  {
    var n := |s| - 1;
    if n == 0 then s[0]
    else
      var least := Min(s[..n]);
      assert forall b :: b in s ==> b in s[..n] || b == s[n];
      if s[n] < least then s[n] else least
  }

  function Mean(w: seq<Byte>): (m: real)
    requires w != []
    ensures 0.0 <= m <= 1.0
  {
    MeanInRange(Sum(w), |w|);
    1.0 - Sum(w) as real / (|w| as real * 255.0)
  }

  lemma MeanInRange(sum: nat, n: nat)
    requires n > 0 && sum <= 255 * n
    ensures 0.0 <= sum as real / (n as real * 255.0) <= 1.0
  {
    DividedWithin(0.0, sum as real, 1.0, n as real * 255.0);
  }

  function Darkest(w: seq<Byte>): (d: real)
    requires w != []
    ensures 0.0 <= d <= 1.0
  {
    1.0 - Min(w) as real / 255.0
  }

  function DarkAt(pixels: seq<seq<Byte>>, row: int, column: int): (d: real)
    requires Fits(pixels)
    ensures 0.0 <= d <= 1.0
  {
    if InGrid(row, column) then Darkest(Window(pixels, row, column)) else 0.0
  }

  function Square(x: real): real { x * x }

  lemma SquareInRange(d: real)
    requires 0.0 <= d <= 1.0
    ensures 0.0 <= Square(d) <= 1.0
  {
    assert d * d <= d * 1.0;
  }

  /** Bias, darkest, mean, the four neighbours' darkest, darkest squared. */
  function Assembled(d: real, mean: real, above: real, below: real, left: real, right: real): (f: seq<real>)
    ensures |f| == 8 && f[0] == 1.0 && f[1] == d
  {
    [1.0, d, mean, above, below, left, right, Square(d)]
  }

  /** The eight numbers of one cell. */
  function FeaturesOf(pixels: seq<seq<Byte>>, row: int, column: int): (f: seq<real>)
    requires Fits(pixels) && InGrid(row, column)
  {
    Assembled(
      DarkAt(pixels, row, column), Mean(Window(pixels, row, column)),
      DarkAt(pixels, row - 1, column), DarkAt(pixels, row + 1, column),
      DarkAt(pixels, row, column - 1), DarkAt(pixels, row, column + 1))
  }

  // ── What each of them reads ────────────────────────────────────────────────

  predicate HasBlock(pixels: seq<seq<Byte>>, top: int, left: int) {
    && 0 <= top && 0 <= left && top + CELL <= |pixels|
    && forall y :: top <= y < top + CELL ==> left + CELL <= |pixels[y]|
  }

  /** The darkness of the darkest of the sixteen pixels from there on: of one of them, and of none more. */
  ghost predicate DarkestOf(d: real, pixels: seq<seq<Byte>>, top: int, left: int)
    requires HasBlock(pixels, top, left)
  {
    && (exists y, x :: top <= y < top + CELL && left <= x < left + CELL && d == 1.0 - pixels[y][x] as real / 255.0)
    && forall y, x :: top <= y < top + CELL && left <= x < left + CELL ==> d >= 1.0 - pixels[y][x] as real / 255.0
  }

  lemma DarkestReads(pixels: seq<seq<Byte>>, row: int, column: int)
    requires InGrid(row, column) && Fits(pixels)
    ensures HasBlock(pixels, row * CELL, column * CELL)
    ensures DarkestOf(Darkest(Window(pixels, row, column)), pixels, row * CELL, column * CELL)
  {
    var top, left, w := row * CELL, column * CELL, Window(pixels, row, column);
    var d := Darkest(w);
    var k :| 0 <= k < |w| && w[k] == Min(w);
    assert pixels[top + k / CELL][left + k % CELL] == Min(w);
    forall y, x | top <= y < top + CELL && left <= x < left + CELL
      ensures d >= 1.0 - pixels[y][x] as real / 255.0
    {
      var n := (y - top) * CELL + (x - left);
      assert n / CELL == y - top && n % CELL == x - left;
      assert w[n] == pixels[y][x] && w[n] in w;
      Scaled(Min(w), pixels[y][x]);
    }
  }

  lemma Scaled(a: Byte, b: Byte)
    requires a <= b
    ensures a as real / 255.0 <= b as real / 255.0
  {
  }

  /** A neighbour's darkest pixel, and none where there is no neighbour. */
  ghost predicate Neighbour(d: real, pixels: seq<seq<Byte>>, row: int, column: int)
    requires Fits(pixels)
  {
    if 0 <= row < 12 && 0 <= column < 16
    then HasBlock(pixels, 4 * row, 4 * column) && DarkestOf(d, pixels, 4 * row, 4 * column)
    else d == 0.0
  }

  /** Each of the eight numbers, and where it comes from: the cell above, below, to the left and to the right. */
  lemma FeaturesRead(pixels: seq<seq<Byte>>, row: int, column: int)
    requires Fits(pixels) && InGrid(row, column)
    ensures var f := FeaturesOf(pixels, row, column);
      && |f| == 8 && f[0] == 1.0 && f[7] == Square(f[1])
      && Neighbour(f[1], pixels, row, column) && MeanOf(f[2], pixels, row * 4, column * 4)
      && Neighbour(f[3], pixels, row - 1, column) && Neighbour(f[4], pixels, row + 1, column)
      && Neighbour(f[5], pixels, row, column - 1) && Neighbour(f[6], pixels, row, column + 1)
  {
    OwnReads(pixels, row, column);
    MeanIsRead(pixels, row, column);
    AboveReads(pixels, row, column);
    BesideReads(pixels, row, column);
  }

  /** The mean of the sixteen pixels from there on, line by line. */
  ghost predicate MeanOf(m: real, pixels: seq<seq<Byte>>, top: int, left: int) {
    HasBlock(pixels, top, left)
    && exists w :: |w| == 16 && m == Mean(w) && forall k :: 0 <= k < 16 ==> w[k] == pixels[top + k / 4][left + k % 4]
  }

  lemma MeanIsRead(pixels: seq<seq<Byte>>, row: int, column: int)
    requires Fits(pixels) && InGrid(row, column)
    ensures var f := FeaturesOf(pixels, row, column);
      |f| == 8 && MeanOf(f[2], pixels, row * 4, column * 4)
  {
    var w := Window(pixels, row, column);
    assert forall k :: 0 <= k < 16 ==> w[k] == pixels[row * 4 + k / 4][column * 4 + k % 4];
  }

  lemma OwnReads(pixels: seq<seq<Byte>>, row: int, column: int)
    requires Fits(pixels) && InGrid(row, column)
    ensures var f := FeaturesOf(pixels, row, column);
      |f| == 8 && f[0] == 1.0 && f[7] == Square(f[1]) && Neighbour(f[1], pixels, row, column)
  {
    NeighbourReads(pixels, row, column);
  }

  lemma AboveReads(pixels: seq<seq<Byte>>, row: int, column: int)
    requires Fits(pixels) && InGrid(row, column)
    ensures var f := FeaturesOf(pixels, row, column);
      |f| == 8 && Neighbour(f[3], pixels, row - 1, column) && Neighbour(f[4], pixels, row + 1, column)
  {
    NeighbourReads(pixels, row - 1, column);
    NeighbourReads(pixels, row + 1, column);
  }

  lemma BesideReads(pixels: seq<seq<Byte>>, row: int, column: int)
    requires Fits(pixels) && InGrid(row, column)
    ensures var f := FeaturesOf(pixels, row, column);
      |f| == 8 && Neighbour(f[5], pixels, row, column - 1) && Neighbour(f[6], pixels, row, column + 1)
  {
    NeighbourReads(pixels, row, column - 1);
    NeighbourReads(pixels, row, column + 1);
  }

  lemma NeighbourReads(pixels: seq<seq<Byte>>, row: int, column: int)
    requires Fits(pixels)
    ensures Neighbour(DarkAt(pixels, row, column), pixels, row, column)
  {
    if InGrid(row, column) {
      DarkestReads(pixels, row, column);
    }
  }

  lemma {:induction false} SumUpdated(s: seq<Byte>, i: nat, b: Byte)
    requires i < |s|
    ensures Sum(s[i := b]) == Sum(s) - s[i] + b
  {
    var n := |s| - 1;
    if i < n {
      assert s[i := b][..n] == s[..n][i := b];
      SumUpdated(s[..n], i, b);
    } else {
      assert s[i := b][..n] == s[..n];
    }
  }

  lemma {:induction false} SumConstant(n: nat, b: Byte)
    ensures Sum(seq(n, _ => b)) == n * b
  {
    if n > 0 {
      assert seq(n, _ => b)[..n - 1] == seq(n - 1, _ => b);
      SumConstant(n - 1, b);
    }
  }

  /**
   The mean darkness of a cell: it moves with each of its sixteen pixels, and with each the same, and
   where they are all one shade it is the darkness of that shade.
   */
  lemma MeanReads(w: seq<Byte>, i: nat, b: Byte)
    requires i < |w| == 16
    ensures Mean(w[i := b]) == Mean(w) + (w[i] - b) as real / 4080.0
    ensures (forall k :: 0 <= k < 16 ==> w[k] == b) ==> Mean(w) == 1.0 - b as real / 255.0
  {
    SumUpdated(w, i, b);
    if forall k :: 0 <= k < 16 ==> w[k] == b {
      SumConstant(16, b);
      assert w == seq(16, _ => b);
    }
  }

  predicate UnitRow(f: seq<real>) {
    |f| == 8 && forall i :: 0 <= i < 8 ==> 0.0 <= f[i] <= 1.0
  }

  lemma AssembledInRange(d: real, mean: real, above: real, below: real, left: real, right: real)
    requires 0.0 <= d <= 1.0 && 0.0 <= mean <= 1.0 && 0.0 <= above <= 1.0
    requires 0.0 <= below <= 1.0 && 0.0 <= left <= 1.0 && 0.0 <= right <= 1.0
    ensures UnitRow(Assembled(d, mean, above, below, left, right))
  {
    SquareInRange(d);
    var f := Assembled(d, mean, above, below, left, right);
    assert f[2] == mean && f[3] == above && f[4] == below && f[5] == left && f[6] == right && f[7] == Square(d);
  }

  /** Every feature lies between zero and one. */
  lemma FeaturesInRange(pixels: seq<seq<Byte>>, row: int, column: int)
    requires Fits(pixels) && InGrid(row, column)
    ensures UnitRow(FeaturesOf(pixels, row, column))
  {
    AssembledInRange(
      DarkAt(pixels, row, column), Mean(Window(pixels, row, column)),
      DarkAt(pixels, row - 1, column), DarkAt(pixels, row + 1, column),
      DarkAt(pixels, row, column - 1), DarkAt(pixels, row, column + 1));
  }

  function At(grid: seq<seq<real>>, row: int, column: int): real
    requires FullGrid(grid)
  {
    if InGrid(row, column) then grid[row][column] else 0.0
  }

  method Look(pixels: seq<seq<Byte>>, row: int, column: int) returns (window: seq<Byte>)
    requires InGrid(row, column) && HasWindow(pixels, row, column)
    ensures |window| == CELL * CELL
    ensures forall k :: 0 <= k < CELL * CELL ==> window[k] == pixels[row * CELL + k / CELL][column * CELL + k % CELL]
  {
    window := [];
    for dy := 0 to CELL
      invariant |window| == dy * CELL
      invariant forall k :: 0 <= k < |window| ==> window[k] == pixels[row * CELL + k / CELL][column * CELL + k % CELL]
    {
      for dx := 0 to CELL
        invariant |window| == dy * CELL + dx
        invariant forall k :: 0 <= k < |window| ==> window[k] == pixels[row * CELL + k / CELL][column * CELL + k % CELL]
      {
        assert (dy * CELL + dx) / CELL == dy && (dy * CELL + dx) % CELL == dx;
        window := window + [pixels[row * CELL + dy][column * CELL + dx]];
      }
    }
  }

  lemma FitsIffWindows(pixels: seq<seq<Byte>>)
    ensures Fits(pixels) <==> forall row, column :: InGrid(row, column) ==> HasWindow(pixels, row, column)
  {
    if forall row, column :: InGrid(row, column) ==> HasWindow(pixels, row, column) {
      assert InGrid(ROWS - 1, COLUMNS - 1) && HasWindow(pixels, ROWS - 1, COLUMNS - 1);
      forall y | 0 <= y < HEIGHT
        ensures |pixels[y]| >= WIDTH
      {
        assert InGrid(y / CELL, COLUMNS - 1) && HasWindow(pixels, y / CELL, COLUMNS - 1);
      }
    }
  }

  ghost predicate RowSurveyed(pixels: seq<seq<Byte>>, row: int, means: seq<real>, darks: seq<real>)
    requires 0 <= row < ROWS
  {
    && |means| == |darks| <= COLUMNS
    && (forall c :: 0 <= c < |darks| ==> HasWindow(pixels, row, c))
    && (forall c :: 0 <= c < |darks| ==> means[c] == Mean(Window(pixels, row, c)))
    && (forall c :: 0 <= c < |darks| ==> darks[c] == Darkest(Window(pixels, row, c)))
  }

  method SurveyRow(pixels: seq<seq<Byte>>, row: int) returns (r: Result<(seq<real>, seq<real>), NoPixel>)
    requires 0 <= row < ROWS
    ensures r.Ok? ==> RowSurveyed(pixels, row, r.value.0, r.value.1) && |r.value.0| == COLUMNS
    ensures r.Err? ==> exists c :: InGrid(row, c) && !HasWindow(pixels, row, c)
  {
    var meanRow: seq<real>, darkRow: seq<real> := [], [];
    for column := 0 to COLUMNS
      invariant |darkRow| == column && RowSurveyed(pixels, row, meanRow, darkRow)
    {
      if !HasWindow(pixels, row, column) {
        return Err(NoPixel);
      }
      var window := Look(pixels, row, column);
      assert window == Window(pixels, row, column);
      meanRow := meanRow + [Mean(window)];
      darkRow := darkRow + [Darkest(window)];
    }
    return Ok((meanRow, darkRow));
  }

  ghost predicate Surveyed(pixels: seq<seq<Byte>>, mean: seq<seq<real>>, darkest: seq<seq<real>>) {
    && |mean| == |darkest| <= ROWS
    && forall r :: 0 <= r < |darkest| ==> |darkest[r]| == COLUMNS && RowSurveyed(pixels, r, mean[r], darkest[r])
  }

  method Survey(pixels: seq<seq<Byte>>) returns (r: Result<(seq<seq<real>>, seq<seq<real>>), NoPixel>)
    ensures r.Ok? <==> Fits(pixels)
    ensures r.Ok? ==> Surveyed(pixels, r.value.0, r.value.1) && |r.value.0| == ROWS
  {
    FitsIffWindows(pixels);
    var mean: seq<seq<real>>, darkest: seq<seq<real>> := [], [];
    for row := 0 to ROWS
      invariant |darkest| == row && Surveyed(pixels, mean, darkest)
    {
      var surveyed := SurveyRow(pixels, row);
      if surveyed.Err? {
        return Err(surveyed.error);
      }
      mean, darkest := mean + [surveyed.value.0], darkest + [surveyed.value.1];
    }
    forall row, column | InGrid(row, column)
      ensures HasWindow(pixels, row, column)
    {
      assert RowSurveyed(pixels, row, mean[row], darkest[row]);
    }
    return Ok((mean, darkest));
  }

  predicate FullGrid(grid: seq<seq<real>>) {
    |grid| == ROWS && forall r :: 0 <= r < ROWS ==> |grid[r]| == COLUMNS
  }

  function RowOf(mean: seq<seq<real>>, darkest: seq<seq<real>>, row: int, column: int): seq<real>
    requires FullGrid(mean) && FullGrid(darkest)
  {
    Assembled(
      At(darkest, row, column), At(mean, row, column),
      At(darkest, row - 1, column), At(darkest, row + 1, column),
      At(darkest, row, column - 1), At(darkest, row, column + 1))
  }

  lemma SurveyIsFull(pixels: seq<seq<Byte>>, mean: seq<seq<real>>, darkest: seq<seq<real>>)
    requires Surveyed(pixels, mean, darkest) && |mean| == ROWS
    ensures FullGrid(mean) && FullGrid(darkest)
  {
    forall r | 0 <= r < ROWS
      ensures |mean[r]| == COLUMNS && |darkest[r]| == COLUMNS
    {
      assert RowSurveyed(pixels, r, mean[r], darkest[r]);
    }
  }

  lemma DarkReadsBack(pixels: seq<seq<Byte>>, mean: seq<seq<real>>, darkest: seq<seq<real>>, row: int, column: int)
    requires Fits(pixels) && Surveyed(pixels, mean, darkest) && FullGrid(mean) && FullGrid(darkest)
    ensures At(darkest, row, column) == DarkAt(pixels, row, column)
    ensures InGrid(row, column) ==> At(mean, row, column) == Mean(Window(pixels, row, column))
  {
    if InGrid(row, column) {
      assert RowSurveyed(pixels, row, mean[row], darkest[row]);
    }
  }

  lemma RowReadsBack(pixels: seq<seq<Byte>>, mean: seq<seq<real>>, darkest: seq<seq<real>>, row: int, column: int)
    requires Fits(pixels) && Surveyed(pixels, mean, darkest) && FullGrid(mean) && FullGrid(darkest)
    requires InGrid(row, column)
    ensures RowOf(mean, darkest, row, column) == FeaturesOf(pixels, row, column)
  {
    DarkReadsBack(pixels, mean, darkest, row, column);
    DarkReadsBack(pixels, mean, darkest, row - 1, column);
    DarkReadsBack(pixels, mean, darkest, row + 1, column);
    DarkReadsBack(pixels, mean, darkest, row, column - 1);
    DarkReadsBack(pixels, mean, darkest, row, column + 1);
  }

  /** The rows so far, one per cell, row by row. */
  ghost predicate Listed(pixels: seq<seq<Byte>>, rows: seq<seq<real>>)
    requires Fits(pixels) && |rows| <= ROWS * COLUMNS
  {
    forall k :: 0 <= k < |rows| ==> rows[k] == FeaturesOf(pixels, k / COLUMNS, k % COLUMNS)
  }

  lemma ListOneMore(pixels: seq<seq<Byte>>, rows: seq<seq<real>>, f: seq<real>)
    requires Fits(pixels) && |rows| < ROWS * COLUMNS && Listed(pixels, rows)
    requires f == FeaturesOf(pixels, |rows| / COLUMNS, |rows| % COLUMNS)
    ensures Listed(pixels, rows + [f])
  {
    var more := rows + [f];
    forall k | 0 <= k < |more|
      ensures more[k] == FeaturesOf(pixels, k / COLUMNS, k % COLUMNS)
    {
      if k < |rows| {
        assert more[k] == rows[k];
      } else {
        assert k == |rows| && more[k] == f;
      }
    }
  }

  /** One feature row per cell, and an error exactly when some window has a missing pixel. */
  method Extract(pixels: seq<seq<Byte>>) returns (r: Result<seq<seq<real>>, NoPixel>)
    ensures r.Ok? <==> Fits(pixels)
    ensures r.Ok? ==> |r.value| == ROWS * COLUMNS && Listed(pixels, r.value)
  {
    var surveyed := Survey(pixels);
    if surveyed.Err? {
      return Err(surveyed.error);
    }
    var mean, darkest := surveyed.value.0, surveyed.value.1;
    SurveyIsFull(pixels, mean, darkest);
    var rows: seq<seq<real>> := [];
    for k := 0 to ROWS * COLUMNS
      invariant |rows| == k && Listed(pixels, rows)
    {
      var f := RowOf(mean, darkest, k / COLUMNS, k % COLUMNS);
      RowReadsBack(pixels, mean, darkest, k / COLUMNS, k % COLUMNS);
      ListOneMore(pixels, rows, f);
      rows := rows + [f];
    }
    return Ok(rows);
  }
}
