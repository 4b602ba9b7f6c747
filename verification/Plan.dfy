/** The drawings a trainer is shown, and the labels drawn with them (scripts/e2e-mini-train.py, `plan`). */
module Plans {
  import opened Wrappers
  import opened PngFilter
  import opened PngFile
  import opened Raster

  const PAPER: Byte := 245
  const INK: Byte := 20
  const CLUTTER: Byte := 170
  const LEFT: int := 6
  const TOP: int := 5
  const RIGHT: int := WIDTH - 7
  const BOTTOM: int := HEIGHT - 6

  datatype Annotation =
    | Edge(id: string, points: seq<Point>, role: string)
    | Ignore(id: string, exterior: seq<Point>)

  function Divider(seed: int): int { 20 + (seed % 5) * 5 }

  function BoxLeft(seed: int): int { 9 + (seed % 3) * 4 }

  function Walls(seed: int): seq<Line> {
    [ Line(LEFT, TOP, RIGHT, TOP),
      Line(LEFT, BOTTOM, RIGHT, BOTTOM),
      Line(LEFT, TOP, LEFT, BOTTOM),
      Line(RIGHT, TOP, RIGHT, BOTTOM),
      Line(Divider(seed), TOP, Divider(seed), BOTTOM) ]
  }

  predicate Cluttered(seed: int, x: int, y: int) {
    TOP + 4 <= y < TOP + 9 && BoxLeft(seed) <= x < BoxLeft(seed) + 5
  }

  predicate CoveredBy(lines: seq<Line>, x: int, y: int) {
    exists k :: 0 <= k < |lines| && Covers(lines[k], x, y)
  }

  /** Clutter over ink over paper. */
  function Shade(seed: int, x: int, y: int): Byte {
    if Cluttered(seed, x, y) then CLUTTER else if CoveredBy(Walls(seed), x, y) then INK else PAPER
  }

  function Picture(seed: int): (pixels: seq<seq<Byte>>) {
    seq(HEIGHT, y => seq(WIDTH, x => Shade(seed, x, y)))
  }

  function LabelOf(id: string, l: Line, role: string): Annotation {
    Edge(id, [Start(l), End(l)], role)
  }

  function Labels(seed: int): seq<Annotation> {
    var walls, box := Walls(seed), BoxLeft(seed) as real;
    [ LabelOf("edge_n", walls[0], "outer"),
      LabelOf("edge_s", walls[1], "outer"),
      LabelOf("edge_w", walls[2], "outer"),
      LabelOf("edge_e", walls[3], "outer"),
      LabelOf("edge_div", walls[4], "inner"),
      Ignore("ignore_1", [(box, 9.0), (box + 5.0, 9.0), (box + 5.0, 14.0), (box, 14.0)]) ]
  }

  // ── The labels are true of the pixels ──────────────────────────────────────

  predicate BetweenReal(a: real, x: real, b: real) { a <= x <= b || b <= x <= a }

  /** On the segment between two points, if it is axis-aligned. */
  predicate OnSegment(p: Point, q: Point, x: int, y: int) {
    BetweenReal(p.0, x as real, q.0) && BetweenReal(p.1, y as real, q.1)
  }

  /** An annotation of an edge covers the pixels along its points. */
  predicate OnEdge(a: Annotation, x: int, y: int) {
    a.Edge? && exists k :: 0 <= k < |a.points| - 1 && OnSegment(a.points[k], a.points[k + 1], x, y)
  }

  /** An annotation to ignore covers the pixels of its rectangle, but for its outline's last row and column. */
  predicate InRectangle(a: Annotation, x: int, y: int) {
    && a.Ignore? && |a.exterior| == 4
    && a.exterior[1] == (a.exterior[2].0, a.exterior[0].1) && a.exterior[3] == (a.exterior[0].0, a.exterior[2].1)
    && a.exterior[0].0 <= x as real < a.exterior[2].0 && a.exterior[0].1 <= y as real < a.exterior[2].1
  }

  lemma WallIsEdge(seed: int, k: nat, x: int, y: int)
    requires k < 5
    ensures OnEdge(Labels(seed)[k], x, y) <==> Covers(Walls(seed)[k], x, y)
  {
    var a, l := Labels(seed)[k], Walls(seed)[k];
    assert a.points == [Start(l), End(l)];
    assert OnSegment(a.points[0], a.points[1], x, y) <==> Covers(l, x, y);
  }

  lemma EdgedIffCovered(seed: int, x: int, y: int)
    ensures (exists a :: a in Labels(seed) && OnEdge(a, x, y)) <==> CoveredBy(Walls(seed), x, y)
  {
    var labels := Labels(seed);
    forall k: nat | k < 5
      ensures OnEdge(labels[k], x, y) <==> Covers(Walls(seed)[k], x, y)
    {
      WallIsEdge(seed, k, x, y);
    }
    if a :| a in labels && OnEdge(a, x, y) {
      var k :| 0 <= k < 6 && labels[k] == a;
      assert k < 5 && Covers(Walls(seed)[k], x, y);
    }
    if k :| 0 <= k < 5 && Covers(Walls(seed)[k], x, y) {
      assert labels[k] in labels && OnEdge(labels[k], x, y);
    }
  }

  lemma IgnoredIffCluttered(seed: int, x: int, y: int)
    ensures (exists a :: a in Labels(seed) && InRectangle(a, x, y)) <==> Cluttered(seed, x, y)
  {
    var labels := Labels(seed);
    assert labels[5] in labels && (InRectangle(labels[5], x, y) <==> Cluttered(seed, x, y));
    assert forall k :: 0 <= k < 5 ==> labels[k].Edge?;
  }

  /**
   The image and its labels tell the same: a pixel is clutter exactly inside the region to ignore,
   and elsewhere it is ink exactly where some edge is labelled, and paper where none is.
   */
  lemma LabelsAreTrue(seed: int, x: int, y: int)
    requires 0 <= x < WIDTH && 0 <= y < HEIGHT
    ensures var labels, shade := Labels(seed), Picture(seed)[y][x];
      var ignored := exists a :: a in labels && InRectangle(a, x, y);
      var edged := exists a :: a in labels && OnEdge(a, x, y);
      shade == if ignored then 170 else if edged then 20 else 245
  {
    assert Picture(seed)[y][x] == Shade(seed, x, y);
    EdgedIffCovered(seed, x, y);
    IgnoredIffCluttered(seed, x, y);
  }

  /** No point of an edge is beyond any point of another in the direction the one is named after. */
  predicate Outermost(a: Annotation, b: Annotation)
    requires a.Edge? && b.Edge?
  {
    forall i, j :: 0 <= i < |a.points| && 0 <= j < |b.points| ==>
      && (a.id == "edge_n" ==> a.points[i].1 <= b.points[j].1) && (a.id == "edge_s" ==> a.points[i].1 >= b.points[j].1)
      && (a.id == "edge_w" ==> a.points[i].0 <= b.points[j].0) && (a.id == "edge_e" ==> a.points[i].0 >= b.points[j].0)
  }

  /** The four outer edges bound the plan on the sides they are named after; the inner one runs between two of them. */
  lemma EdgesAreNamed(seed: int, k: nat, m: nat)
    requires k < 5 && m < 5
    ensures var a, b := Labels(seed)[k], Labels(seed)[m];
      && a.Edge? && b.Edge? && Outermost(a, b) && (k != m ==> a.id != b.id)
      && a.role == (if a.id in {"edge_n", "edge_s", "edge_w", "edge_e"} then "outer" else "inner")
      && (a.role == "inner" && b.id == "edge_w" ==> b.points[0].0 < a.points[0].0)
      && (a.role == "inner" && b.id == "edge_e" ==> a.points[0].0 < b.points[0].0)
  {
    var names := ["edge_n", "edge_s", "edge_w", "edge_e", "edge_div"];
    assert forall i :: 0 <= i < 5 ==> Labels(seed)[i].id == names[i];
    assert names[0][5] != names[1][5] && names[2][5] != names[3][5] && |names[4]| == 8;
    assert Labels(seed)[k].points == [Start(Walls(seed)[k]), End(Walls(seed)[k])];
    assert Labels(seed)[m].points == [Start(Walls(seed)[m]), End(Walls(seed)[m])];
  }

  predicate Canvas(pixels: array2<Byte>) {
    pixels.Length0 == HEIGHT && pixels.Length1 == WIDTH
  }

  /** The inner function `draw`: ink on every pixel of the line that is on the canvas, and nowhere else. */
  method Draw(pixels: array2<Byte>, l: Line)
    requires Canvas(pixels)
    modifies pixels
    ensures forall y, x :: 0 <= y < HEIGHT && 0 <= x < WIDTH ==>
      pixels[y, x] == if Covers(l, x, y) then INK else old(pixels[y, x])
  {
    var y0, y1 := if l.y0 < l.y1 then l.y0 else l.y1, if l.y0 < l.y1 then l.y1 else l.y0;
    var x0, x1 := if l.x0 < l.x1 then l.x0 else l.x1, if l.x0 < l.x1 then l.x1 else l.x0;
    for y := y0 to y1 + 1
      invariant forall v, u :: 0 <= v < HEIGHT && 0 <= u < WIDTH ==>
        pixels[v, u] == if y0 <= v < y && x0 <= u <= x1 then INK else old(pixels[v, u])
    {
      for x := x0 to x1 + 1
        invariant forall v, u :: 0 <= v < HEIGHT && 0 <= u < WIDTH ==>
          pixels[v, u] == if (y0 <= v < y && x0 <= u <= x1) || (v == y && x0 <= u < x) then INK else old(pixels[v, u])
      {
        if 0 <= x < WIDTH && 0 <= y < HEIGHT {
          pixels[y, x] := INK;
        }
      }
    }
  }

  method DrawAll(pixels: array2<Byte>, lines: seq<Line>)
    requires Canvas(pixels)
    modifies pixels
    ensures forall y, x :: 0 <= y < HEIGHT && 0 <= x < WIDTH ==>
      pixels[y, x] == if CoveredBy(lines, x, y) then INK else old(pixels[y, x])
  {
    for n := 0 to |lines|
      invariant forall y, x :: 0 <= y < HEIGHT && 0 <= x < WIDTH ==>
        pixels[y, x] == if CoveredBy(lines[..n], x, y) then INK else old(pixels[y, x])
    {
      Draw(pixels, lines[n]);
      forall x, y
        ensures CoveredBy(lines[..n + 1], x, y) <==> CoveredBy(lines[..n], x, y) || Covers(lines[n], x, y)
      {
        CoveredByOneMore(lines, n, x, y);
      }
    }
    assert lines[..|lines|] == lines;
  }

  lemma CoveredByOneMore(lines: seq<Line>, n: nat, x: int, y: int)
    requires n < |lines|
    ensures CoveredBy(lines[..n + 1], x, y) <==> CoveredBy(lines[..n], x, y) || Covers(lines[n], x, y)
  {
    assert lines[..n + 1] == lines[..n] + [lines[n]];
    if CoveredBy(lines[..n], x, y) {
      var k :| 0 <= k < n && Covers(lines[..n][k], x, y);
      assert lines[..n + 1][k] == lines[..n][k];
    }
    assert lines[..n + 1][n] == lines[n];
  }

  method Scatter(pixels: array2<Byte>, seed: int)
    requires Canvas(pixels)
    modifies pixels
    ensures forall y, x :: 0 <= y < HEIGHT && 0 <= x < WIDTH ==>
      pixels[y, x] == if Cluttered(seed, x, y) then CLUTTER else old(pixels[y, x])
  {
    var box := BoxLeft(seed);
    for y := TOP + 4 to TOP + 9
      invariant forall v, u :: 0 <= v < HEIGHT && 0 <= u < WIDTH ==>
        pixels[v, u] == if TOP + 4 <= v < y && box <= u < box + 5 then CLUTTER else old(pixels[v, u])
    {
      for x := box to box + 5
        invariant forall v, u :: 0 <= v < HEIGHT && 0 <= u < WIDTH ==>
          pixels[v, u] == if (TOP + 4 <= v < y && box <= u < box + 5) || (v == y && box <= u < x)
            then CLUTTER else old(pixels[v, u])
      {
        pixels[y, x] := CLUTTER;
      }
    }
  }

  method RowsOf(pixels: array2<Byte>) returns (rows: seq<seq<Byte>>)
    requires Canvas(pixels)
    ensures |rows| == HEIGHT && forall y :: 0 <= y < HEIGHT ==> |rows[y]| == WIDTH
    ensures forall y, x :: 0 <= y < HEIGHT && 0 <= x < WIDTH ==> rows[y][x] == pixels[y, x]
  {
    rows := [];
    for y := 0 to HEIGHT
      invariant |rows| == y && forall v :: 0 <= v < y ==> |rows[v]| == WIDTH
      invariant forall v, u :: 0 <= v < y && 0 <= u < WIDTH ==> rows[v][u] == pixels[v, u]
    {
      var row: seq<Byte> := [];
      for x := 0 to WIDTH
        invariant |row| == x && forall u :: 0 <= u < x ==> row[u] == pixels[y, u]
      {
        row := row + [pixels[y, x]];
      }
      rows := rows + [row];
    }
  }

  /** The pixels of `plan`: paper, the five walls in turn, the clutter last. */
  method Paint(seed: int) returns (rows: seq<seq<Byte>>)
    ensures rows == Picture(seed)
  {
    var pixels := new Byte[HEIGHT, WIDTH]((_, _) => PAPER);
    DrawAll(pixels, Walls(seed));
    Scatter(pixels, seed);
    rows := RowsOf(pixels);
    assert forall y :: 0 <= y < HEIGHT ==> rows[y] == Picture(seed)[y];
  }

  method Plan(z: Zlib, seed: int) returns (file: Result<seq<Byte>, Error>, annotations: seq<Annotation>)
    ensures file == EncodedFile(z, Picture(seed)) && annotations == Labels(seed)
  {
    var rows := Paint(seed);
    file := Encode(z, rows);
    annotations := Labels(seed);
  }

  /** Python's KeyError: an annotation taken for an edge has no points. */
  datatype NoPoints = NoPoints

  predicate NamesEdge(a: Annotation) { "edge" <= a.id }

  function EdgesIn(annotations: seq<Annotation>): Result<seq<seq<Point>>, NoPoints> {
    if annotations == [] then Ok([])
    else
      var rest, a := EdgesIn(annotations[..|annotations| - 1]), annotations[|annotations| - 1];
      if rest.Err? || !NamesEdge(a) then rest else if a.Edge? then Ok(rest.value + [a.points]) else Err(NoPoints)
  }

  lemma {:induction false} ErrorsStay(annotations: seq<Annotation>, n: nat)
    requires n <= |annotations| && EdgesIn(annotations[..n]).Err?
    ensures EdgesIn(annotations) == Err(NoPoints)
    decreases |annotations| - n
  {
    if n == |annotations| {
      assert annotations[..n] == annotations;
      assert EdgesIn(annotations).error == NoPoints;
    } else {
      assert annotations[..n + 1][..n] == annotations[..n];
      ErrorsStay(annotations, n + 1);
    }
  }

  /** The filter on annotation ids in front of the rasteriser. */
  method CollectEdges(annotations: seq<Annotation>) returns (r: Result<seq<seq<Point>>, NoPoints>)
    ensures r == EdgesIn(annotations)
    ensures r.Ok? <==> forall a :: a in annotations && NamesEdge(a) ==> a.Edge?
  {
    var edges: seq<seq<Point>> := [];
    for i := 0 to |annotations|
      invariant EdgesIn(annotations[..i]) == Ok(edges)
      invariant forall k :: 0 <= k < i && NamesEdge(annotations[k]) ==> annotations[k].Edge?
    {
      assert annotations[..i + 1][..i] == annotations[..i];
      var a := annotations[i];
      if NamesEdge(a) {
        if !a.Edge? {
          ErrorsStay(annotations, i + 1);
          assert a in annotations;
          return Err(NoPoints);
        }
        edges := edges + [a.points];
      }
    }
    assert annotations[..|annotations|] == annotations;
    return Ok(edges);
  }
}
