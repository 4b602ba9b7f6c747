/** The benchmark corpus: spans drawn part by part (benchmarks/curation/generate.py). */
module Corpus {
  import Digits
  import Draws

  const SPANS_PER_RUN: nat := 12
  const ROWS_PER_PART: nat := 1_000_000
  const EPOCH_MS: int := 1_785_542_400_000

  const KINDS := ["llm", "tool", "agent", "step"]

  datatype Price = Price(model: string, provider: string, input: real, output: real)

  const MODELS: seq<Price> := [
    Price("claude-sonnet-5", "anthropic", 0.000003, 0.000015),
    Price("claude-haiku-4-5", "anthropic", 0.000001, 0.000005),
    Price("gpt-5", "openai", 0.00000125, 0.00001),
    Price("gemini-3-pro", "google", 0.000002, 0.000012),
    Price("llama-4-70b", "meta", 0.0000006, 0.0000008),
    Price("mistral-large-3", "mistral", 0.000002, 0.000006),
    Price("qwen-3-72b", "alibaba", 0.0000009, 0.0000009),
    Price("text-embedding-3", "openai", 0.00000013, 0.0)
  ]

  const EMBEDDING: nat := 7

  datatype Column =
    | RunId | TraceId | SpanId | ParentSpanId | Name | Kind | Start | End | DurationMs | Operation
    | AgentId | Model | Tool | StepType | Status | InputTokens | OutputTokens | Error

  datatype Value = Null | Text(text: string) | Int(n: int) | Real(x: real)

  type Row = map<Column, Value>

  /** A cell of a row; a column the row does not have reads as null. */
  function Cell(row: Row, column: Column): Value {
    if column in row then row[column] else Null
  }

  /** What one row takes from the random source. */
  datatype Draw = Draw(
    kind: nat, model: nat, tool: string, step: string, agent: string, agentNull: bool, error: string, failed: bool,
    jitter: nat, duration: int, inTokens: int, outTokens: int)

  predicate Drawable(d: Draw) {
    d.kind < 4 && d.model < 8 && d.jitter < 20 && d.duration >= 1
  }

  // ── Identifiers ────────────────────────────────────────────────────────────

  function RunIdOf(run: nat): string { "run-" + Digits.ZFill(Digits.Decimal(run), 10) }

  const SIXTEEN_DIGITS: nat := 10_000_000_000_000_000

  function Scrambled(run: nat): (n: nat)
    ensures n < SIXTEEN_DIGITS
  {
    run * 2_654_435_761 % SIXTEEN_DIGITS
  }

  function TraceIdOf(run: nat): string {
    Digits.ZFill(Digits.Decimal(Scrambled(run)), 16) + Digits.ZFill(Digits.Decimal(run), 16)
  }

  function SpanIdOf(row: nat): string { "s" + Digits.ZFill(Digits.Decimal(row), 15) }

  lemma RunIdInjective(a: nat, b: nat)
    ensures RunIdOf(a) == RunIdOf(b) <==> a == b
  {
    if RunIdOf(a) == RunIdOf(b) {
      assert RunIdOf(a)[4..] == Digits.ZFill(Digits.Decimal(a), 10);
      assert RunIdOf(b)[4..] == Digits.ZFill(Digits.Decimal(b), 10);
      Digits.ZFilledInjective(a, b, 10);
    }
  }

  lemma SpanIdInjective(a: nat, b: nat)
    ensures SpanIdOf(a) == SpanIdOf(b) <==> a == b
  {
    if SpanIdOf(a) == SpanIdOf(b) {
      assert SpanIdOf(a)[1..] == Digits.ZFill(Digits.Decimal(a), 15);
      assert SpanIdOf(b)[1..] == Digits.ZFill(Digits.Decimal(b), 15);
      Digits.ZFilledInjective(a, b, 15);
    }
  }

  lemma SixteenDigits()
    ensures Digits.PowerOfTen(16) == SIXTEEN_DIGITS
  {
    Digits.FourMoreDigits(0);
    Digits.FourMoreDigits(4);
    Digits.FourMoreDigits(8);
    Digits.FourMoreDigits(12);
  }

  lemma SecondHalfTells(x: string, a: nat, y: string, b: nat, width: nat)
    requires |x| == |y|
    ensures x + Digits.ZFill(Digits.Decimal(a), width) == y + Digits.ZFill(Digits.Decimal(b), width) ==> a == b
  {
    var u, v := Digits.ZFill(Digits.Decimal(a), width), Digits.ZFill(Digits.Decimal(b), width);
    assert (x + u)[|x|..] == u && (y + v)[|y|..] == v;
    Digits.ZFilledInjective(a, b, width);
  }

  /** The scrambled half of a trace id always has sixteen digits, so the run behind it can be read back. */
  lemma TraceIdInjective(a: nat, b: nat)
    ensures TraceIdOf(a) == TraceIdOf(b) <==> a == b
  {
    if TraceIdOf(a) == TraceIdOf(b) {
      var x, y := Digits.ZFill(Digits.Decimal(Scrambled(a)), 16), Digits.ZFill(Digits.Decimal(Scrambled(b)), 16);
      SixteenDigits();
      Digits.DecimalFits(Scrambled(a), 16);
      Digits.DecimalFits(Scrambled(b), 16);
      SecondHalfTells(x, a, y, b, 16);
    }
  }

  // ── One row ────────────────────────────────────────────────────────────────

  function When(condition: bool, v: Value): Value { if condition then v else Null }

  function Coalesce(values: seq<Value>): Value {
    if values == [] then Null else if values[0] != Null then values[0] else Coalesce(values[1..])
  }

  function Label(v: Value): string { if v.Text? then v.text else "" }

  /** The row of number `n`, given its draws and how an instant is written. */
  function SpanRow(n: nat, d: Draw, iso: int -> string): Row
    requires Drawable(d)
  {
    var run := n / SPANS_PER_RUN;
    var llm, embed := d.kind == 0, d.kind == 0 && d.model == EMBEDDING;
    var model, tool := When(llm, Text(MODELS[d.model].model)), When(d.kind == 1, Text(d.tool));
    var step, agent := When(d.kind == 3, Text(d.step)), When(!d.agentNull, Text(d.agent));
    var start := EPOCH_MS + n * 20 + d.jitter;
    map[
      RunId := Text(RunIdOf(run)),
      TraceId := Text(TraceIdOf(run)),
      SpanId := Text(SpanIdOf(n)),
      ParentSpanId := When(n % SPANS_PER_RUN != 0, Text(SpanIdOf(run * SPANS_PER_RUN))),
      Name := Text(KINDS[d.kind] + "." + Label(Coalesce([model, tool, step, agent, Text("turn")]))),
      Kind := Text(KINDS[d.kind]),
      Start := Text(iso(start)),
      End := Text(iso(start + d.duration)),
      DurationMs := Int(d.duration),
      Operation :=
        (if embed then Text("embed") else if llm then Text("chat") else if d.kind == 1 then Text("invoke")
         else When(d.kind == 2, Text("turn"))),
      AgentId := agent,
      Model := model,
      Tool := tool,
      StepType := step,
      Status := (if d.failed then Text("error") else Text("ok")),
      InputTokens := When(llm, Int(d.inTokens)),
      OutputTokens := (if embed then Int(0) else When(llm, Int(d.outTokens))),
      Error := When(d.failed, Text(d.error))
    ]
  }

  // ── Part by part ───────────────────────────────────────────────────────────

  datatype Part = Part(first: nat, rows: nat)

  /** Rows 0 up to `rows`, each in one part, in order, at most a million a part. */
  ghost predicate Covers(parts: seq<Part>, rows: nat) {
    && (forall p :: p in parts ==> 1 <= p.rows <= ROWS_PER_PART)
    && (forall i :: 0 <= i < |parts| ==> parts[i].first == if i == 0 then 0 else parts[i - 1].first + parts[i - 1].rows)
    && rows == if parts == [] then 0 else parts[|parts| - 1].first + parts[|parts| - 1].rows
  }

  ghost predicate Drawn(draws: seq<Draw>) {
    forall i :: 0 <= i < |draws| ==> Drawable(draws[i])
  }

  /** The table is row after row of some draws. */
  ghost predicate Table(spans: seq<Row>, draws: seq<Draw>, iso: int -> string) {
    Frame(spans, draws, 0, iso)
  }

  method DrawRow() returns (d: Draw)
    ensures Drawable(d)
  {
    var kind := Draws.Below(|KINDS|);
    var model := Draws.Below(|MODELS|);
    var jitter := Draws.Below(20);
    var tool: string, step: string, agent: string, error: string := *, *, *, *;
    var agentNull: bool, failed: bool := *, *;
    var duration: int, inTokens: int, outTokens: int := *, *, *;
    d := Draw(kind, model, tool, step, agent, agentNull, error, failed, jitter,
              if duration < 1 then 1 else duration, inTokens, outTokens);
  }

  /** Rows numbered from `first`, each made of its draws. */
  ghost predicate Frame(spans: seq<Row>, draws: seq<Draw>, first: nat, iso: int -> string) {
    && |spans| == |draws| && Drawn(draws)
    && forall i {:trigger IsRow(spans, draws, first, iso, i)} ::
      0 <= i < |spans| ==> IsRow(spans, draws, first, iso, i)
  }

  ghost predicate IsRow(spans: seq<Row>, draws: seq<Draw>, first: nat, iso: int -> string, i: int)
    requires |spans| == |draws| && Drawn(draws) && 0 <= i < |spans|
  {
    spans[i] == SpanRow(first + i, draws[i], iso)
  }

  lemma RowStays(
    spans: seq<Row>, draws: seq<Draw>, first: nat, i: nat, all: seq<Row>, allDraws: seq<Draw>, start: nat, j: nat,
    iso: int -> string)
    requires |spans| == |draws| && Drawn(draws) && i < |spans| && IsRow(spans, draws, first, iso, i)
    requires |all| == |allDraws| && Drawn(allDraws) && j < |all| && all[j] == spans[i] && allDraws[j] == draws[i]
    requires start + j == first + i
    ensures IsRow(all, allDraws, start, iso, j)
  {
  }

  lemma DrawnBoth(draws: seq<Draw>, more: seq<Draw>)
    requires Drawn(draws) && Drawn(more)
    ensures Drawn(draws + more)
  {
  }

  lemma FrameAppends(
    spans: seq<Row>, draws: seq<Draw>, more: seq<Row>, moreDraws: seq<Draw>, first: nat, iso: int -> string)
    requires Frame(spans, draws, first, iso) && Frame(more, moreDraws, first + |spans|, iso)
    ensures Frame(spans + more, draws + moreDraws, first, iso)
  {
    var all, allDraws := spans + more, draws + moreDraws;
    DrawnBoth(draws, moreDraws);
    forall i | 0 <= i < |all|
      ensures IsRow(all, allDraws, first, iso, i)
    {
      if i < |spans| {
        assert IsRow(spans, draws, first, iso, i);
        RowStays(spans, draws, first, i, all, allDraws, first, i, iso);
      } else {
        var k := i - |spans|;
        assert IsRow(more, moreDraws, first + |spans|, iso, k);
        RowStays(more, moreDraws, first + |spans|, k, all, allDraws, first, i, iso);
      }
    }
  }

  lemma FrameGrows(spans: seq<Row>, draws: seq<Draw>, row: Row, d: Draw, first: nat, iso: int -> string)
    requires Frame(spans, draws, first, iso) && Frame([row], [d], first + |spans|, iso)
    ensures Frame(spans + [row], draws + [d], first, iso) && |spans + [row]| == |spans| + 1
  {
    FrameAppends(spans, draws, [row], [d], first, iso);
  }

  lemma OneFrame(row: Row, d: Draw, n: nat, iso: int -> string)
    requires Drawable(d) && row == SpanRow(n, d, iso)
    ensures Frame([row], [d], n, iso)
  {
    var spans, draws := [row], [d];
    assert spans[0] == row && draws[0] == d && n + 0 == n;
    assert IsRow(spans, draws, n, iso, 0);
  }

  method DrawSpan(n: nat, iso: int -> string) returns (row: Row, ghost d: Draw)
    ensures Frame([row], [d], n, iso)
  {
    var drawn := DrawRow();
    d := drawn;
    row := SpanRow(n, drawn, iso);
    OneFrame(row, d, n, iso);
  }

  method Chunk(first: nat, rows: nat, iso: int -> string) returns (spans: seq<Row>, ghost draws: seq<Draw>)
    ensures |spans| == rows && Frame(spans, draws, first, iso)
  {
    spans, draws := [], [];
    for i := 0 to rows
      invariant |spans| == i && Frame(spans, draws, first, iso)
    {
      var row, d := DrawSpan(first + i, iso);
      FrameGrows(spans, draws, row, d, first, iso);
      spans, draws := spans + [row], draws + [d];
    }
  }

  function Ceiling(x: real): int { -(-x).Floor }

  /** How many rows the next part gets, from what is left to write and the bytes a row took so far. */
  function PartRows(left: nat, bytesPerRow: real): (n: nat)
    requires bytesPerRow > 0.0
    ensures 1 <= n <= ROWS_PER_PART
  {
    var remaining := Ceiling(left as real / bytesPerRow);
    var rows := if remaining < ROWS_PER_PART then remaining else ROWS_PER_PART;
    if rows < 1 then 1 else rows
  }

  function Rate(written: nat, rows: nat): (r: real)
    requires written >= 1 && rows >= 1
    ensures r > 0.0
  {
    written as real / rows as real
  }

  lemma CoversOneMore(parts: seq<Part>, rows: nat, n: nat)
    requires Covers(parts, rows) && 1 <= n <= ROWS_PER_PART
    ensures Covers(parts + [Part(rows, n)], rows + n)
  {
  }

  lemma CeilingOfRuns(rows: nat)
    ensures Ceiling(rows as real / 12.0) == (rows + 11) / 12
  {
    var q := (rows + 11) / 12;
    assert (q - 1) as real < rows as real / 12.0 <= q as real;
  }

  /** Bytes a part takes on disk: at least one, the header alone being more. */
  method BytesOf(spans: seq<Row>) returns (size: nat)
    ensures size >= 1
  {
    size := *;
    if size < 1 {
      size := 1;
    }
  }

  datatype Manifest = Manifest(rows: nat, parts: nat, bytes: nat, runs: nat)

  /** Part after part until the target is reached, and none after that; `last` is the size of the last one. */
  method Generate(target: int, iso: int -> string)
    returns (spans: seq<Row>, manifest: Manifest, ghost draws: seq<Draw>, ghost parts: seq<Part>, ghost last: nat)
    ensures Table(spans, draws, iso) && Covers(parts, |spans|)
    ensures manifest.rows == |spans| && manifest.parts == |parts|
    ensures manifest.bytes >= target
    ensures if parts == [] then target <= 0 && manifest.bytes == 0 else 1 <= last <= manifest.bytes < target + last
    ensures manifest.runs == (|spans| + SPANS_PER_RUN - 1) / SPANS_PER_RUN
  {
    var written: nat, rows: nat, index: nat, bytesPerRow := 0, 0, 0, 230.0;
    spans, draws, parts, last := [], [], [], 0;
    while written < target
      invariant bytesPerRow > 0.0
      invariant Table(spans, draws, iso) && Covers(parts, rows) && rows == |spans| && index == |parts|
      invariant if parts == [] then written == 0 else 1 <= last <= written < target + last
      decreases target - written
    {
      var partRows := PartRows(target - written, bytesPerRow);
      var frame, drawn := Chunk(rows, partRows, iso);
      var size := BytesOf(frame);
      written, last := written + size, size;
      FrameAppends(spans, draws, frame, drawn, 0, iso);
      CoversOneMore(parts, rows, partRows);
      spans, draws := spans + frame, draws + drawn;
      parts := parts + [Part(rows, partRows)];
      rows := rows + partRows;
      index := index + 1;
      bytesPerRow := Rate(written, rows);
    }
    CeilingOfRuns(rows);
    manifest := Manifest(rows, index, written, Ceiling(rows as real / SPANS_PER_RUN as real));
  }
}
