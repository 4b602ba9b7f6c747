/** What every generated corpus keeps, whatever was drawn (benchmarks/curation/generate.py, `chunk`). */
module CorpusFacts {
  import opened Corpus

  lemma RunName(n: nat, d: Draw, iso: int -> string)
    requires Drawable(d)
    ensures Cell(SpanRow(n, d, iso), RunId) == Text(RunIdOf(n / SPANS_PER_RUN))
  {
  }

  lemma TraceName(n: nat, d: Draw, iso: int -> string)
    requires Drawable(d)
    ensures Cell(SpanRow(n, d, iso), TraceId) == Text(TraceIdOf(n / SPANS_PER_RUN))
  {
  }

  lemma SpanNames(n: nat, d: Draw, iso: int -> string)
    requires Drawable(d)
    ensures Cell(SpanRow(n, d, iso), SpanId) == Text(SpanIdOf(n))
    ensures Cell(SpanRow(n, d, iso), ParentSpanId)
         == if n % SPANS_PER_RUN == 0 then Null else Text(SpanIdOf(n / SPANS_PER_RUN * SPANS_PER_RUN))
  {
  }

  lemma IdentifiersAt(spans: seq<Row>, draws: seq<Draw>, iso: int -> string, n: nat)
    requires Table(spans, draws, iso) && n < |spans|
    ensures Cell(spans[n], RunId) == Text(RunIdOf(n / SPANS_PER_RUN))
    ensures Cell(spans[n], TraceId) == Text(TraceIdOf(n / SPANS_PER_RUN))
    ensures Cell(spans[n], SpanId) == Text(SpanIdOf(n))
    ensures Cell(spans[n], ParentSpanId)
         == if n % SPANS_PER_RUN == 0 then Null else Text(SpanIdOf(n / SPANS_PER_RUN * SPANS_PER_RUN))
  {
    assert IsRow(spans, draws, 0, iso, n);
    RunName(n, draws[n], iso);
    TraceName(n, draws[n], iso);
    SpanNames(n, draws[n], iso);
  }

  lemma ModelCells(n: nat, d: Draw, iso: int -> string)
    requires Drawable(d)
    ensures var row := SpanRow(n, d, iso);
      && Cell(row, Kind) == Text(KINDS[d.kind])
      && Cell(row, Model) == (if d.kind == 0 then Text(MODELS[d.model].model) else Null)
      && (Cell(row, InputTokens).Int? <==> d.kind == 0) && (Cell(row, InputTokens) == Null <==> d.kind != 0)
      && (Cell(row, OutputTokens).Int? <==> d.kind == 0) && (Cell(row, OutputTokens) == Null <==> d.kind != 0)
      && Cell(row, DurationMs).Int?
  {
  }

  // ── Names ──────────────────────────────────────────────────────────────────

  /** Span ids name rows. */
  lemma SpanIdsUnique(spans: seq<Row>, draws: seq<Draw>, iso: int -> string, m: nat, n: nat)
    requires Table(spans, draws, iso) && m < |spans| && n < |spans|
    ensures Cell(spans[m], SpanId) == Cell(spans[n], SpanId) <==> m == n
  {
    IdentifiersAt(spans, draws, iso, m);
    IdentifiersAt(spans, draws, iso, n);
    SpanIdInjective(m, n);
  }

  /** Trace ids and run ids name runs, twelve rows each. */
  lemma TracesAreRuns(spans: seq<Row>, draws: seq<Draw>, iso: int -> string, m: nat, n: nat)
    requires Table(spans, draws, iso) && m < |spans| && n < |spans|
    ensures Cell(spans[m], RunId) == Cell(spans[n], RunId) <==> m / SPANS_PER_RUN == n / SPANS_PER_RUN
    ensures Cell(spans[m], TraceId) == Cell(spans[n], TraceId) <==> m / SPANS_PER_RUN == n / SPANS_PER_RUN
  {
    IdentifiersAt(spans, draws, iso, m);
    IdentifiersAt(spans, draws, iso, n);
    RunIdInjective(m / SPANS_PER_RUN, n / SPANS_PER_RUN);
    TraceIdInjective(m / SPANS_PER_RUN, n / SPANS_PER_RUN);
  }

  /** The first row of a run, whichever parts the run's rows are in. */
  ghost predicate FirstOfRun(spans: seq<Row>, f: nat, n: nat) {
    && f <= n < |spans| && Cell(spans[f], RunId) == Cell(spans[n], RunId)
    && forall m :: 0 <= m < f ==> Cell(spans[m], RunId) != Cell(spans[n], RunId)
  }

  /** The first row of a run has no parent, and is the parent of every other row of it. */
  lemma ParentIsFirstOfRun(spans: seq<Row>, draws: seq<Draw>, iso: int -> string, f: nat, n: nat)
    requires Table(spans, draws, iso) && FirstOfRun(spans, f, n)
    ensures Cell(spans[n], ParentSpanId) == if f == n then Null else Cell(spans[f], SpanId)
  {
    var first := ParentAt(spans, draws, iso, n);
    FirstIs(spans, draws, iso, f, first, n);
    IdentifiersAt(spans, draws, iso, f);
  }

  predicate StartsRunOf(first: nat, n: nat) {
    first <= n && first / SPANS_PER_RUN == n / SPANS_PER_RUN && first % SPANS_PER_RUN == 0
  }

  lemma ParentAt(spans: seq<Row>, draws: seq<Draw>, iso: int -> string, n: nat) returns (first: nat)
    requires Table(spans, draws, iso) && n < |spans|
    ensures StartsRunOf(first, n)
    ensures Cell(spans[n], ParentSpanId) == if first == n then Null else Text(SpanIdOf(first))
  {
    first := n / SPANS_PER_RUN * SPANS_PER_RUN;
    IdentifiersAt(spans, draws, iso, n);
  }

  lemma FirstIs(spans: seq<Row>, draws: seq<Draw>, iso: int -> string, f: nat, first: nat, n: nat)
    requires Table(spans, draws, iso) && FirstOfRun(spans, f, n)
    requires StartsRunOf(first, n)
    ensures f == first
  {
    TracesAreRuns(spans, draws, iso, first, n);
    TracesAreRuns(spans, draws, iso, f, n);
    OnlyFirst(f, first);
  }

  lemma OnlyFirst(f: nat, first: nat)
    requires f <= first && f / SPANS_PER_RUN == first / SPANS_PER_RUN && first % SPANS_PER_RUN == 0
    ensures f == first
  {
  }

  ghost function Distinct<T(!new)>(ids: seq<T>): set<T> { set x | x in ids }

  /** Ids that change every twelve rows and never come back. */
  ghost predicate ByRun<T(!new)>(ids: seq<T>) {
    forall m, n :: 0 <= m < |ids| && 0 <= n < |ids| ==> (ids[m] == ids[n] <==> m / SPANS_PER_RUN == n / SPANS_PER_RUN)
  }

  lemma OneMoreId<T(!new)>(ids: seq<T>, n: nat)
    requires |ids| == n + 1
    ensures |Distinct(ids)| == |Distinct(ids[..n])| + if ids[n] in ids[..n] then 0 else 1
  {
    assert ids == ids[..n] + [ids[n]];
    assert Distinct(ids) == Distinct(ids[..n]) + {ids[n]};
    assert ids[n] in ids[..n] ==> Distinct(ids) == Distinct(ids[..n]);
  }

  lemma EarlierByRun<T(!new)>(ids: seq<T>, n: nat)
    requires ByRun(ids) && n <= |ids|
    ensures ByRun(ids[..n])
  {
  }

  lemma OneMoreRow(n: nat)
    ensures (n + 1 + SPANS_PER_RUN - 1) / SPANS_PER_RUN
         == (n + SPANS_PER_RUN - 1) / SPANS_PER_RUN + if n % SPANS_PER_RUN == 0 then 1 else 0
  {
  }

  /** The last id is new exactly at the start of a run of twelve. */
  lemma NewEveryTwelve<T(!new)>(ids: seq<T>, n: nat)
    requires ByRun(ids) && |ids| == n + 1
    ensures n % SPANS_PER_RUN == 0 <==> ids[n] !in ids[..n]
  {
    if n % SPANS_PER_RUN == 0 {
      forall m | 0 <= m < n
        ensures ids[..n][m] != ids[n]
      {
        assert ids[..n][m] == ids[m];
      }
    } else {
      assert ids[n - 1] == ids[n] && ids[n - 1] in ids[..n];
    }
  }

  lemma {:induction false} DistinctRuns<T(!new)>(ids: seq<T>)
    requires ByRun(ids)
    ensures |Distinct(ids)| == (|ids| + SPANS_PER_RUN - 1) / SPANS_PER_RUN
  {
    if ids != [] {
      var n := |ids| - 1;
      EarlierByRun(ids, n);
      DistinctRuns(ids[..n]);
      OneMoreId(ids, n);
      NewEveryTwelve(ids, n);
      OneMoreRow(n);
    }
  }

  ghost function RunIds(spans: seq<Row>): (ids: seq<Value>)
    ensures |ids| == |spans| && forall n :: 0 <= n < |spans| ==> ids[n] == Cell(spans[n], RunId)
  {
    seq(|spans|, n requires 0 <= n < |spans| => Cell(spans[n], RunId))
  }

  /** `runs` in the manifest is the number of runs in the table. */
  lemma RunsCounted(spans: seq<Row>, draws: seq<Draw>, iso: int -> string)
    requires Table(spans, draws, iso)
    ensures |Distinct(RunIds(spans))| == (|spans| + SPANS_PER_RUN - 1) / SPANS_PER_RUN
  {
    var ids := RunIds(spans);
    forall m, n | 0 <= m < |ids| && 0 <= n < |ids|
      ensures ids[m] == ids[n] <==> m / SPANS_PER_RUN == n / SPANS_PER_RUN
    {
      TracesAreRuns(spans, draws, iso, m, n);
    }
    DistinctRuns(ids);
  }

  // ── Nulls ──────────────────────────────────────────────────────────────────

  const LLM := Text("llm")

  /**
   A row that is a model call names a model of the price table and counts tokens both ways; any
   other does neither.
   */
  ghost predicate CorpusRow(row: Row) {
    && Cell(row, SpanId) != Null && Cell(row, RunId) != Null && Cell(row, DurationMs).Int?
    && (Cell(row, Kind) == LLM ==>
          && (exists m :: 0 <= m < |MODELS| && Cell(row, Model) == Text(MODELS[m].model))
          && Cell(row, InputTokens).Int? && Cell(row, OutputTokens).Int?)
    && (Cell(row, Kind) != LLM ==>
          Cell(row, Model) == Null && Cell(row, InputTokens) == Null && Cell(row, OutputTokens) == Null)
  }

  lemma KindsDiffer(k: nat)
    requires k < |KINDS|
    ensures KINDS[k] == "llm" <==> k == 0
  {
    assert KINDS[1][0] == 't' && KINDS[2][0] == 'a' && KINDS[3][0] == 's' && "llm"[0] == 'l';
  }

  lemma EveryRow(spans: seq<Row>, draws: seq<Draw>, iso: int -> string, n: nat)
    requires Table(spans, draws, iso) && n < |spans|
    ensures CorpusRow(spans[n])
  {
    IdentifiersAt(spans, draws, iso, n);
    assert IsRow(spans, draws, 0, iso, n);
    ModelCells(n, draws[n], iso);
    KindsDiffer(draws[n].kind);
    assert Cell(spans[n], Kind) == LLM <==> draws[n].kind == 0;
  }

  /** No two rows of the price table name the same model. */
  lemma ModelsDistinct(i: nat, j: nat)
    requires i < |MODELS| && j < |MODELS| && MODELS[i].model == MODELS[j].model
    ensures i == j
  {
    assert MODELS[0].model[0] == 'c' && MODELS[1].model[0] == 'c';
    assert MODELS[0].model[7] == 's' && MODELS[1].model[7] == 'h';
    assert MODELS[2].model[0] == 'g' && MODELS[3].model[0] == 'g';
    assert MODELS[2].model[1] == 'p' && MODELS[3].model[1] == 'e';
    assert MODELS[4].model[0] == 'l' && MODELS[5].model[0] == 'm';
    assert MODELS[6].model[0] == 'q' && MODELS[7].model[0] == 't';
  }

  // ── What a row says ────────────────────────────────────────────────────────

  /** An error is named exactly where the span failed. */
  predicate TellsFailure(row: Row, failed: bool) {
    && Cell(row, Status) == Text(if failed then "error" else "ok")
    && (Cell(row, Error) == Null <==> !failed)
  }

  /** Each kind of span names its own thing and no other's, and has the operation of its kind. */
  predicate TellsKind(row: Row) {
    var kind, model := Cell(row, Kind), Cell(row, Model);
    && kind in {Text("llm"), Text("tool"), Text("agent"), Text("step")}
    && (Cell(row, Tool) != Null <==> kind == Text("tool")) && (Cell(row, StepType) != Null <==> kind == Text("step"))
    && (model != Null <==> kind == Text("llm"))
    && (Cell(row, Operation) == Text("embed") <==> model == Text("text-embedding-3"))
    && (Cell(row, Operation) == Text("chat") <==> kind == Text("llm") && model != Text("text-embedding-3"))
    && (Cell(row, Operation) == Text("invoke") <==> kind == Text("tool"))
    && (Cell(row, Operation) == Text("turn") <==> kind == Text("agent"))
    && (Cell(row, Operation) == Null <==> kind == Text("step"))
  }

  /** A call counts the tokens drawn for it each way; an embedding gives none back. */
  predicate TellsTokens(row: Row, tokensIn: int, tokensOut: int) {
    if Cell(row, Kind) != Text("llm") then Cell(row, InputTokens) == Cell(row, OutputTokens) == Null
    else
      && Cell(row, InputTokens) == Int(tokensIn)
      && Cell(row, OutputTokens) == Int(if Cell(row, Model) == Text("text-embedding-3") then 0 else tokensOut)
  }

  /** A span begins in the twenty milliseconds its row has, and ends its duration later. */
  ghost predicate TellsTime(row: Row, n: nat, iso: int -> string) {
    exists start: int :: 20 * n <= start - 1_785_542_400_000 < 20 * n + 20 && Cell(row, Start) == Text(iso(start))
      && Cell(row, DurationMs).Int? && Cell(row, End) == Text(iso(start + Cell(row, DurationMs).n))
      && Cell(row, DurationMs).n >= 1
  }

  lemma FailureTold(n: nat, d: Draw, iso: int -> string)
    requires Drawable(d)
    ensures TellsFailure(SpanRow(n, d, iso), d.failed)
  {
  }

  lemma EmbeddingIs(m: nat)
    requires m < |MODELS|
    ensures m == EMBEDDING <==> MODELS[m].model == "text-embedding-3"
  {
    assert MODELS[7].model == "text-embedding-3";
    if m != EMBEDDING && MODELS[m].model == MODELS[7].model {
      ModelsDistinct(m, 7);
    }
  }

  lemma KindTold(n: nat, d: Draw, iso: int -> string)
    requires Drawable(d)
    ensures TellsKind(SpanRow(n, d, iso))
  {
    EmbeddingIs(d.model);
    ModelCells(n, d, iso);
    OtherCells(n, d, iso);
    assert KINDS[0] == "llm" && KINDS[1] == "tool" && KINDS[2] == "agent" && KINDS[3] == "step";
    assert "tool"[0] == 't' && "agent"[0] == 'a' && "step"[0] == 's' && "llm"[0] == 'l';
    assert "embed"[0] == 'e' && "chat"[0] == 'c' && "invoke"[0] == 'i' && "turn"[0] == 't';
  }

  lemma OtherCells(n: nat, d: Draw, iso: int -> string)
    requires Drawable(d)
    ensures var row := SpanRow(n, d, iso);
      && (Cell(row, Tool) != Null <==> d.kind == 1) && (Cell(row, StepType) != Null <==> d.kind == 3)
      && Cell(row, Operation) == (match d.kind
           case 0 => Text(if d.model == EMBEDDING then "embed" else "chat") case 1 => Text("invoke")
           case 2 => Text("turn") case _ => Null)
  {
  }

  lemma TokensTold(n: nat, d: Draw, iso: int -> string)
    requires Drawable(d)
    ensures TellsTokens(SpanRow(n, d, iso), d.inTokens, d.outTokens)
  {
    KindsDiffer(d.kind);
    EmbeddingIs(d.model);
    ModelCells(n, d, iso);
  }

  lemma TimeTold(n: nat, d: Draw, iso: int -> string)
    requires Drawable(d)
    ensures TellsTime(SpanRow(n, d, iso), n, iso)
  {
    var start := EPOCH_MS + n * 20 + d.jitter;
    assert Cell(SpanRow(n, d, iso), Start) == Text(iso(start));
  }

  /** What the columns of one row say of each other. */
  lemma RowsCohere(spans: seq<Row>, draws: seq<Draw>, iso: int -> string, n: nat)
    requires Table(spans, draws, iso) && n < |spans|
    ensures TellsFailure(spans[n], draws[n].failed) && TellsKind(spans[n]) && TellsTime(spans[n], n, iso)
    ensures TellsTokens(spans[n], draws[n].inTokens, draws[n].outTokens)
  {
    assert IsRow(spans, draws, 0, iso, n);
    FailureTold(n, draws[n], iso);
    KindTold(n, draws[n], iso);
    TokensTold(n, draws[n], iso);
    TimeTold(n, draws[n], iso);
  }
}
