/** The benchmark's queries as each engine has them written, and when they give one answer (benchmarks/curation). */
module Queries {
  import opened Order
  import opened Corpus
  import opened CorpusFacts
  import opened Relations

  // ── q1: slow failures ──────────────────────────────────────────────────────

  const FAILED := Text("error")

  function IsSlowFailure(): Row -> bool {
    (r: Row) => Cell(r, Status) == FAILED && Cell(r, DurationMs).Int? && Cell(r, DurationMs).n > 1000
  }

  function Q1(rows: seq<Row>): nat { |Filter(rows, IsSlowFailure())| }

  /** Keeping no more than the status and the duration does not change the count. */
  lemma Q1Projected(rows: seq<Row>, kept: set<Column>)
    requires {Status, DurationMs} <= kept
    ensures Q1(ProjectAll(rows, kept)) == Q1(rows)
  {
    ProjectionAlike(rows, kept, kept);
    FilterAlike(rows, ProjectAll(rows, kept), kept, IsSlowFailure());
  }

  function IsLlm(): Row -> bool { (r: Row) => Cell(r, Kind) == LLM }

  // ── What the queries answer ────────────────────────────────────────────────

  /** The rows a condition picks, by position. */
  ghost function Picked(rows: seq<Row>, p: Row -> bool): set<int> { set i | 0 <= i < |rows| && p(rows[i]) }

  lemma PickedOneMore(rows: seq<Row>, p: Row -> bool, n: nat)
    requires |rows| == n + 1
    ensures |Picked(rows, p)| == |Picked(rows[..n], p)| + if p(rows[n]) then 1 else 0
  {
    assert Picked(rows, p) == Picked(rows[..n], p) + if p(rows[n]) then {n} else {};
    assert n !in Picked(rows[..n], p);
  }

  lemma {:induction false} FilterPicks(rows: seq<Row>, p: Row -> bool)
    ensures |Filter(rows, p)| == |Picked(rows, p)|
  {
    if rows == [] {
      assert Picked(rows, p) == {};
    } else {
      var n := |rows| - 1;
      FilterPicks(rows[..n], p);
      PickedOneMore(rows, p, n);
    }
  }

  /** q1 counts the failed spans slower than a second. */
  lemma Q1Answers(rows: seq<Row>)
    ensures Q1(rows) == |set i | 0 <= i < |rows| && Cell(rows[i], Status) == Text("error")
                                 && Cell(rows[i], DurationMs).Int? && Cell(rows[i], DurationMs).n > 1000|
  {
    FilterPicks(rows, IsSlowFailure());
    assert Picked(rows, IsSlowFailure())
        == set i | 0 <= i < |rows| && Cell(rows[i], Status) == Text("error")
                   && Cell(rows[i], DurationMs).Int? && Cell(rows[i], DurationMs).n > 1000;
  }

  lemma {:induction false} FilterTwice(rows: seq<Row>, p: Row -> bool, q: Row -> bool)
    ensures Filter(Filter(rows, p), q) == Filter(rows, r => p(r) && q(r))
  {
    if rows != [] {
      var n := |rows| - 1;
      FilterTwice(rows[..n], p, q);
      if p(rows[n]) {
        var kept := Filter(rows[..n], p) + [rows[n]];
        assert kept[..|kept| - 1] == Filter(rows[..n], p);
      }
    }
  }

  // ── q2: tokens and latency per model ───────────────────────────────────────

  datatype PerModel = PerModel(spans: nat, input: Value, output: Value, duration: Value)

  function PolarsPerModel(): seq<Row> -> PerModel {
    (g: seq<Row>) => PerModel(|g|, Int(ZeroSum(g, InputTokens)), Int(ZeroSum(g, OutputTokens)), Mean(g, DurationMs))
  }

  function FlowPerModel(): seq<Row> -> PerModel {
    (g: seq<Row>) => PerModel(Count(g, SpanId), SqlSum(g, InputTokens), SqlSum(g, OutputTokens), Mean(g, DurationMs))
  }

  function AceroPerModel(): seq<Row> -> PerModel {
    (g: seq<Row>) => PerModel(Count(g, Model), SqlSum(g, InputTokens), SqlSum(g, OutputTokens), Mean(g, DurationMs))
  }

  function Q2(rows: seq<Row>, aggregate: seq<Row> -> PerModel): map<Value, PerModel> {
    GroupBy(Filter(rows, IsLlm()), Model, aggregate)
  }

  function CallTo(model: Value): Row -> bool { (r: Row) => Cell(r, Kind) == Text("llm") && Cell(r, Model) == model }

  /** q2 has a row for every model that was called, with its calls, its tokens in and out and their mean duration. */
  lemma Q2Answers(rows: seq<Row>, model: Value)
    ensures var answer, calls := Q2(rows, PolarsPerModel()), Filter(rows, CallTo(model));
      && (model in answer <==> calls != [])
      && (model in answer ==>
            && answer[model].spans == |calls|
            && answer[model].input == Int(ZeroSum(calls, InputTokens))
            && answer[model].output == Int(ZeroSum(calls, OutputTokens))
            && answer[model].duration == Mean(calls, DurationMs))
  {
    var all := Filter(rows, IsLlm());
    FilterTwice(rows, IsLlm(), KeyIs(Model, model));
    SameFilter(rows, r => IsLlm()(r) && KeyIs(Model, model)(r), CallTo(model));
    if model in Keys(all, Model) {
      var r :| r in all && Cell(r, Model) == model;
      GroupHolds(all, Model, model, r);
    } else if Group(all, Model, model) != [] {
      var r := Group(all, Model, model)[0];
      assert r in Group(all, Model, model);
      GroupHolds(all, Model, model, r);
    }
  }

  lemma {:induction false} SameFilter(rows: seq<Row>, p: Row -> bool, q: Row -> bool)
    requires forall r :: r in rows ==> p(r) == q(r)
    ensures Filter(rows, p) == Filter(rows, q)
  {
    if rows != [] {
      SameFilter(rows[..|rows| - 1], p, q);
      assert p(rows[|rows| - 1]) == q(rows[|rows| - 1]);
    }
  }

  /** Some row of the group has a value in each of the two token columns. */
  ghost predicate HasTokens(g: seq<Row>) {
    && (exists r :: r in g && Cell(r, InputTokens) != Null)
    && (exists r :: r in g && Cell(r, OutputTokens) != Null)
  }

  ghost predicate Full(g: seq<Row>, column: Column) {
    forall r :: r in g ==> Cell(r, column) != Null
  }

  lemma TokensTell(g: seq<Row>)
    ensures HasTokens(g) <==>
      (SqlSum(g, InputTokens) == Int(ZeroSum(g, InputTokens))
       && SqlSum(g, OutputTokens) == Int(ZeroSum(g, OutputTokens)))
  {
    SumsAgree(g, InputTokens);
    SumsAgree(g, OutputTokens);
    CountsAll(g, InputTokens);
    CountsAll(g, OutputTokens);
  }

  /** One group: counting rows is counting a column exactly when the column has no null in it. */
  lemma PerModelAgree(g: seq<Row>)
    ensures PolarsPerModel()(g) == FlowPerModel()(g) <==> Full(g, SpanId) && HasTokens(g)
    ensures PolarsPerModel()(g) == AceroPerModel()(g) <==> Full(g, Model) && HasTokens(g)
  {
    TokensTell(g);
    CountsAll(g, SpanId);
    CountsAll(g, Model);
  }

  ghost predicate EveryModelHasTokens(rows: seq<Row>) {
    var calls := Filter(rows, IsLlm());
    forall key :: key in Keys(calls, Model) ==> HasTokens(Group(calls, Model, key))
  }

  lemma FullByGroups(rows: seq<Row>, per: Column, column: Column)
    ensures Full(rows, column) <==> forall key :: key in Keys(rows, per) ==> Full(Group(rows, per, key), column)
  {
    if Full(rows, column) {
      forall key, r | key in Keys(rows, per) && r in Group(rows, per, key)
        ensures Cell(r, column) != Null
      {
        GroupHolds(rows, per, key, r);
      }
    }
    if forall key :: key in Keys(rows, per) ==> Full(Group(rows, per, key), column) {
      forall r | r in rows
        ensures Cell(r, column) != Null
      {
        var key := Cell(r, per);
        assert key in Keys(rows, per) && Full(Group(rows, per, key), column);
        GroupHolds(rows, per, key, r);
      }
    }
  }

  /**
   q2 through Flow is q2 through Polars exactly when no model call lacks a span id and every model
   counted some tokens.
   */
  lemma FlowQ2AgreesIff(rows: seq<Row>)
    ensures Q2(rows, FlowPerModel()) == Q2(rows, PolarsPerModel())
       <==> Full(Filter(rows, IsLlm()), SpanId) && EveryModelHasTokens(rows)
  {
    var calls := Filter(rows, IsLlm());
    GroupsAgreeIff(calls, Model, PolarsPerModel(), FlowPerModel());
    FullByGroups(calls, Model, SpanId);
    forall key
      ensures PolarsPerModel()(Group(calls, Model, key)) == FlowPerModel()(Group(calls, Model, key)) <==>
        Full(Group(calls, Model, key), SpanId) && HasTokens(Group(calls, Model, key))
    {
      PerModelAgree(Group(calls, Model, key));
    }
  }

  /**
   q2 through Acero, which counts the model column, is q2 through Polars exactly when no model call
   lacks its model.
   */
  lemma AceroQ2AgreesIff(rows: seq<Row>)
    ensures Q2(rows, AceroPerModel()) == Q2(rows, PolarsPerModel())
       <==> Full(Filter(rows, IsLlm()), Model) && EveryModelHasTokens(rows)
  {
    var calls := Filter(rows, IsLlm());
    GroupsAgreeIff(calls, Model, PolarsPerModel(), AceroPerModel());
    FullByGroups(calls, Model, Model);
    forall key
      ensures PolarsPerModel()(Group(calls, Model, key)) == AceroPerModel()(Group(calls, Model, key)) <==>
        Full(Group(calls, Model, key), Model) && HasTokens(Group(calls, Model, key))
    {
      PerModelAgree(Group(calls, Model, key));
    }
  }

  ghost predicate CorpusRows(rows: seq<Row>) {
    forall r :: r in rows ==> CorpusRow(r)
  }

  lemma CorpusCalls(rows: seq<Row>)
    requires CorpusRows(rows)
    ensures Full(Filter(rows, IsLlm()), SpanId) && Full(Filter(rows, IsLlm()), Model) && EveryModelHasTokens(rows)
  {
    var calls := Filter(rows, IsLlm());
    forall r | r in calls
      ensures CorpusRow(r) && Cell(r, Kind) == LLM
    {
      assert IsLlm()(r);
    }
    forall key | key in Keys(calls, Model)
      ensures HasTokens(Group(calls, Model, key))
    {
      var r :| r in calls && Cell(r, Model) == key;
      GroupHolds(calls, Model, key, r);
    }
  }

  /** On a generated corpus all three are one query. */
  lemma Q2IsOneQuery(rows: seq<Row>)
    requires CorpusRows(rows)
    ensures Q2(rows, FlowPerModel()) == Q2(rows, PolarsPerModel()) == Q2(rows, AceroPerModel())
  {
    CorpusCalls(rows);
    FlowQ2AgreesIff(rows);
    AceroQ2AgreesIff(rows);
  }

  const NEEDED := {Kind, Model, InputTokens, OutputTokens, DurationMs}

  lemma PerModelBlind(columns: set<Column>)
    requires NEEDED <= columns
    ensures Blind(PolarsPerModel(), columns) && Blind(AceroPerModel(), columns)
    ensures SpanId in columns ==> Blind(FlowPerModel(), columns)
  {
    forall a, b | Alike(a, b, columns)
      ensures PolarsPerModel()(a) == PolarsPerModel()(b) && AceroPerModel()(a) == AceroPerModel()(b)
      ensures SpanId in columns ==> FlowPerModel()(a) == FlowPerModel()(b)
    {
      AggregatesAlike(a, b, columns, InputTokens);
      AggregatesAlike(a, b, columns, OutputTokens);
      AggregatesAlike(a, b, columns, DurationMs);
      AggregatesAlike(a, b, columns, Model);
      if SpanId in columns {
        AggregatesAlike(a, b, columns, SpanId);
      }
    }
  }

  /** Columns a query does not use may be dropped before it, and rows it filters out may be dropped before that. */
  lemma Q2Pushdown(rows: seq<Row>, kept: set<Column>, aggregate: seq<Row> -> PerModel)
    requires NEEDED <= kept && Blind(aggregate, kept)
    ensures Q2(ProjectAll(rows, kept), aggregate) == Q2(rows, aggregate)
    ensures Q2(ProjectAll(Filter(rows, IsLlm()), kept), aggregate) == Q2(rows, aggregate)
  {
    var calls := Filter(rows, IsLlm());
    ProjectionAlike(rows, kept, kept);
    ProjectionAlike(calls, kept, kept);
    FilterAlike(rows, ProjectAll(rows, kept), kept, IsLlm());
    FilterAlike(calls, ProjectAll(calls, kept), kept, IsLlm());
    FilterAll(calls, IsLlm());
    GroupByAlike(calls, Filter(ProjectAll(rows, kept), IsLlm()), kept, Model, aggregate);
    GroupByAlike(calls, Filter(ProjectAll(calls, kept), IsLlm()), kept, Model, aggregate);
  }

  /**
   The three ways of loading what Acero then groups: everything, the needed columns, the needed
   columns of the calls.
   */
  lemma AceroLoadsAgree(rows: seq<Row>)
    ensures Q2(ProjectAll(rows, NEEDED), AceroPerModel()) == Q2(rows, AceroPerModel())
    ensures Q2(ProjectAll(Filter(rows, IsLlm()), NEEDED), AceroPerModel()) == Q2(rows, AceroPerModel())
    ensures Q2(ProjectAll(rows, NEEDED), PolarsPerModel()) == Q2(rows, PolarsPerModel())
  {
    PerModelBlind(NEEDED);
    Q2Pushdown(rows, NEEDED, AceroPerModel());
    Q2Pushdown(rows, NEEDED, PolarsPerModel());
  }

  // ── q3: one row per run ────────────────────────────────────────────────────

  datatype PerRun = PerRun(spans: nat, input: Value, output: Value, longest: Value)

  function PolarsPerRun(): seq<Row> -> PerRun {
    (g: seq<Row>) => PerRun(|g|, Int(ZeroSum(g, InputTokens)), Int(ZeroSum(g, OutputTokens)), Max(g, DurationMs))
  }

  /** SQL sums, with a null coalesced to zero afterwards. */
  function FlowPerRun(): seq<Row> -> PerRun {
    (g: seq<Row>) =>
      PerRun(Count(g, SpanId), OrZero(SqlSum(g, InputTokens)), OrZero(SqlSum(g, OutputTokens)), Max(g, DurationMs))
  }

  /** q3 has a row for every run, with its spans, its tokens in, its tokens out and its longest duration. */
  lemma Q3Answers(rows: seq<Row>, run: Value)
    ensures var answer, spans := GroupBy(rows, RunId, PolarsPerRun()), Filter(rows, KeyIs(RunId, run));
      && (run in answer <==> exists r :: r in rows && Cell(r, RunId) == run)
      && (run in answer ==>
            && answer[run].spans == |spans|
            && answer[run].input == Int(ZeroSum(spans, InputTokens))
            && answer[run].output == Int(ZeroSum(spans, OutputTokens))
            && answer[run].longest == Max(spans, DurationMs))
  {
  }

  /** q3 agrees on every table without a null span id: runs with no model call at all included. */
  lemma Q3AgreesIff(rows: seq<Row>)
    ensures GroupBy(rows, RunId, FlowPerRun()) == GroupBy(rows, RunId, PolarsPerRun()) <==> Full(rows, SpanId)
  {
    GroupsAgreeIff(rows, RunId, FlowPerRun(), PolarsPerRun());
    FullByGroups(rows, RunId, SpanId);
    forall key
      ensures FlowPerRun()(Group(rows, RunId, key)) == PolarsPerRun()(Group(rows, RunId, key)) <==>
        Full(Group(rows, RunId, key), SpanId)
    {
      var g := Group(rows, RunId, key);
      SumsAgree(g, InputTokens);
      SumsAgree(g, OutputTokens);
      CountsAll(g, SpanId);
    }
  }

  /** Without the coalescing it would not: a run of no model calls sums to null on one side and to zero on the other. */
  lemma UncoalescedDiffers(g: seq<Row>)
    requires Count(g, InputTokens) == 0
    ensures SqlSum(g, InputTokens) == Null && Int(ZeroSum(g, InputTokens)) == Int(0)
  {
    SumsAgree(g, InputTokens);
  }
}
