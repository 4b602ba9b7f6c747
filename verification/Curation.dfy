/**
 q4, the curation query: a join with the price table, or three lookups in its place
 (benchmarks/curation/profile_flow.php).
 */
module Curation {
  import opened Wrappers
  import opened Order
  import opened Corpus
  import opened CorpusFacts

  const OK := Text("ok")

  function IsGoodCall(): Row -> bool { (r: Row) => Cell(r, Status) == OK && Cell(r, Kind) == LLM }

  datatype Curated = Curated(
    spanId: Value, runId: Value, day: Value, agentId: Value, model: Value, provider: Value, totalTokens: Value,
    costUsd: Value, durationMs: Value)

  function Quantity(v: Value): real
    requires v.Int? || v.Real?
  {
    if v.Int? then v.n as real else v.x
  }

  predicate Numeric(v: Value) { v.Int? || v.Real? }

  function Plus(a: Value, b: Value): Value {
    if !Numeric(a) || !Numeric(b) then Null
    else if a.Int? && b.Int? then Int(a.n + b.n) else Real(Quantity(a) + Quantity(b))
  }

  function Times(a: Value, b: Value): Value {
    if Numeric(a) && Numeric(b) then Real(Quantity(a) * Quantity(b)) else Null
  }

  // ── The day of an instant ──────────────────────────────────────────────────

  /** What comes before the first occurrence, or everything where there is none. */
  function Before(s: string, mark: char): string {
    if s == "" || s[0] == mark then "" else [s[0]] + Before(s[1..], mark)
  }

  function Clipped(s: string, n: nat): string { if |s| < n then s else s[..n] }

  function DayOf(start: Value): Value { if start.Text? then Text(Before(start.text, 'T')) else Null }

  function FirstTen(start: Value): Value { if start.Text? then Text(Clipped(start.text, 10)) else Null }

  lemma {:induction false} BeforeFirst(s: string, mark: char, n: nat)
    requires n <= |s| && mark !in s[..n] && (n == |s| || s[n] == mark)
    ensures Before(s, mark) == s[..n]
  {
    if n > 0 {
      assert s[..n] == [s[0]] + s[1..][..n - 1];
      BeforeFirst(s[1..], mark, n - 1);
    }
  }

  function FirstAt(s: string, mark: char): (n: nat)
    ensures n <= |s| && mark !in s[..n] && (n == |s| || s[n] == mark)
  {
    if s == "" || s[0] == mark then 0
    else
      var n := FirstAt(s[1..], mark);
      assert s[..n + 1] == [s[0]] + s[1..][..n];
      n + 1
  }

  /** An instant that writes its date in ten characters. */
  predicate DatedInTen(s: string) {
    if |s| > 10 then s[10] == 'T' && 'T' !in s[..10] else 'T' !in s
  }

  /** The text before the T and the first ten characters name one day exactly then. */
  lemma DaysAgreeIff(s: string)
    ensures DayOf(Text(s)) == FirstTen(Text(s)) <==> DatedInTen(s)
  {
    var n := FirstAt(s, 'T');
    BeforeFirst(s, 'T', n);
    assert s[..|s|] == s;
    if DatedInTen(s) {
      BeforeFirst(s, 'T', if |s| > 10 then 10 else |s|);
    }
    assert |Clipped(s, 10)| == if |s| < 10 then |s| else 10;
  }

  // ── Two ways to price a call ───────────────────────────────────────────────

  function Curate(r: Row, day: Value -> Value, provider: Value, priceIn: Value, priceOut: Value): Curated {
    var tokensIn, tokensOut := Cell(r, InputTokens), Cell(r, OutputTokens);
    Curated(
      Cell(r, SpanId), Cell(r, RunId), day(Cell(r, Start)), Cell(r, AgentId), Cell(r, Model), provider,
      Plus(tokensIn, tokensOut), Plus(Times(tokensIn, priceIn), Times(tokensOut, priceOut)), Cell(r, DurationMs))
  }

  function Prices(r: Row): Price -> bool { (p: Price) => Cell(r, Model) == Text(p.model) }

  function Priced(r: Row, day: Value -> Value): Price -> seq<Curated> {
    (p: Price) =>
      if Prices(r)(p) then [Curate(r, day, Text(p.provider), Real(p.input), Real(p.output))] else []
  }

  function JoinRow(prices: seq<Price>, day: Value -> Value): Row -> seq<Curated> {
    (r: Row) => FlatMap(prices, Priced(r, day))
  }

  /** q4 with an inner join: a row for every price of the call's model. */
  function Joined(rows: seq<Row>, prices: seq<Price>, day: Value -> Value): seq<Curated> {
    FlatMap(Filter(rows, IsGoodCall()), JoinRow(prices, day))
  }

  /** A case of a lookup: the model it is for, and the value it gives. */
  datatype Case = Case(model: string, value: Value)

  /** The first case that is for the model, and null when none is. */
  function Match(cases: seq<Case>, model: Value): Value {
    if cases == [] then Null
    else if model == Text(cases[0].model) then cases[0].value
    else Match(cases[1..], model)
  }

  function Cases(prices: seq<Price>, value: Price -> Value): (cases: seq<Case>)
    ensures |cases| == |prices|
    ensures forall i :: 0 <= i < |prices| ==> cases[i] == Case(prices[i].model, value(prices[i]))
  {
    seq(|prices|, i requires 0 <= i < |prices| => Case(prices[i].model, value(prices[i])))
  }

  function Provider(): Price -> Value { (p: Price) => Text(p.provider) }

  function InputPrice(): Price -> Value { (p: Price) => Real(p.input) }

  function OutputPrice(): Price -> Value { (p: Price) => Real(p.output) }

  datatype Lookups = Lookups(provider: seq<Case>, input: seq<Case>, output: seq<Case>)

  function LookupsOf(prices: seq<Price>): Lookups {
    Lookups(Cases(prices, Provider()), Cases(prices, InputPrice()), Cases(prices, OutputPrice()))
  }

  /** `price_lookups`: the price table as three lookups a row carries. */
  method PriceLookups(prices: seq<Price>) returns (lookups: Lookups)
    ensures lookups == LookupsOf(prices)
  {
    var provider: seq<Case>, input: seq<Case>, output: seq<Case> := [], [], [];
    for i := 0 to |prices|
      invariant |provider| == |input| == |output| == i
      invariant forall k :: 0 <= k < i ==> provider[k] == Case(prices[k].model, Text(prices[k].provider))
      invariant forall k :: 0 <= k < i ==> input[k] == Case(prices[k].model, Real(prices[k].input))
      invariant forall k :: 0 <= k < i ==> output[k] == Case(prices[k].model, Real(prices[k].output))
    {
      var row := prices[i];
      provider := provider + [Case(row.model, Text(row.provider))];
      input := input + [Case(row.model, Real(row.input))];
      output := output + [Case(row.model, Real(row.output))];
    }
    lookups := Lookups(provider, input, output);
    assert provider == Cases(prices, Provider());
    assert input == Cases(prices, InputPrice());
    assert output == Cases(prices, OutputPrice());
  }

  function LookUp(lookups: Lookups, day: Value -> Value): Row -> seq<Curated> {
    (r: Row) =>
      var model := Cell(r, Model);
      [Curate(r, day, Match(lookups.provider, model), Match(lookups.input, model), Match(lookups.output, model))]
  }

  /** q4 with the lookups: one row for every call, whatever the table holds. */
  function Rewritten(rows: seq<Row>, lookups: Lookups, day: Value -> Value): seq<Curated> {
    FlatMap(Filter(rows, IsGoodCall()), LookUp(lookups, day))
  }

  lemma {:induction false} MatchFirst(prices: seq<Price>, value: Price -> Value, r: Row)
    ensures First(prices, Prices(r)).None? ==> Match(Cases(prices, value), Cell(r, Model)) == Null
    ensures First(prices, Prices(r)).Some? ==>
      Match(Cases(prices, value), Cell(r, Model)) == value(First(prices, Prices(r)).value)
  {
    if prices != [] {
      MatchFirst(prices[1..], value, r);
      assert Cases(prices, value)[1..] == Cases(prices[1..], value);
    }
  }

  // ── What a call is billed ──────────────────────────────────────────────────

  function ProfileTotalTokens(tokensIn: int, tokensOut: int): int { tokensIn + tokensOut }

  function ProfileCostUsd(tokensIn: int, tokensOut: int, priceIn: real, priceOut: real): real {
    tokensIn as real * priceIn + tokensOut as real * priceOut
  }

  /** The identifiers of the call, the provider of the price, and tokens at the prices for in and for out. */
  ghost predicate Billed(c: Curated, r: Row, p: Price, day: Value -> Value) {
    && c.spanId == Cell(r, SpanId) && c.runId == Cell(r, RunId) && c.agentId == Cell(r, AgentId)
    && c.durationMs == Cell(r, DurationMs) && c.day == day(Cell(r, Start))
    && c.model == Cell(r, Model) == Text(p.model) && c.provider == Text(p.provider)
    && forall tokensIn, tokensOut ::
         Cell(r, InputTokens) == Int(tokensIn) && Cell(r, OutputTokens) == Int(tokensOut) ==>
      && c.totalTokens == Int(tokensIn + tokensOut)
      && c.costUsd == Real(tokensIn as real * p.input + tokensOut as real * p.output)
  }

  lemma CuratedIsBilled(r: Row, p: Price, day: Value -> Value)
    requires Cell(r, Model) == Text(p.model)
    ensures Billed(Curate(r, day, Text(p.provider), Real(p.input), Real(p.output)), r, p, day)
  {
    forall tokensIn, tokensOut | Cell(r, InputTokens) == Int(tokensIn) && Cell(r, OutputTokens) == Int(tokensOut)
      ensures Plus(Times(Int(tokensIn), Real(p.input)), Times(Int(tokensOut), Real(p.output)))
           == Real(tokensIn as real * p.input + tokensOut as real * p.output)
    {
      PlainCost(tokensIn, tokensOut, p.input, p.output);
    }
  }

  lemma PlainCost(tokensIn: int, tokensOut: int, priceIn: real, priceOut: real)
    ensures Plus(Times(Int(tokensIn), Real(priceIn)), Times(Int(tokensOut), Real(priceOut)))
         == Real(tokensIn as real * priceIn + tokensOut as real * priceOut)
         == Real(ProfileCostUsd(tokensIn, tokensOut, priceIn, priceOut))
  {
  }

  /** The join bills a call once at each price of its model, and at no other. */
  lemma JoinBills(r: Row, prices: seq<Price>, day: Value -> Value)
    ensures forall c :: c in JoinRow(prices, day)(r) ==> exists p :: p in prices && Billed(c, r, p, day)
    ensures forall p :: p in prices && Cell(r, Model) == Text(p.model) ==>
      exists c :: c in JoinRow(prices, day)(r) && Billed(c, r, p, day)
  {
    forall c | c in JoinRow(prices, day)(r)
      ensures exists p :: p in prices && Billed(c, r, p, day)
    {
      FlatMapMembers(prices, Priced(r, day), c);
      var p :| p in prices && c in Priced(r, day)(p);
      assert Prices(r)(p);
      CuratedIsBilled(r, p, day);
    }
    forall p | p in prices && Cell(r, Model) == Text(p.model)
      ensures exists c :: c in JoinRow(prices, day)(r) && Billed(c, r, p, day)
    {
      var c := Curate(r, day, Text(p.provider), Real(p.input), Real(p.output));
      assert Prices(r)(p) && Priced(r, day)(p) == [c];
      FlatMapMembers(prices, Priced(r, day), c);
      CuratedIsBilled(r, p, day);
    }
  }

  /** q4 as a whole: the calls that succeeded, each billed at each price of its model, and nothing else. */
  lemma JoinedBills(rows: seq<Row>, prices: seq<Price>, day: Value -> Value)
    ensures forall c :: c in Joined(rows, prices, day) ==>
      exists r, p :: r in rows && p in prices && Succeeded(r) && Billed(c, r, p, day)
    ensures forall r, p :: r in rows && p in prices && Succeeded(r) && Cell(r, Model) == Text(p.model) ==>
      exists c :: c in Joined(rows, prices, day) && Billed(c, r, p, day)
  {
    var calls := Filter(rows, IsGoodCall());
    forall c | c in Joined(rows, prices, day)
      ensures exists r, p :: r in rows && p in prices && Succeeded(r) && Billed(c, r, p, day)
    {
      FlatMapMembers(calls, JoinRow(prices, day), c);
      var r :| r in calls && c in JoinRow(prices, day)(r);
      assert IsGoodCall()(r);
      JoinBills(r, prices, day);
    }
    forall r, p | r in rows && p in prices && Succeeded(r) && Cell(r, Model) == Text(p.model)
      ensures exists c :: c in Joined(rows, prices, day) && Billed(c, r, p, day)
    {
      assert IsGoodCall()(r);
      JoinBills(r, prices, day);
      var c :| c in JoinRow(prices, day)(r) && Billed(c, r, p, day);
      FlatMapMembers(calls, JoinRow(prices, day), c);
    }
  }

  predicate Succeeded(r: Row) { Cell(r, Status) == Text("ok") && Cell(r, Kind) == Text("llm") }

  predicate FirstPrice(r: Row, prices: seq<Price>, i: int) {
    && 0 <= i < |prices| && Cell(r, Model) == Text(prices[i].model)
    && forall j :: 0 <= j < i ==> Cell(r, Model) != Text(prices[j].model)
  }

  /** The lookups bill a call at the first price of its model, and leave it unpriced where there is none. */
  lemma LookUpBills(r: Row, prices: seq<Price>, day: Value -> Value)
    ensures var out := LookUp(LookupsOf(prices), day)(r);
      && |out| == 1
      && ((exists p :: p in prices && Cell(r, Model) == Text(p.model)) ==>
            exists i :: FirstPrice(r, prices, i) && Billed(out[0], r, prices[i], day))
      && ((forall p :: p in prices ==> Cell(r, Model) != Text(p.model)) ==> out[0].provider == out[0].costUsd == Null)
  {
    var found := First(prices, Prices(r));
    MatchFirst(prices, Provider(), r);
    MatchFirst(prices, InputPrice(), r);
    MatchFirst(prices, OutputPrice(), r);
    if found.Some? {
      FirstComesFirst(prices, Prices(r));
      var i :| 0 <= i < |prices| && prices[i] == found.value && forall j :: 0 <= j < i ==> !Prices(r)(prices[j]);
      CuratedIsBilled(r, prices[i], day);
      assert Prices(r)(prices[i]) && forall j :: 0 <= j < i ==> !Prices(r)(prices[j]);
      assert FirstPrice(r, prices, i);
    }
  }

  // ── The same with plain functions ──────────────────────────────────────────

  /** PHP's TypeError: a null where a number or a text is declared. */
  datatype TypeError = TypeError

  /** What the three calls are declared to take: a text, two integers and two floats. */
  predicate Callable(r: Row, priceIn: Value, priceOut: Value) {
    && Cell(r, Start).Text? && Cell(r, InputTokens).Int? && Cell(r, OutputTokens).Int?
    && priceIn.Real? && priceOut.Real?
  }

  /** One row of the native form: day, total and cost by a call each. */
  function NativeRow(r: Row, provider: Value, priceIn: Value, priceOut: Value): Result<Curated, TypeError> {
    if !Callable(r, priceIn, priceOut) then Err(TypeError)
    else
      var tokensIn, tokensOut := Cell(r, InputTokens).n, Cell(r, OutputTokens).n;
      Ok(Curated(
        Cell(r, SpanId), Cell(r, RunId), Text(Clipped(Cell(r, Start).text, 10)), Cell(r, AgentId), Cell(r, Model),
        provider, Int(ProfileTotalTokens(tokensIn, tokensOut)),
        Real(ProfileCostUsd(tokensIn, tokensOut, priceIn.x, priceOut.x)), Cell(r, DurationMs)))
  }

  function NativeLookUp(r: Row, lookups: Lookups): Result<Curated, TypeError> {
    var model := Cell(r, Model);
    NativeRow(r, Match(lookups.provider, model), Match(lookups.input, model), Match(lookups.output, model))
  }

  function NativeRows(calls: seq<Row>, lookups: Lookups): Result<seq<Curated>, TypeError> {
    if calls == [] then Ok([])
    else
      var n := |calls| - 1;
      var before := NativeRows(calls[..n], lookups);
      if before.Err? then before
      else
        match NativeLookUp(calls[n], lookups)
        case Err(error) => Err(error)
        case Ok(row) => Ok(before.value + [row])
  }

  /** q4 with the lookups and plain functions: it raises where a call lacks a number it needs. */
  function RewrittenNative(rows: seq<Row>, lookups: Lookups): Result<seq<Curated>, TypeError> {
    NativeRows(Filter(rows, IsGoodCall()), lookups)
  }

  /** A call the native form can bill. */
  predicate Complete(r: Row, prices: seq<Price>) {
    && Cell(r, Start).Text? && Cell(r, InputTokens).Int? && Cell(r, OutputTokens).Int?
    && exists p :: p in prices && Cell(r, Model) == Text(p.model)
  }

  lemma NativeRowCurates(r: Row, provider: Value, priceIn: Value, priceOut: Value)
    requires Callable(r, priceIn, priceOut)
    ensures NativeRow(r, provider, priceIn, priceOut) == Ok(Curate(r, FirstTen, provider, priceIn, priceOut))
  {
    NativeCost(Cell(r, InputTokens), Cell(r, OutputTokens), priceIn, priceOut);
  }

  lemma NativeCost(tokensIn: Value, tokensOut: Value, priceIn: Value, priceOut: Value)
    requires tokensIn.Int? && tokensOut.Int? && priceIn.Real? && priceOut.Real?
    ensures Plus(Times(tokensIn, priceIn), Times(tokensOut, priceOut))
         == Real(ProfileCostUsd(tokensIn.n, tokensOut.n, priceIn.x, priceOut.x))
  {
    PlainCost(tokensIn.n, tokensOut.n, priceIn.x, priceOut.x);
    assert Times(tokensIn, priceIn) == Times(Int(tokensIn.n), Real(priceIn.x));
    assert Times(tokensOut, priceOut) == Times(Int(tokensOut.n), Real(priceOut.x));
  }

  lemma NativeRowAgrees(r: Row, prices: seq<Price>)
    ensures var native := NativeLookUp(r, LookupsOf(prices));
      && (native.Ok? <==> Complete(r, prices))
      && (native.Ok? ==> LookUp(LookupsOf(prices), FirstTen)(r) == [native.value])
  {
    var found := First(prices, Prices(r));
    MatchFirst(prices, Provider(), r);
    MatchFirst(prices, InputPrice(), r);
    MatchFirst(prices, OutputPrice(), r);
    if found.Some? {
      assert Prices(r)(found.value);
      var p := found.value;
      if Callable(r, Real(p.input), Real(p.output)) {
        NativeRowCurates(r, Text(p.provider), Real(p.input), Real(p.output));
      }
    } else {
      assert forall p :: p in prices ==> !Prices(r)(p);
    }
  }

  lemma {:induction false} NativeRowsAgree(calls: seq<Row>, prices: seq<Price>)
    ensures var native := NativeRows(calls, LookupsOf(prices));
      && (native.Ok? <==> forall r :: r in calls ==> Complete(r, prices))
      && (native.Ok? ==> native.value == FlatMap(calls, LookUp(LookupsOf(prices), FirstTen)))
  {
    if calls != [] {
      var n := |calls| - 1;
      NativeRowsAgree(calls[..n], prices);
      NativeRowAgrees(calls[n], prices);
      assert forall r :: r in calls <==> r in calls[..n] || r == calls[n];
    }
  }

  /**
   The native form gives the rows of the lookups, in order, exactly when every call that passes the
   filter has its start, both token counts and a price; otherwise it raises.
   */
  lemma NativeAgreesIff(rows: seq<Row>, prices: seq<Price>)
    ensures var native := RewrittenNative(rows, LookupsOf(prices));
      && (native == Ok(Rewritten(rows, LookupsOf(prices), FirstTen))
          <==> forall r :: r in Filter(rows, IsGoodCall()) ==> Complete(r, prices))
      && (native.Err? <==> exists r :: r in Filter(rows, IsGoodCall()) && !Complete(r, prices))
  {
    NativeRowsAgree(Filter(rows, IsGoodCall()), prices);
  }

  // ── When they agree ────────────────────────────────────────────────────────

  lemma {:induction false} JoinRowCounts(r: Row, prices: seq<Price>, day: Value -> Value)
    ensures |FlatMap(prices, Priced(r, day))| == |Filter(prices, Prices(r))|
    ensures forall c :: c in FlatMap(prices, Priced(r, day)) ==> c.provider != Null
  {
    if prices != [] {
      JoinRowCounts(r, prices[..|prices| - 1], day);
    }
  }

  predicate PricedOnce(r: Row, prices: seq<Price>) { |Filter(prices, Prices(r))| == 1 }

  lemma JoinOnce(r: Row, prices: seq<Price>, day: Value -> Value, k: nat)
    requires PricedOnce(r, prices) && k < |prices| && Prices(r)(prices[k])
    ensures FlatMap(prices, Priced(r, day)) == Priced(r, day)(prices[k])
  {
    JoinRowCounts(r, prices, day);
    FlatMapSole(prices, Priced(r, day), k);
  }

  /** A call whose model has one price comes out of the join and of the lookups as the same row. */
  lemma OnePriceAgrees(r: Row, prices: seq<Price>, day: Value -> Value)
    requires PricedOnce(r, prices)
    ensures JoinRow(prices, day)(r) == LookUp(LookupsOf(prices), day)(r)
  {
    var found := First(prices, Prices(r));
    if found.None? {
      FilterNone(prices, Prices(r));
    } else {
      var k :| 0 <= k < |prices| && prices[k] == found.value;
      JoinOnce(r, prices, day, k);
      MatchFirst(prices, Provider(), r);
      MatchFirst(prices, InputPrice(), r);
      MatchFirst(prices, OutputPrice(), r);
    }
  }

  lemma Unpriced(rows: seq<Row>, prices: seq<Price>, day: Value -> Value, r: Row)
    requires r in Filter(rows, IsGoodCall()) && Filter(prices, Prices(r)) == []
    ensures multiset(Joined(rows, prices, day)) != multiset(Rewritten(rows, LookupsOf(prices), day))
  {
    var calls := Filter(rows, IsGoodCall());
    MatchFirst(prices, Provider(), r);
    assert forall p :: p in prices ==> p in Filter(prices, Prices(r)) || !Prices(r)(p);
    assert First(prices, Prices(r)).None?;
    var out := LookUp(LookupsOf(prices), day)(r)[0];
    assert out.provider == Null;
    FlatMapMembers(calls, LookUp(LookupsOf(prices), day), out);
    FlatMapMembers(calls, JoinRow(prices, day), out);
    forall s
      ensures out !in JoinRow(prices, day)(s)
    {
      JoinRowCounts(s, prices, day);
    }
    assert out in multiset(Rewritten(rows, LookupsOf(prices), day));
    assert out !in multiset(Joined(rows, prices, day));
  }

  /**
   Replacing the join by the lookups keeps the rows that come out, as a multiset, exactly when
   every call that passes the filter has its model in the table once.
   */
  lemma RewriteAgreesIff(rows: seq<Row>, prices: seq<Price>, day: Value -> Value)
    ensures multiset(Joined(rows, prices, day)) == multiset(Rewritten(rows, LookupsOf(prices), day))
       <==> forall r :: r in Filter(rows, IsGoodCall()) ==> PricedOnce(r, prices)
  {
    var calls := Filter(rows, IsGoodCall());
    var join, look := JoinRow(prices, day), LookUp(LookupsOf(prices), day);
    if forall r :: r in calls ==> PricedOnce(r, prices) {
      forall r | r in calls
        ensures join(r) == look(r)
      {
        OnePriceAgrees(r, prices, day);
      }
      FlatMapSame(calls, join, look);
    } else if r :| r in calls && Filter(prices, Prices(r)) == [] {
      Unpriced(rows, prices, day, r);
    } else {
      forall r | r in calls
        ensures |join(r)| == |Filter(prices, Prices(r))| >= 1
      {
        JoinRowCounts(r, prices, day);
      }
      FlatMapLength(calls, join);
      FlatMapLength(calls, look);
      assert |multiset(FlatMap(calls, join))| != |multiset(FlatMap(calls, look))|;
    }
  }

  lemma CorpusPricedOnce(r: Row)
    requires CorpusRow(r) && Cell(r, Kind) == LLM
    ensures PricedOnce(r, MODELS)
  {
    var m :| 0 <= m < |MODELS| && Cell(r, Model) == Text(MODELS[m].model);
    forall j | 0 <= j < |MODELS|
      ensures Prices(r)(MODELS[j]) <==> j == m
    {
      if MODELS[j].model == MODELS[m].model {
        ModelsDistinct(j, m);
      }
    }
    FilterOne(MODELS, Prices(r), m);
  }

  /** On a generated corpus, with the price table written beside it, the rewriting keeps every row. */
  lemma RewriteHoldsOnCorpus(rows: seq<Row>, day: Value -> Value)
    requires forall r :: r in rows ==> CorpusRow(r)
    ensures multiset(Joined(rows, MODELS, day)) == multiset(Rewritten(rows, LookupsOf(MODELS), day))
  {
    forall r | r in Filter(rows, IsGoodCall())
      ensures PricedOnce(r, MODELS)
    {
      assert IsGoodCall()(r);
      CorpusPricedOnce(r);
    }
    RewriteAgreesIff(rows, MODELS, day);
  }

  /** And so does the native form, which then raises on no call. */
  lemma NativeHoldsOnCorpus(rows: seq<Row>)
    requires forall r :: r in rows ==> CorpusRow(r) && Cell(r, Start).Text?
    ensures var native := RewrittenNative(rows, LookupsOf(MODELS));
      native.Ok? && multiset(native.value) == multiset(Joined(rows, MODELS, FirstTen))
  {
    forall r | r in Filter(rows, IsGoodCall())
      ensures Complete(r, MODELS)
    {
      assert IsGoodCall()(r) && CorpusRow(r);
      var m :| 0 <= m < |MODELS| && Cell(r, Model) == Text(MODELS[m].model);
      assert MODELS[m] in MODELS;
    }
    NativeAgreesIff(rows, MODELS);
    RewriteHoldsOnCorpus(rows, FirstTen);
  }

  lemma SameDay(r: Row, provider: Value, priceIn: Value, priceOut: Value)
    requires DayOf(Cell(r, Start)) == FirstTen(Cell(r, Start))
    ensures Curate(r, DayOf, provider, priceIn, priceOut) == Curate(r, FirstTen, provider, priceIn, priceOut)
  {
  }

  /** Where every instant has its date in ten characters, taking the day either way curates the same rows. */
  lemma DaysCurateAlike(rows: seq<Row>, prices: seq<Price>)
    requires forall r :: r in rows ==> Cell(r, Start).Text? ==> DatedInTen(Cell(r, Start).text)
    ensures Joined(rows, prices, DayOf) == Joined(rows, prices, FirstTen)
  {
    forall r | r in Filter(rows, IsGoodCall())
      ensures JoinRow(prices, DayOf)(r) == JoinRow(prices, FirstTen)(r)
    {
      if Cell(r, Start).Text? {
        DaysAgreeIff(Cell(r, Start).text);
      }
      assert DayOf(Cell(r, Start)) == FirstTen(Cell(r, Start));
      forall p | p in prices
        ensures Priced(r, DayOf)(p) == Priced(r, FirstTen)(p)
      {
        SameDay(r, Text(p.provider), Real(p.input), Real(p.output));
      }
      FlatMapSame(prices, Priced(r, DayOf), Priced(r, FirstTen));
    }
    FlatMapSame(Filter(rows, IsGoodCall()), JoinRow(prices, DayOf), JoinRow(prices, FirstTen));
  }
}
