/** The few relational operators the benchmark queries are made of, with nullable columns (benchmarks/curation). */
module Relations {
  import opened Order
  import opened Corpus
  import opened Ratios

  function NotNull(column: Column): Row -> bool { (r: Row) => Cell(r, column) != Null }

  function KeyIs(column: Column, key: Value): Row -> bool { (r: Row) => Cell(r, column) == key }

  // ── Aggregates of one group ────────────────────────────────────────────────

  /** `count(column)`: the rows in which the column is not null. */
  function Count(g: seq<Row>, column: Column): nat { |Filter(g, NotNull(column))| }

  function Number(v: Value): int { if v.Int? then v.n else 0 }

  /** A sum that counts a null as zero, as Polars has it. */
  function ZeroSum(g: seq<Row>, column: Column): int {
    if g == [] then 0 else ZeroSum(g[..|g| - 1], column) + Number(Cell(g[|g| - 1], column))
  }

  function AddSql(a: Value, b: Value): Value {
    if b == Null then a else if a == Null then Int(Number(b)) else Int(Number(a) + Number(b))
  }

  /** A sum as SQL has it: nulls are passed over, and a group of nothing else sums to null. */
  function SqlSum(g: seq<Row>, column: Column): Value {
    if g == [] then Null else AddSql(SqlSum(g[..|g| - 1], column), Cell(g[|g| - 1], column))
  }

  function Mean(g: seq<Row>, column: Column): Value {
    if Count(g, column) == 0 then Null else Real(ZeroSum(g, column) as real / Count(g, column) as real)
  }

  function Max(g: seq<Row>, column: Column): Value {
    if g == [] then Null
    else
      var m, v := Max(g[..|g| - 1], column), Cell(g[|g| - 1], column);
      if v == Null || (m != Null && Number(v) <= Number(m)) then m else v
  }

  function OrZero(v: Value): Value { if v == Null then Int(0) else v }

  /** The two sums tell each other apart on no more than groups of nulls. */
  lemma {:induction false} SumsAgree(g: seq<Row>, column: Column)
    ensures SqlSum(g, column) == if Count(g, column) == 0 then Null else Int(ZeroSum(g, column))
    ensures Count(g, column) == 0 ==> ZeroSum(g, column) == 0
    ensures OrZero(SqlSum(g, column)) == Int(ZeroSum(g, column))
  {
    if g != [] {
      SumsAgree(g[..|g| - 1], column);
      assert NotNull(column)(g[|g| - 1]) <==> Cell(g[|g| - 1], column) != Null;
    }
  }

  lemma {:induction false} CountsAll(g: seq<Row>, column: Column)
    ensures Count(g, column) <= |g|
    ensures Count(g, column) == |g| <==> forall r :: r in g ==> Cell(r, column) != Null
    ensures Count(g, column) == 0 <==> forall r :: r in g ==> Cell(r, column) == Null
  {
    if g != [] {
      var init, last := g[..|g| - 1], g[|g| - 1];
      CountsAll(init, column);
      assert forall r :: r in g <==> r in init || r == last;
      assert NotNull(column)(last) <==> Cell(last, column) != Null;
    }
  }

  // ── What they come to ──────────────────────────────────────────────────────

  /** A sum of one row is its number, or nothing where it has none. */
  lemma SumOfOne(r: Row, column: Column)
    ensures ZeroSum([r], column) == match Cell(r, column) case Int(n) => n case _ => 0
    ensures Count([r], column) == if Cell(r, column) == Null then 0 else 1
  {
    assert [r][..0] == [];
    assert ZeroSum([r], column) == ZeroSum([], column) + Number(Cell(r, column));
    var keep := NotNull(column);
    assert keep(r) <==> Cell(r, column) != Null;
    if keep(r) {
      FilterAll([r], keep);
    } else {
      FilterNone([r], keep);
    }
  }

  /** And sums and counts of two parts of a table add up to those of the whole. */
  lemma {:induction false} SumsAddUp(a: seq<Row>, b: seq<Row>, column: Column)
    ensures ZeroSum(a + b, column) == ZeroSum(a, column) + ZeroSum(b, column)
    ensures Count(a + b, column) == Count(a, column) + Count(b, column)
  {
    FilterAppends(a, b, NotNull(column));
    if b == [] {
      assert a + b == a;
    } else {
      SumsAddUp(a, b[..|b| - 1], column);
      assert (a + b)[..|a + b| - 1] == a + b[..|b| - 1];
    }
  }

  ghost predicate Integral(g: seq<Row>, column: Column) {
    forall r :: r in g ==> Cell(r, column) == Null || Cell(r, column).Int?
  }

  /** The maximum is the largest number of the column, and null where there is none. */
  lemma {:induction false} MaxIsLargest(g: seq<Row>, column: Column)
    requires Integral(g, column)
    ensures var m := Max(g, column);
      && (m == Null <==> forall r :: r in g ==> Cell(r, column) == Null)
      && (m != Null ==> m.Int? && (exists r :: r in g && Cell(r, column) == m)
                        && forall r :: r in g && Cell(r, column).Int? ==> Cell(r, column).n <= m.n)
  {
    if g != [] {
      var init, last := g[..|g| - 1], g[|g| - 1];
      MaxIsLargest(init, column);
      assert forall r :: r in g <==> r in init || r == last;
    }
  }

  predicate IsShare(share: real, sum: int, n: nat) { share * n as real == sum as real }

  lemma ShareIs(sum: int, n: nat)
    requires n > 0
    ensures IsShare(sum as real / n as real, sum, n)
  {
    Quotient(sum as real, n as real, sum as real / n as real);
  }

  /** The mean, times how many numbers there are, is their sum. */
  lemma MeanIsShare(g: seq<Row>, column: Column)
    ensures var n, m := Count(g, column), Mean(g, column);
      if n == 0 then m == Null else m.Real? && IsShare(m.x, ZeroSum(g, column), n)
  {
    if Count(g, column) > 0 {
      ShareIs(ZeroSum(g, column), Count(g, column));
    }
  }

  // ── Grouping ───────────────────────────────────────────────────────────────

  function Keys(rows: seq<Row>, column: Column): set<Value> { set r | r in rows :: Cell(r, column) }

  function Group(rows: seq<Row>, column: Column, key: Value): seq<Row> { Filter(rows, KeyIs(column, key)) }

  function GroupBy<R>(rows: seq<Row>, column: Column, aggregate: seq<Row> -> R): map<Value, R> {
    map key | key in Keys(rows, column) :: aggregate(Group(rows, column, key))
  }

  lemma GroupsAgreeIff<R>(rows: seq<Row>, column: Column, f: seq<Row> -> R, g: seq<Row> -> R)
    ensures GroupBy(rows, column, f) == GroupBy(rows, column, g) <==>
      forall key :: key in Keys(rows, column) ==> f(Group(rows, column, key)) == g(Group(rows, column, key))
  {
    var a, b := GroupBy(rows, column, f), GroupBy(rows, column, g);
    if a == b {
      forall key | key in Keys(rows, column)
        ensures f(Group(rows, column, key)) == g(Group(rows, column, key))
      {
        assert a[key] == b[key];
      }
    }
  }

  /** A group holds the rows of its key, and at least one. */
  lemma GroupHolds(rows: seq<Row>, column: Column, key: Value, r: Row)
    ensures r in Group(rows, column, key) <==> r in rows && Cell(r, column) == key
    ensures key in Keys(rows, column) ==> Group(rows, column, key) != []
  {
    assert KeyIs(column, key)(r) <==> Cell(r, column) == key;
    if key in Keys(rows, column) {
      var s :| s in rows && Cell(s, column) == key;
      assert KeyIs(column, key)(s) && s in Group(rows, column, key);
    }
  }

  // ── Rows that look alike in some columns ───────────────────────────────────

  /** Dropping every other column. */
  function Project(row: Row, columns: set<Column>): Row { map c | c in row && c in columns :: row[c] }

  function ProjectAll(rows: seq<Row>, columns: set<Column>): (r: seq<Row>)
    ensures |r| == |rows|
  {
    seq(|rows|, i requires 0 <= i < |rows| => Project(rows[i], columns))
  }

  ghost predicate Alike(a: seq<Row>, b: seq<Row>, columns: set<Column>) {
    && |a| == |b|
    && forall i, c :: 0 <= i < |a| && c in columns ==> Cell(a[i], c) == Cell(b[i], c)
  }

  lemma ProjectionAlike(rows: seq<Row>, kept: set<Column>, columns: set<Column>)
    requires columns <= kept
    ensures Alike(rows, ProjectAll(rows, kept), columns)
  {
  }

  /** A condition that looks at no other columns keeps rows that are alike. */
  ghost predicate LooksAt(p: Row -> bool, columns: set<Column>) {
    forall r, s :: (forall c :: c in columns ==> Cell(r, c) == Cell(s, c)) ==> p(r) == p(s)
  }

  lemma {:induction false} FilterAlike(a: seq<Row>, b: seq<Row>, columns: set<Column>, p: Row -> bool)
    requires Alike(a, b, columns) && LooksAt(p, columns)
    ensures Alike(Filter(a, p), Filter(b, p), columns)
  {
    if a != [] {
      FilterAlike(a[..|a| - 1], b[..|b| - 1], columns, p);
      assert p(a[|a| - 1]) == p(b[|b| - 1]);
    }
  }

  lemma InitAlike(a: seq<Row>, b: seq<Row>, columns: set<Column>, column: Column)
    requires Alike(a, b, columns) && column in columns && a != []
    ensures Alike(a[..|a| - 1], b[..|b| - 1], columns)
    ensures Cell(a[|a| - 1], column) == Cell(b[|b| - 1], column)
  {
  }

  lemma {:induction false} CountAlike(a: seq<Row>, b: seq<Row>, columns: set<Column>, column: Column)
    requires Alike(a, b, columns) && column in columns
    ensures Count(a, column) == Count(b, column)
  {
    if a != [] {
      InitAlike(a, b, columns, column);
      CountAlike(a[..|a| - 1], b[..|b| - 1], columns, column);
      assert NotNull(column)(a[|a| - 1]) == NotNull(column)(b[|b| - 1]);
    }
  }

  lemma {:induction false} SumsAlike(a: seq<Row>, b: seq<Row>, columns: set<Column>, column: Column)
    requires Alike(a, b, columns) && column in columns
    ensures ZeroSum(a, column) == ZeroSum(b, column) && SqlSum(a, column) == SqlSum(b, column)
  {
    if a != [] {
      InitAlike(a, b, columns, column);
      SumsAlike(a[..|a| - 1], b[..|b| - 1], columns, column);
    }
  }

  lemma {:induction false} MaxAlike(a: seq<Row>, b: seq<Row>, columns: set<Column>, column: Column)
    requires Alike(a, b, columns) && column in columns
    ensures Max(a, column) == Max(b, column)
  {
    if a != [] {
      InitAlike(a, b, columns, column);
      MaxAlike(a[..|a| - 1], b[..|b| - 1], columns, column);
    }
  }

  lemma AggregatesAlike(a: seq<Row>, b: seq<Row>, columns: set<Column>, column: Column)
    requires Alike(a, b, columns) && column in columns
    ensures Count(a, column) == Count(b, column) && ZeroSum(a, column) == ZeroSum(b, column)
    ensures SqlSum(a, column) == SqlSum(b, column) && Mean(a, column) == Mean(b, column)
    ensures Max(a, column) == Max(b, column)
  {
    CountAlike(a, b, columns, column);
    SumsAlike(a, b, columns, column);
    MaxAlike(a, b, columns, column);
  }

  lemma KeysAlike(a: seq<Row>, b: seq<Row>, columns: set<Column>, column: Column)
    requires Alike(a, b, columns) && column in columns
    ensures Keys(a, column) == Keys(b, column)
  {
    forall key | key in Keys(a, column)
      ensures key in Keys(b, column)
    {
      var i :| 0 <= i < |a| && Cell(a[i], column) == key;
      assert b[i] in b;
    }
    forall key | key in Keys(b, column)
      ensures key in Keys(a, column)
    {
      var i :| 0 <= i < |b| && Cell(b[i], column) == key;
      assert a[i] in a;
    }
  }

  /** An aggregate that cannot tell rows that are alike groups them alike. */
  ghost predicate Blind<R>(aggregate: seq<Row> -> R, columns: set<Column>) {
    forall a, b {:trigger Alike(a, b, columns)} :: Alike(a, b, columns) ==> aggregate(a) == aggregate(b)
  }

  lemma KeyLooksAt(columns: set<Column>, column: Column, key: Value)
    requires column in columns
    ensures LooksAt(KeyIs(column, key), columns)
  {
  }

  ghost predicate SameGroups<R>(a: seq<Row>, b: seq<Row>, column: Column, aggregate: seq<Row> -> R) {
    forall key :: key in Keys(a, column) ==> aggregate(Group(a, column, key)) == aggregate(Group(b, column, key))
  }

  lemma GroupsAlike<R>(a: seq<Row>, b: seq<Row>, columns: set<Column>, column: Column, aggregate: seq<Row> -> R)
    requires Alike(a, b, columns) && column in columns && Blind(aggregate, columns)
    ensures SameGroups(a, b, column, aggregate)
  {
    forall key | key in Keys(a, column)
      ensures aggregate(Group(a, column, key)) == aggregate(Group(b, column, key))
    {
      KeyLooksAt(columns, column, key);
      FilterAlike(a, b, columns, KeyIs(column, key));
    }
  }

  lemma SameGroupsAgree<R>(a: seq<Row>, b: seq<Row>, column: Column, aggregate: seq<Row> -> R)
    requires Keys(a, column) == Keys(b, column) && SameGroups(a, b, column, aggregate)
    ensures GroupBy(a, column, aggregate) == GroupBy(b, column, aggregate)
  {
  }

  lemma GroupByAlike<R>(a: seq<Row>, b: seq<Row>, columns: set<Column>, column: Column, aggregate: seq<Row> -> R)
    requires Alike(a, b, columns) && column in columns && Blind(aggregate, columns)
    ensures GroupBy(a, column, aggregate) == GroupBy(b, column, aggregate)
  {
    KeysAlike(a, b, columns, column);
    GroupsAlike(a, b, columns, column, aggregate);
    SameGroupsAgree(a, b, column, aggregate);
  }
}
