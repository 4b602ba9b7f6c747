/** String order, stable sorting by a key, and the first match of a sorted list. */
module Order {
  import opened Wrappers

  /** Python's `<` on strings: by code point, a proper prefix first. */
  predicate Less(a: string, b: string) {
    if b == "" then false
    else if a == "" then true
    else a[0] < b[0] || (a[0] == b[0] && Less(a[1..], b[1..]))
  }

  predicate Leq(a: string, b: string) { a == b || Less(a, b) }

  /** The two agree up to `k`, and there the first has ended or has the smaller character. */
  predicate PartAt(a: string, b: string, k: nat) {
    && k <= |a| && k < |b| && (forall i :: 0 <= i < k ==> a[i] == b[i])
    && (k == |a| || (a[k] as int) < (b[k] as int))
  }

  /** One string is before another exactly when the first place where they part says so. */
  lemma {:induction false} LessIff(a: string, b: string)
    ensures Less(a, b) <==> exists k: nat :: PartAt(a, b, k)
  {
    if a != "" && b != "" {
      LessIff(a[1..], b[1..]);
      if a[0] == b[0] && Less(a[1..], b[1..]) {
        var k: nat :| PartAt(a[1..], b[1..], k);
        assert PartAt(a, b, k + 1) by {
          assert forall i :: 1 <= i < k + 1 ==> a[i] == a[1..][i - 1] && b[i] == b[1..][i - 1];
        }
      } else if a[0] < b[0] {
        assert PartAt(a, b, 0);
      }
      if k: nat :| PartAt(a, b, k) {
        if k > 0 {
          assert PartAt(a[1..], b[1..], k - 1) by {
            assert forall i :: 0 <= i < k - 1 ==> a[1..][i] == a[i + 1] && b[1..][i] == b[i + 1];
          }
        }
      }
    } else if b != "" {
      assert PartAt(a, b, 0);
    }
  }

  lemma {:induction false} LessTotal(a: string, b: string)
    ensures Less(a, b) || a == b || Less(b, a)
    ensures !(Less(a, b) && Less(b, a)) && !(a == b && Less(a, b))
  {
    if a != "" && b != "" {
      LessTotal(a[1..], b[1..]);
      assert a == [a[0]] + a[1..] && b == [b[0]] + b[1..];
    }
  }

  lemma {:induction false} LessTransitive(a: string, b: string, c: string)
    requires Less(a, b) && Less(b, c)
    ensures Less(a, c)
  {
    if a != "" && a[0] == b[0] == c[0] {
      LessTransitive(a[1..], b[1..], c[1..]);
    }
  }

  lemma LeqOrder(a: string, b: string, c: string)
    ensures Leq(a, b) || Leq(b, a)
    ensures Leq(a, b) && Leq(b, a) ==> a == b
    ensures Leq(a, b) && Leq(b, c) ==> Leq(a, c)
  {
    LessTotal(a, b);
    if Less(a, b) && Less(b, c) {
      LessTransitive(a, b, c);
    }
  }

  // ── Sorting by a key ───────────────────────────────────────────────────────

  /** A comparison of keys: any two compare, and comparing chains. */
  ghost predicate Ranking<T(!new)>(leq: (T, T) -> bool) {
    && (forall x, y :: leq(x, y) || leq(y, x))
    && (forall x, y, z :: leq(x, y) && leq(y, z) ==> leq(x, z))
  }

  ghost predicate Ordered<T>(s: seq<T>, leq: (T, T) -> bool) {
    forall i, j :: 0 <= i < j < |s| ==> leq(s[i], s[j])
  }

  function Insert<T>(s: seq<T>, x: T, leq: (T, T) -> bool): seq<T> {
    if s == [] || leq(s[|s| - 1], x) then s + [x] else Insert(s[..|s| - 1], x, leq) + [s[|s| - 1]]
  }

  /** `sorted`, which keeps elements with equal keys in the order they came. */
  function Sort<T>(s: seq<T>, leq: (T, T) -> bool): seq<T> {
    if s == [] then [] else Insert(Sort(s[..|s| - 1], leq), s[|s| - 1], leq)
  }

  lemma {:induction false} InsertPermutes<T>(s: seq<T>, x: T, leq: (T, T) -> bool)
    ensures multiset(Insert(s, x, leq)) == multiset(s) + multiset{x}
  {
    if s != [] && !leq(s[|s| - 1], x) {
      InsertPermutes(s[..|s| - 1], x, leq);
      assert s == s[..|s| - 1] + [s[|s| - 1]];
    }
  }

  lemma {:induction false} SortPermutes<T>(s: seq<T>, leq: (T, T) -> bool)
    ensures multiset(Sort(s, leq)) == multiset(s)
  {
    if s != [] {
      SortPermutes(s[..|s| - 1], leq);
      InsertPermutes(Sort(s[..|s| - 1], leq), s[|s| - 1], leq);
      assert s == s[..|s| - 1] + [s[|s| - 1]];
    }
  }

  lemma MembersOfPermutation<T>(s: seq<T>, t: seq<T>)
    requires multiset(s) == multiset(t)
    ensures |s| == |t| && forall x :: x in s <==> x in t
  {
    assert |multiset(s)| == |s| && |multiset(t)| == |t|;
    forall x
      ensures x in s <==> x in t
    {
      assert x in s <==> x in multiset(s);
      assert x in t <==> x in multiset(t);
    }
  }

  ghost predicate NoDuplicates<T>(s: seq<T>) {
    forall i, j :: 0 <= i < j < |s| ==> s[i] != s[j]
  }

  lemma {:induction false} CountedOnce<T>(s: seq<T>, x: T)
    requires NoDuplicates(s)
    ensures multiset(s)[x] <= 1
  {
    if s != [] {
      CountedOnce(s[..|s| - 1], x);
      assert s == s[..|s| - 1] + [s[|s| - 1]];
    }
  }

  lemma CountedTwice<T>(s: seq<T>, i: int, j: int)
    requires 0 <= i < j < |s| && s[i] == s[j]
    ensures multiset(s)[s[j]] > 1
  {
    var a, b := s[..j], s[j + 1..];
    assert s == a + [s[j]] + b && a[i] == s[j];
    assert multiset(s) == multiset(a) + multiset{s[j]} + multiset(b);
  }

  lemma DistinctPermutes<T>(s: seq<T>, t: seq<T>)
    requires NoDuplicates(s) && multiset(s) == multiset(t)
    ensures NoDuplicates(t)
  {
    forall i, j | 0 <= i < j < |t|
      ensures t[i] != t[j]
    {
      CountedOnce(s, t[j]);
      if t[i] == t[j] {
        CountedTwice(t, i, j);
      }
    }
  }

  lemma {:induction false} InsertOrders<T(!new)>(s: seq<T>, x: T, leq: (T, T) -> bool)
    requires Ranking(leq) && Ordered(s, leq)
    ensures Ordered(Insert(s, x, leq), leq)
  {
    if s != [] && !leq(s[|s| - 1], x) {
      var init, last := s[..|s| - 1], s[|s| - 1];
      InsertOrders(init, x, leq);
      InsertPermutes(init, x, leq);
      var t := Insert(init, x, leq);
      MembersOfPermutation(t, init + [x]);
      forall i | 0 <= i < |t|
        ensures leq(t[i], last)
      {
        assert t[i] in init + [x];
      }
    }
  }

  lemma {:induction false} SortOrders<T(!new)>(s: seq<T>, leq: (T, T) -> bool)
    requires Ranking(leq)
    ensures Ordered(Sort(s, leq), leq)
  {
    if s != [] {
      SortOrders(s[..|s| - 1], leq);
      InsertOrders(Sort(s[..|s| - 1], leq), s[|s| - 1], leq);
    }
  }

  // ── The first match ────────────────────────────────────────────────────────

  function First<T>(s: seq<T>, wanted: T -> bool): (r: Option<T>)
    ensures r.None? <==> forall x :: x in s ==> !wanted(x)
    ensures r.Some? ==> r.value in s && wanted(r.value)
  {
    if s == [] then None
    else if wanted(s[0]) then Some(s[0])
    else
      assert forall x :: x in s ==> x == s[0] || x in s[1..];
      First(s[1..], wanted)
  }

  /** Nothing before the first match matches. */
  lemma {:induction false} FirstComesFirst<T(!new)>(s: seq<T>, wanted: T -> bool)
    requires First(s, wanted).Some?
    ensures exists i :: 0 <= i < |s| && s[i] == First(s, wanted).value && forall j :: 0 <= j < i ==> !wanted(s[j])
  {
    if !wanted(s[0]) {
      FirstComesFirst(s[1..], wanted);
      var i :| 0 <= i < |s[1..]| && s[1..][i] == First(s, wanted).value
          && forall j :: 0 <= j < i ==> !wanted(s[1..][j]);
      assert forall j :: 0 < j <= i ==> s[j] == s[1..][j - 1];
      assert s[i + 1] == s[1..][i];
    }
  }

  lemma {:induction false} FirstOfOrdered<T(!new)>(s: seq<T>, leq: (T, T) -> bool, wanted: T -> bool, x: T)
    requires Ranking(leq) && Ordered(s, leq) && x in s && wanted(x)
    ensures First(s, wanted).Some? && leq(First(s, wanted).value, x)
  {
    if !wanted(s[0]) {
      assert x in s[1..];
      FirstOfOrdered(s[1..], leq, wanted, x);
    } else {
      assert leq(s[0], s[0]);
    }
  }

  /** Searching a sorted list finds a wanted element of least key, when there is a wanted element. */
  lemma FirstIsLeast<T(!new)>(s: seq<T>, leq: (T, T) -> bool, wanted: T -> bool)
    requires Ranking(leq)
    ensures var r := First(Sort(s, leq), wanted);
      && (r.None? <==> forall x :: x in s ==> !wanted(x))
      && (r.Some? ==> r.value in s && wanted(r.value) && forall x :: x in s && wanted(x) ==> leq(r.value, x))
  {
    SortPermutes(s, leq);
    SortOrders(s, leq);
    MembersOfPermutation(s, Sort(s, leq));
    forall x | x in s && wanted(x)
      ensures First(Sort(s, leq), wanted).Some? && leq(First(Sort(s, leq), wanted).value, x)
    {
      FirstOfOrdered(Sort(s, leq), leq, wanted, x);
    }
  }

  lemma LeastFirst<T(!new)>(s: seq<T>, leq: (T, T) -> bool)
    requires Ranking(leq) && s != []
    ensures Sort(s, leq) != [] && Sort(s, leq)[0] in s && forall x :: x in s ==> leq(Sort(s, leq)[0], x)
  {
    SortPermutes(s, leq);
    SortOrders(s, leq);
    var sorted := Sort(s, leq);
    MembersOfPermutation(s, sorted);
    forall x | x in s
      ensures leq(sorted[0], x)
    {
      assert x in sorted;
      var i :| 0 <= i < |sorted| && sorted[i] == x;
      assert leq(sorted[0], sorted[0]);
    }
  }

  // ── Keeping some elements ──────────────────────────────────────────────────

  function Filter<T(!new)>(s: seq<T>, keep: T -> bool): (r: seq<T>)
    ensures forall x :: x in r <==> x in s && keep(x)
  {
    if s == [] then []
    else
      var init, last := s[..|s| - 1], s[|s| - 1];
      assert forall x :: x in s <==> x in init || x == last;
      if keep(last) then Filter(init, keep) + [last] else Filter(init, keep)
  }

  lemma {:induction false} FilterNone<T(!new)>(s: seq<T>, keep: T -> bool)
    requires forall x :: x in s ==> !keep(x)
    ensures Filter(s, keep) == []
  {
    if s != [] {
      FilterNone(s[..|s| - 1], keep);
    }
  }

  lemma {:induction false} FilterAll<T(!new)>(s: seq<T>, keep: T -> bool)
    requires forall x :: x in s ==> keep(x)
    ensures Filter(s, keep) == s
  {
    if s != [] {
      FilterAll(s[..|s| - 1], keep);
    }
  }

  lemma {:induction false} FilterAppends<T(!new)>(s: seq<T>, t: seq<T>, keep: T -> bool)
    ensures Filter(s + t, keep) == Filter(s, keep) + Filter(t, keep)
  {
    if t == [] {
      assert s + t == s;
    } else {
      FilterAppends(s, t[..|t| - 1], keep);
      assert (s + t)[..|s + t| - 1] == s + t[..|t| - 1];
    }
  }

  lemma {:induction false} FilterCounts<T(!new)>(s: seq<T>, keep: T -> bool, x: T)
    ensures multiset(Filter(s, keep))[x] == if keep(x) then multiset(s)[x] else 0
  {
    if s != [] {
      var init, last := s[..|s| - 1], s[|s| - 1];
      FilterCounts(init, keep, x);
      assert s == init + [last];
    }
  }

  lemma FilterPermutes<T(!new)>(s: seq<T>, t: seq<T>, keep: T -> bool)
    requires multiset(s) == multiset(t)
    ensures multiset(Filter(s, keep)) == multiset(Filter(t, keep))
  {
    forall x
      ensures multiset(Filter(s, keep))[x] == multiset(Filter(t, keep))[x]
    {
      FilterCounts(s, keep, x);
      FilterCounts(t, keep, x);
    }
  }

  // ── One list per element, end to end ───────────────────────────────────────

  function FlatMap<A, B>(s: seq<A>, f: A -> seq<B>): seq<B> {
    if s == [] then [] else FlatMap(s[..|s| - 1], f) + f(s[|s| - 1])
  }

  lemma {:induction false} FlatMapAppends<A, B>(s: seq<A>, t: seq<A>, f: A -> seq<B>)
    ensures FlatMap(s + t, f) == FlatMap(s, f) + FlatMap(t, f)
  {
    if t == [] {
      assert s + t == s;
    } else {
      FlatMapAppends(s, t[..|t| - 1], f);
      assert (s + t)[..|s + t| - 1] == s + t[..|t| - 1];
    }
  }

  lemma {:induction false} FlatMapFilter<A(!new), B>(s: seq<A>, keep: A -> bool, f: A -> seq<B>)
    requires forall x :: x in s && !keep(x) ==> f(x) == []
    ensures FlatMap(Filter(s, keep), f) == FlatMap(s, f)
  {
    if s != [] {
      FlatMapFilter(s[..|s| - 1], keep, f);
      var kept := Filter(s, keep);
      if keep(s[|s| - 1]) {
        assert kept[..|kept| - 1] == Filter(s[..|s| - 1], keep);
      }
    }
  }

  lemma FlatMapAround<A, B>(a: seq<A>, x: A, b: seq<A>, f: A -> seq<B>)
    ensures FlatMap(a + [x] + b, f) == FlatMap(a, f) + f(x) + FlatMap(b, f)
  {
    FlatMapAppends(a + [x], b, f);
    FlatMapAppends(a, [x], f);
    assert [x][..0] == [];
    assert FlatMap([x], f) == FlatMap([x][..0], f) + f(x) == f(x);
  }

  lemma FlatMapSole<A, B>(s: seq<A>, f: A -> seq<B>, k: nat)
    requires k < |s| && |FlatMap(s, f)| == |f(s[k])|
    ensures FlatMap(s, f) == f(s[k])
  {
    FlatMapAround(s[..k], s[k], s[k + 1..], f);
    assert s == s[..k] + [s[k]] + s[k + 1..];
  }

  lemma {:induction false} FlatMapPermutes<A, B>(s: seq<A>, t: seq<A>, f: A -> seq<B>)
    requires multiset(s) == multiset(t)
    ensures multiset(FlatMap(s, f)) == multiset(FlatMap(t, f))
    decreases |s|
  {
    MembersOfPermutation(s, t);
    if s != [] {
      var init, x := s[..|s| - 1], s[|s| - 1];
      assert s == init + [x];
      assert x in s && x in t;
      var k :| 0 <= k < |t| && t[k] == x;
      var a, b := t[..k], t[k + 1..];
      assert t == a + [x] + b;
      WithoutOne(init, x, a, b);
      FlatMapPermutes(init, a + b, f);
      FlatMapAppends(a, b, f);
      FlatMapAround(a, x, b, f);
    }
  }

  lemma WithoutOne<A>(init: seq<A>, x: A, a: seq<A>, b: seq<A>)
    requires multiset(init + [x]) == multiset(a + [x] + b)
    ensures multiset(init) == multiset(a + b)
  {
    assert multiset(init) + multiset{x} == multiset(a + b) + multiset{x};
    assert multiset(init) == multiset(init) + multiset{x} - multiset{x};
    assert multiset(a + b) == multiset(a + b) + multiset{x} - multiset{x};
  }

  lemma {:induction false} FlatMapSame<A(!new), B>(s: seq<A>, f: A -> seq<B>, g: A -> seq<B>)
    requires forall x :: x in s ==> f(x) == g(x)
    ensures FlatMap(s, f) == FlatMap(s, g)
  {
    if s != [] {
      FlatMapSame(s[..|s| - 1], f, g);
    }
  }

  lemma {:induction false} FlatMapMembers<A(!new), B(!new)>(s: seq<A>, f: A -> seq<B>, y: B)
    ensures y in FlatMap(s, f) <==> exists x :: x in s && y in f(x)
  {
    if s != [] {
      FlatMapMembers(s[..|s| - 1], f, y);
      assert forall x :: x in s <==> x in s[..|s| - 1] || x == s[|s| - 1];
    }
  }

  /** With something from every element, there is one thing per element exactly when each gives one. */
  lemma {:induction false} FlatMapLength<A(!new), B>(s: seq<A>, f: A -> seq<B>)
    requires forall x :: x in s ==> |f(x)| >= 1
    ensures |FlatMap(s, f)| >= |s|
    ensures |FlatMap(s, f)| == |s| <==> forall x :: x in s ==> |f(x)| == 1
  {
    if s != [] {
      FlatMapLength(s[..|s| - 1], f);
      assert forall x :: x in s <==> x in s[..|s| - 1] || x == s[|s| - 1];
    }
  }

  lemma {:induction false} FilterOne<T(!new)>(s: seq<T>, keep: T -> bool, k: nat)
    requires k < |s| && forall j :: 0 <= j < |s| ==> (keep(s[j]) <==> j == k)
    ensures |Filter(s, keep)| == 1
  {
    var n := |s| - 1;
    if k == n {
      FilterNone(s[..n], keep);
    } else {
      FilterOne(s[..n], keep, k);
    }
  }
}
