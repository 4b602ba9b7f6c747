/** The domain a cluster already publishes under (deploy/scripts/detect-stack.py, `base_of`, `derive_domain`). */
module Domains {
  import opened Order
  import opened Detect

  const SUBDOMAIN := "aiwatcher"

  // ── Labels of a host name ──────────────────────────────────────────────────

  /** `host.split(".")`. */
  function Split(s: string): (labels: seq<string>)
    ensures labels != []
  {
    if s == "" then [""]
    else
      var rest := Split(s[1..]);
      if s[0] == '.' then [""] + rest else [[s[0]] + rest[0]] + rest[1..]
  }

  /** `".".join(labels)`. */
  function Join(labels: seq<string>): string {
    if labels == [] then ""
    else if |labels| == 1 then labels[0]
    else labels[0] + "." + Join(labels[1..])
  }

  lemma {:induction false} JoinUndoesSplit(s: string)
    ensures Join(Split(s)) == s
  {
    if s != "" {
      JoinUndoesSplit(s[1..]);
      var rest := Split(s[1..]);
      var labels := Split(s);
      if s[0] == '.' {
        assert labels[1..] == rest;
      } else {
        assert labels[1..] == rest[1..];
        assert [s[0]] + Join(rest) == Join(labels) by {
          if |rest| > 1 {
            assert [s[0]] + (rest[0] + "." + Join(rest[1..])) == ([s[0]] + rest[0]) + "." + Join(rest[1..]);
          }
        }
      }
    }
  }

  /** A label is what holds no dot. */
  predicate Dotless(s: string) { '.' !in s }

  lemma {:induction false} SplitCount(s: string)
    ensures |Split(s)| == 1 <==> Dotless(s)
    ensures Dotless(s) ==> Split(s) == [s]
  {
    if s != "" {
      SplitCount(s[1..]);
      assert s == [s[0]] + s[1..];
      assert '.' in s <==> s[0] == '.' || '.' in s[1..];
    }
  }

  lemma {:induction false} SplitLabel(label_: string, s: string)
    requires Dotless(label_)
    ensures Split(label_ + "." + s) == [label_] + Split(s)
  {
    var whole := label_ + "." + s;
    if label_ == "" {
      assert whole[1..] == s;
    } else {
      assert whole[1..] == label_[1..] + "." + s;
      SplitLabel(label_[1..], s);
      assert [label_[1..]] + Split(s) == Split(whole[1..]);
      assert [[label_[0]] + label_[1..]] + Split(s) == Split(whole);
      assert [label_[0]] + label_[1..] == label_;
    }
  }

  lemma {:induction false} SplitUndoesJoin(labels: seq<string>)
    requires labels != [] && forall l :: l in labels ==> Dotless(l)
    ensures Split(Join(labels)) == labels
  {
    if |labels| == 1 {
      SplitCount(labels[0]);
    } else {
      SplitUndoesJoin(labels[1..]);
      SplitLabel(labels[0], Join(labels[1..]));
      assert labels == [labels[0]] + labels[1..];
    }
  }

  /** The domain a sibling of the host would live under: a host of one or two labels is its own. */
  function BaseOf(host: string): string {
    var labels := Split(host);
    if |labels| > 2 then Join(labels[1..]) else host
  }

  /** The derived host is under the base it was derived from exactly when that base has two or more labels. */
  lemma SiblingBase(base: string)
    ensures BaseOf(SUBDOMAIN + "." + base) == base <==> !Dotless(base)
  {
    assert Dotless(SUBDOMAIN);
    SplitLabel(SUBDOMAIN, base);
    SplitCount(base);
    JoinUndoesSplit(base);
    assert ([SUBDOMAIN] + Split(base))[1..] == Split(base);
    assert |SUBDOMAIN + "." + base| > |base|;
  }

  /** Dropping a label brings a host of three or more under the base its siblings share. */
  lemma SiblingsShareBase(label_: string, base: string)
    requires Dotless(label_) && !Dotless(base)
    ensures BaseOf(label_ + "." + base) == base
  {
    SplitLabel(label_, base);
    SplitCount(base);
    JoinUndoesSplit(base);
    assert ([label_] + Split(base))[1..] == Split(base);
  }

  /** A host of two labels or one is its own base: its sibling never lives under somebody else's domain. */
  lemma ShortHostIsBase(label_: string, last: string)
    requires Dotless(label_) && Dotless(last)
    ensures BaseOf(label_) == label_ && BaseOf(label_ + "." + last) == label_ + "." + last
  {
    SplitCount(label_);
    SplitCount(last);
    SplitLabel(label_, last);
  }

  // ── Which hosts speak ──────────────────────────────────────────────────────

  datatype Ingress = Ingress(namespace: string, name: string, labels: Labels, hosts: seq<string>)

  datatype Entry = Entry(host: string, namespace: string, name: string)

  datatype Domain = Unnamed(why: Silence, forced: bool) | Named(host: string, base: string, forced: bool)

  datatype Silence = NoHost | Tie | OverriddenOff | OffWithDetection | ClusterNotReached

  /** The label every object of an aiwatcher release carries. */
  predicate Own(labels: Labels) {
    "app.kubernetes.io/part-of" in labels && labels["app.kubernetes.io/part-of"] == "aiwatcher"
  }

  predicate NamesOneHost(host: string) { host != "" && '*' !in host }

  function Foreign(): Ingress -> bool { (i: Ingress) => !Own(i.labels) }

  function EntryOf(ingress: Ingress): string -> seq<Entry> {
    (host: string) => if NamesOneHost(host) then [Entry(host, ingress.namespace, ingress.name)] else []
  }

  function EntriesOf(ingress: Ingress): seq<Entry> {
    if Own(ingress.labels) then [] else FlatMap(ingress.hosts, EntryOf(ingress))
  }

  function Entries(ingresses: seq<Ingress>): seq<Entry> {
    FlatMap(ingresses, EntriesOf)
  }

  function InNamespace(namespace: string): Entry -> bool { (e: Entry) => e.namespace == namespace }

  /** The hosts of the namespace being installed into, if it has any; of the whole cluster otherwise. */
  function Considered(entries: seq<Entry>, namespace: string): seq<Entry> {
    var same := Filter(entries, InNamespace(namespace));
    if same != [] then same else entries
  }

  function Under(base: string): Entry -> bool { (e: Entry) => BaseOf(e.host) == base }

  function Hosts(entries: seq<Entry>, base: string): nat {
    |Filter(entries, Under(base))|
  }

  /** The base has strictly more hosts than any other. */
  ghost predicate Plurality(entries: seq<Entry>, base: string) {
    Hosts(entries, base) > 0 && forall other :: other != base ==> Hosts(entries, other) < Hosts(entries, base)
  }

  lemma PluralityUnique(entries: seq<Entry>, a: string, b: string)
    requires Plurality(entries, a) && Plurality(entries, b)
    ensures a == b
  {
  }

  /** What is derived: nothing without a host, nothing on a tie, and otherwise a sibling under the plurality's base. */
  ghost function Winner(considered: seq<Entry>): Domain {
    if exists base :: Plurality(considered, base) then
      var base :| Plurality(considered, base);
      Named(SUBDOMAIN + "." + base, base, false)
    else Unnamed(Tie, false)
  }

  ghost function Derived(ingresses: seq<Ingress>, namespace: string): Domain {
    var considered := Considered(Entries(ingresses), namespace);
    if considered == [] then Unnamed(NoHost, false) else Winner(considered)
  }

  /** What speaks: the hosts of Ingresses other releases own, but for the empty and the wildcards. */
  ghost predicate Speaks(ingresses: seq<Ingress>, e: Entry) {
    exists i :: i in ingresses && !Own(i.labels) && e.namespace == i.namespace && e.name == i.name
                && e.host in i.hosts && e.host != "" && '*' !in e.host
  }

  lemma EntriesOfOne(ingress: Ingress, e: Entry)
    ensures e in EntriesOf(ingress) <==>
      !Own(ingress.labels) && e.namespace == ingress.namespace && e.name == ingress.name && e.host in ingress.hosts
      && e.host != "" && '*' !in e.host
  {
    FlatMapMembers(ingress.hosts, EntryOf(ingress), e);
    if e.host in ingress.hosts && NamesOneHost(e.host) {
      assert EntryOf(ingress)(e.host) == [Entry(e.host, ingress.namespace, ingress.name)];
    }
  }

  lemma EntriesSpeak(ingresses: seq<Ingress>, e: Entry)
    ensures e in Entries(ingresses) <==> Speaks(ingresses, e)
  {
    FlatMapMembers(ingresses, EntriesOf, e);
    forall i | i in ingresses
      ensures e in EntriesOf(i) <==>
        !Own(i.labels) && e.namespace == i.namespace && e.name == i.name && e.host in i.hosts
        && e.host != "" && '*' !in e.host
    {
      EntriesOfOne(i, e);
    }
  }

  /** Where the hosts that have a say agree on a base, that is the domain. */
  lemma AllUnderOne(considered: seq<Entry>, base: string)
    requires considered != [] && forall e :: e in considered ==> BaseOf(e.host) == base
    ensures Winner(considered) == Named(SUBDOMAIN + "." + base, base, false)
  {
    forall e | e in considered
      ensures Under(base)(e)
    {
    }
    FilterAll(considered, Under(base));
    forall other | other != base
      ensures Hosts(considered, other) == 0
    {
      FilterNone(considered, Under(other));
    }
    WinnerIs(considered, base);
  }

  /**
   The hosts of the namespace being installed into come first: where they agree on a base it is the
   domain, whatever the rest of the cluster publishes. Only where that namespace has no host does
   the rest decide.
   */
  lemma NamespaceComesFirst(ingresses: seq<Ingress>, namespace: string, base: string)
    ensures (exists e :: Speaks(ingresses, e) && e.namespace == namespace)
            && (forall e :: Speaks(ingresses, e) && e.namespace == namespace ==> BaseOf(e.host) == base)
      ==> Derived(ingresses, namespace) == Named("aiwatcher." + base, base, false)
    ensures (forall e :: Speaks(ingresses, e) ==> e.namespace != namespace && BaseOf(e.host) == base)
            && (exists e :: Speaks(ingresses, e))
      ==> Derived(ingresses, namespace) == Named("aiwatcher." + base, base, false)
    ensures (forall e :: !Speaks(ingresses, e)) <==> Derived(ingresses, namespace) == Unnamed(NoHost, false)
  {
    var entries := Entries(ingresses);
    var same := Filter(entries, InNamespace(namespace));
    forall e
      ensures e in entries <==> Speaks(ingresses, e)
      ensures e in same <==> Speaks(ingresses, e) && e.namespace == namespace
    {
      EntriesSpeak(ingresses, e);
      assert InNamespace(namespace)(e) <==> e.namespace == namespace;
    }
    assert SUBDOMAIN + "." + base == "aiwatcher." + base;
    var considered := Considered(entries, namespace);
    if considered != [] {
      assert considered[0] in considered && considered[0] in entries;
      if forall e :: e in considered ==> BaseOf(e.host) == base {
        AllUnderOne(considered, base);
      }
    } else {
      assert forall e :: e !in entries;
    }
  }

  function PlacedIn(namespace: string): Ingress -> bool { (i: Ingress) => i.namespace == namespace }

  lemma {:induction false} EntriesPlaced(ingresses: seq<Ingress>, namespace: string)
    ensures Filter(Entries(ingresses), InNamespace(namespace)) == Entries(Filter(ingresses, PlacedIn(namespace)))
  {
    if ingresses != [] {
      var init, last := ingresses[..|ingresses| - 1], ingresses[|ingresses| - 1];
      EntriesPlaced(init, namespace);
      FilterAppends(Entries(init), EntriesOf(last), InNamespace(namespace));
      forall e | e in EntriesOf(last)
        ensures InNamespace(namespace)(e) <==> PlacedIn(namespace)(last)
      {
        EntriesOfOne(last, e);
      }
      if PlacedIn(namespace)(last) {
        FilterAll(EntriesOf(last), InNamespace(namespace));
        var kept := Filter(init, PlacedIn(namespace)) + [last];
        assert kept[..|kept| - 1] == Filter(init, PlacedIn(namespace));
      } else {
        FilterNone(EntriesOf(last), InNamespace(namespace));
      }
    }
  }

  /** Once the namespace has a host that speaks, the Ingresses of every other namespace might as well not be there. */
  lemma OthersHaveNoSay(ingresses: seq<Ingress>, namespace: string, e: Entry)
    requires Speaks(ingresses, e) && e.namespace == namespace
    ensures Derived(ingresses, namespace) == Derived(Filter(ingresses, PlacedIn(namespace)), namespace)
  {
    var own := Entries(Filter(ingresses, PlacedIn(namespace)));
    EntriesSpeak(ingresses, e);
    assert InNamespace(namespace)(e);
    EntriesPlaced(ingresses, namespace);
    assert e in own;
    forall x | x in own
      ensures InNamespace(namespace)(x)
    {
      assert x in Filter(Entries(ingresses), InNamespace(namespace));
    }
    FilterAll(own, InNamespace(namespace));
  }

  /** Two lists with the same hosts in some order have the same plurality. */
  lemma ConsideredPermutes(a: seq<Entry>, b: seq<Entry>, namespace: string)
    requires multiset(a) == multiset(b)
    ensures multiset(Considered(a, namespace)) == multiset(Considered(b, namespace))
  {
    FilterPermutes(a, b, InNamespace(namespace));
    MembersOfPermutation(Filter(a, InNamespace(namespace)), Filter(b, InNamespace(namespace)));
  }

  lemma PluralityPermutes(a: seq<Entry>, b: seq<Entry>, base: string)
    requires multiset(a) == multiset(b)
    ensures Plurality(a, base) <==> Plurality(b, base)
  {
    forall x
      ensures Hosts(a, x) == Hosts(b, x)
    {
      FilterPermutes(a, b, Under(x));
      MembersOfPermutation(Filter(a, Under(x)), Filter(b, Under(x)));
    }
  }

  lemma EntriesPermute(a: seq<Ingress>, b: seq<Ingress>)
    requires multiset(Filter(a, Foreign())) == multiset(Filter(b, Foreign()))
    ensures multiset(Entries(a)) == multiset(Entries(b))
  {
    FlatMapFilter(a, Foreign(), EntriesOf);
    FlatMapFilter(b, Foreign(), EntriesOf);
    FlatMapPermutes(Filter(a, Foreign()), Filter(b, Foreign()), EntriesOf);
  }

  lemma WinnerIs(entries: seq<Entry>, base: string)
    requires Plurality(entries, base)
    ensures Winner(entries) == Named(SUBDOMAIN + "." + base, base, false)
  {
    var other :| Plurality(entries, other) && Winner(entries) == Named(SUBDOMAIN + "." + other, other, false);
    PluralityUnique(entries, base, other);
  }

  lemma WinnerPermutes(a: seq<Entry>, b: seq<Entry>)
    requires multiset(a) == multiset(b)
    ensures Winner(a) == Winner(b)
  {
    forall base
      ensures Plurality(a, base) <==> Plurality(b, base)
    {
      PluralityPermutes(a, b, base);
    }
    if base :| Plurality(a, base) {
      WinnerIs(a, base);
      WinnerIs(b, base);
    }
  }

  /** The answer depends on the Ingresses other releases own, and not on the order the cluster lists them in. */
  lemma DerivedFromForeign(a: seq<Ingress>, b: seq<Ingress>, namespace: string)
    requires multiset(Filter(a, Foreign())) == multiset(Filter(b, Foreign()))
    ensures Derived(a, namespace) == Derived(b, namespace)
  {
    EntriesPermute(a, b);
    var p, q := Considered(Entries(a), namespace), Considered(Entries(b), namespace);
    ConsideredPermutes(Entries(a), Entries(b), namespace);
    MembersOfPermutation(p, q);
    WinnerPermutes(p, q);
  }

  // ── Counting them ──────────────────────────────────────────────────────────

  /** The dictionary of counts: its keys in the order they were first met. */
  ghost predicate Tallies(tally: map<string, nat>, bases: seq<string>, entries: seq<Entry>) {
    && (forall i, j :: 0 <= i < j < |bases| ==> bases[i] != bases[j])
    && (forall b :: b in bases <==> b in tally)
    && (forall b :: b in tally ==> tally[b] == Hosts(entries, b) > 0)
    && (forall e :: e in entries ==> BaseOf(e.host) in tally)
  }

  function Counted(tally: map<string, nat>, base: string): map<string, nat> {
    tally[base := (if base in tally then tally[base] else 0) + 1]
  }

  lemma HostsOneMore(entries: seq<Entry>, e: Entry, base: string)
    ensures Hosts(entries + [e], base) == Hosts(entries, base) + if BaseOf(e.host) == base then 1 else 0
  {
    var all := entries + [e];
    assert all[..|all| - 1] == entries && all[|all| - 1] == e;
    assert Under(base)(e) <==> BaseOf(e.host) == base;
  }

  lemma TallyOneMore(tally: map<string, nat>, bases: seq<string>, entries: seq<Entry>, e: Entry)
    requires Tallies(tally, bases, entries)
    ensures var base := BaseOf(e.host);
      Tallies(Counted(tally, base), if base in tally then bases else bases + [base], entries + [e])
  {
    var base := BaseOf(e.host);
    var after := Counted(tally, base);
    forall b | b in after
      ensures after[b] == Hosts(entries + [e], b) > 0
    {
      HostsOneMore(entries, e, b);
      if b !in tally {
        NoneUnder(entries, b);
      }
    }
  }

  lemma TallyNext(tally: map<string, nat>, bases: seq<string>, entries: seq<Entry>, i: nat)
    requires i < |entries| && Tallies(tally, bases, entries[..i])
    ensures var base := BaseOf(entries[i].host);
      Tallies(Counted(tally, base), if base in tally then bases else bases + [base], entries[..i + 1])
  {
    TallyOneMore(tally, bases, entries[..i], entries[i]);
    assert entries[..i + 1] == entries[..i] + [entries[i]];
  }

  method Tally(entries: seq<Entry>) returns (tally: map<string, nat>, bases: seq<string>)
    ensures Tallies(tally, bases, entries)
  {
    tally, bases := map[], [];
    for i := 0 to |entries|
      invariant Tallies(tally, bases, entries[..i])
    {
      var base := BaseOf(entries[i].host);
      TallyNext(tally, bases, entries, i);
      if base !in tally {
        bases := bases + [base];
      }
      tally := Counted(tally, base);
    }
    assert entries[..|entries|] == entries;
  }

  lemma NoneUnder(entries: seq<Entry>, base: string)
    requires forall e :: e in entries ==> BaseOf(e.host) != base
    ensures Hosts(entries, base) == 0
  {
    FilterNone(entries, Under(base));
  }

  /** Most hosts first, then by base. */
  predicate CountLeq(a: Count, b: Count) {
    a.hosts > b.hosts || (a.hosts == b.hosts && Leq(a.base, b.base))
  }

  datatype Count = Count(base: string, hosts: nat)

  function ByHosts(): (Count, Count) -> bool { (a: Count, b: Count) => CountLeq(a, b) }

  lemma CountsRank()
    ensures Ranking(ByHosts())
  {
    forall a: Count, b: Count
      ensures ByHosts()(a, b) || ByHosts()(b, a)
    {
      LeqOrder(a.base, b.base, a.base);
    }
    forall a: Count, b: Count, c: Count | ByHosts()(a, b) && ByHosts()(b, c)
      ensures ByHosts()(a, c)
    {
      LeqOrder(a.base, b.base, c.base);
    }
  }

  /** One count per base that has hosts. */
  ghost predicate Lists(items: seq<Count>, entries: seq<Entry>) {
    && NoDuplicates(items)
    && (forall c :: c in items ==> c.hosts == Hosts(entries, c.base) > 0)
    && (forall e :: e in entries ==> exists c :: c in items && c.base == BaseOf(e.host))
  }

  function Items(tally: map<string, nat>, bases: seq<string>): (items: seq<Count>)
    requires forall b :: b in bases ==> b in tally
  {
    seq(|bases|, i requires 0 <= i < |bases| => Count(bases[i], tally[bases[i]]))
  }

  lemma ItemsListed(tally: map<string, nat>, bases: seq<string>, entries: seq<Entry>)
    requires Tallies(tally, bases, entries)
    ensures Lists(Items(tally, bases), entries)
  {
    var items := Items(tally, bases);
    forall e | e in entries
      ensures exists c :: c in items && c.base == BaseOf(e.host)
    {
      assert BaseOf(e.host) in bases;
      var k :| 0 <= k < |bases| && bases[k] == BaseOf(e.host);
      assert items[k] in items;
    }
  }

  lemma BaseHasHost(entries: seq<Entry>, items: seq<Count>, base: string)
    requires Lists(items, entries) && Hosts(entries, base) > 0
    ensures exists c :: c in items && c.base == base
  {
    var e := Filter(entries, Under(base))[0];
    assert e in Filter(entries, Under(base));
    assert e in entries && Under(base)(e);
  }

  /**
   The first two entries of the sorted counts decide: they differ, and the first is the plurality,
   or there is none.
   */
  lemma FirstTwoDecide(entries: seq<Entry>, ranked: seq<Count>)
    requires Lists(ranked, entries) && Ordered(ranked, ByHosts()) && entries != []
    ensures ranked != []
    ensures if |ranked| > 1 && ranked[0].hosts == ranked[1].hosts then forall base :: !Plurality(entries, base)
            else Plurality(entries, ranked[0].base)
  {
    assert entries[0] in entries;
    var top := ranked[0];
    assert top in ranked;
    forall base | base != top.base && Hosts(entries, base) > 0
      ensures |ranked| > 1 && Hosts(entries, base) <= ranked[1].hosts <= top.hosts
    {
      BaseHasHost(entries, ranked, base);
      var c :| c in ranked && c.base == base;
      var k :| 0 <= k < |ranked| && ranked[k] == c;
      assert ByHosts()(ranked[0], ranked[1]);
      if k > 1 {
        assert ByHosts()(ranked[1], ranked[k]);
      }
    }
    if |ranked| > 1 {
      assert ranked[1] in ranked;
    }
  }

  method CollectHosts(ingresses: seq<Ingress>) returns (hosts: seq<Entry>)
    ensures hosts == Entries(ingresses)
  {
    hosts := [];
    for i := 0 to |ingresses|
      invariant hosts == Entries(ingresses[..i])
    {
      var ingress := ingresses[i];
      assert ingresses[..i + 1][..i] == ingresses[..i];
      if Own(ingress.labels) {
        assert Entries(ingresses[..i + 1]) == Entries(ingresses[..i]) + [];
        continue;
      }
      ghost var before := hosts;
      for j := 0 to |ingress.hosts|
        invariant hosts == before + FlatMap(ingress.hosts[..j], EntryOf(ingress))
      {
        assert ingress.hosts[..j + 1][..j] == ingress.hosts[..j];
        var host := ingress.hosts[j];
        if !NamesOneHost(host) {
          continue;
        }
        hosts := hosts + [Entry(host, ingress.namespace, ingress.name)];
      }
      assert ingress.hosts[..|ingress.hosts|] == ingress.hosts;
    }
    assert ingresses[..|ingresses|] == ingresses;
  }

  method Decide(considered: seq<Entry>) returns (d: Domain)
    requires considered != []
    ensures d == Winner(considered)
  {
    var tally, bases := Tally(considered);
    var items := Items(tally, bases);
    ItemsListed(tally, bases, considered);
    var ranked := Sort(items, ByHosts());
    RankedListed(considered, items, ranked);
    FirstTwoDecide(considered, ranked);
    if |ranked| > 1 && ranked[0].hosts == ranked[1].hosts {
      return Unnamed(Tie, false);
    }
    WinnerIs(considered, ranked[0].base);
    return Named(SUBDOMAIN + "." + ranked[0].base, ranked[0].base, false);
  }

  lemma RankedListed(entries: seq<Entry>, items: seq<Count>, ranked: seq<Count>)
    requires Lists(items, entries) && ranked == Sort(items, ByHosts())
    ensures Lists(ranked, entries) && Ordered(ranked, ByHosts())
  {
    CountsRank();
    SortOrders(items, ByHosts());
    SortPermutes(items, ByHosts());
    MembersOfPermutation(items, ranked);
    DistinctPermutes(items, ranked);
  }

  /** A host is derived exactly when one base has strictly more hosts than every other, and it is that base's. */
  lemma DerivedIffPlurality(ingresses: seq<Ingress>, namespace: string, base: string)
    ensures var considered := Considered(Entries(ingresses), namespace);
      Plurality(considered, base) <==> Derived(ingresses, namespace) == Named(SUBDOMAIN + "." + base, base, false)
  {
    var considered := Considered(Entries(ingresses), namespace);
    if Plurality(considered, base) {
      WinnerIs(considered, base);
    }
  }

  /** `derive_domain`: comparing the first two of the sorted tally is enough to see a plurality. */
  method DeriveDomain(ingresses: seq<Ingress>, namespace: string) returns (d: Domain)
    ensures d == Derived(ingresses, namespace)
    ensures forall base :: Plurality(Considered(Entries(ingresses), namespace), base)
                           <==> d == Named(SUBDOMAIN + "." + base, base, false)
  {
    forall base
      ensures Plurality(Considered(Entries(ingresses), namespace), base)
         <==> Derived(ingresses, namespace) == Named(SUBDOMAIN + "." + base, base, false)
    {
      DerivedIffPlurality(ingresses, namespace, base);
    }
    var hosts := CollectHosts(ingresses);
    if hosts == [] {
      return Unnamed(NoHost, false);
    }
    var same := Filter(hosts, InNamespace(namespace));
    var considered := if same != [] then same else hosts;
    d := Decide(considered);
  }
}
