/** Looking for a component in a cluster (deploy/scripts/detect-stack.py, `matches`, `selects`, `find`). */
module Detect {
  import opened Wrappers
  import opened Order
  import Digits
  import opened Texts

  type Labels = map<string, string>

  datatype Target = Target(key: string, images: seq<string>, port: nat, notImages: seq<string>)

  /** A pod and the images of all its containers, the initial ones included. */
  datatype Pod = Pod(namespace: string, name: string, labels: Labels, images: seq<string>)

  datatype Service = Service(namespace: string, name: string, labels: Labels, selector: Labels, ports: seq<nat>)

  datatype Reason =
    | NoPod
    | NoService(namespace: string, name: string, port: nat)
    | ForcedOff
    | NotReached
    | Disabled

  datatype Finding =
    | Absent(reason: Reason, forced: bool)
    | Present(namespace: string, service: string, url: string, podSelector: Labels, podLabels: Labels,
              fencedBy: string, forced: bool)

  predicate Matches(target: Target, image: string) {
    if exists bad :: bad in target.notImages && Contains(image, bad) then false
    else exists good :: good in target.images && Contains(image, good)
  }

  predicate Runs(target: Target, pod: Pod) {
    exists image :: image in pod.images && Matches(target, image)
  }

  /** A Service selector picks a pod when it has entries and every one of them is on the pod. */
  predicate Selects(selector: Labels, labels: Labels) {
    selector != map[] && forall k :: k in selector ==> k in labels && labels[k] == selector[k]
  }

  predicate Serves(target: Target, pod: Pod, service: Service) {
    service.namespace == pod.namespace && Selects(service.selector, pod.labels) && target.port in service.ports
  }

  function Running(target: Target): Pod -> bool { (p: Pod) => Runs(target, p) }

  function Serving(target: Target, pod: Pod): Service -> bool { (s: Service) => Serves(target, pod, s) }

  function Served(target: Target, services: seq<Service>): Pod -> bool {
    (p: Pod) => exists s :: s in services && Serves(target, p, s)
  }

  /** Pods of the namespace being installed into come first, then by namespace and name. */
  predicate RankLeq(prefer: string, p: Pod, q: Pod) {
    if (p.namespace == prefer) != (q.namespace == prefer) then p.namespace == prefer
    else Less(p.namespace, q.namespace) || (p.namespace == q.namespace && Leq(p.name, q.name))
  }

  function ByRank(prefer: string): (Pod, Pod) -> bool { (p: Pod, q: Pod) => RankLeq(prefer, p, q) }

  function ByName(): (Service, Service) -> bool { (s: Service, t: Service) => Leq(s.name, t.name) }

  function Report(target: Target, pod: Pod, service: Service): Finding {
    Present(
      pod.namespace, service.name,
      "http://" + service.name + "." + pod.namespace + ".svc.cluster.local:" + Digits.Decimal(target.port),
      service.selector, pod.labels, "", false)
  }

  /** The first pod of the list that some Service serves, and that Service. */
  function FirstPair(target: Target, ranked: seq<Pod>, services: seq<Service>): Option<(Pod, Service)> {
    match First(ranked, Served(target, services))
    case None => None
    case Some(pod) =>
      match First(Sort(services, ByName()), Serving(target, pod))
      case None => None
      case Some(service) => Some((pod, service))
  }

  function Chosen(
    target: Target, pods: seq<Pod>, services: seq<Service>, prefer: string): (r: Option<(Pod, Service)>)
  {
    FirstPair(target, Sort(Filter(pods, Running(target)), ByRank(prefer)), services)
  }

  function Found(target: Target, pods: seq<Pod>, services: seq<Service>, prefer: string): Finding {
    match Chosen(target, pods, services, prefer)
    case Some(pair) => Report(target, pair.0, pair.1)
    case None =>
      var candidates := Sort(Filter(pods, Running(target)), ByRank(prefer));
      if candidates == [] then Absent(NoPod, false)
      else Absent(NoService(candidates[0].namespace, candidates[0].name, target.port), false)
  }

  /** The inner search: the first Service, by name, that serves the pod on the wanted port. */
  method ServiceFor(target: Target, pod: Pod, services: seq<Service>) returns (r: Option<Service>)
    ensures r == First(Sort(services, ByName()), Serving(target, pod))
  {
    var sorted := Sort(services, ByName());
    for i := 0 to |sorted|
      invariant First(sorted, Serving(target, pod)) == First(sorted[i..], Serving(target, pod))
    {
      var service := sorted[i];
      if service.namespace != pod.namespace {
        continue;
      }
      if !Selects(service.selector, pod.labels) {
        continue;
      }
      if target.port !in service.ports {
        continue;
      }
      return Some(service);
    }
    return None;
  }

  /** The outer search: pod after pod, the first that is served. */
  method Search(target: Target, ranked: seq<Pod>, services: seq<Service>) returns (r: Option<(Pod, Service)>)
    ensures r == FirstPair(target, ranked, services)
  {
    for i := 0 to |ranked|
      invariant First(ranked, Served(target, services)) == First(ranked[i..], Served(target, services))
    {
      ServedByFirst(target, ranked[i], services);
      var service := ServiceFor(target, ranked[i], services);
      if service.Some? {
        return Some((ranked[i], service.value));
      }
    }
    return None;
  }

  method Find(target: Target, pods: seq<Pod>, services: seq<Service>, prefer: string) returns (f: Finding)
    ensures f == Found(target, pods, services, prefer)
  {
    var candidates := Filter(pods, Running(target));
    var sorted := Sort(candidates, ByRank(prefer));
    SortPermutes(candidates, ByRank(prefer));
    MembersOfPermutation(candidates, sorted);
    if candidates == [] {
      return Absent(NoPod, false);
    }
    var found := Search(target, sorted, services);
    if found.Some? {
      return Report(target, found.value.0, found.value.1);
    }
    return Absent(NoService(sorted[0].namespace, sorted[0].name, target.port), false);
  }

  lemma ServedByFirst(target: Target, pod: Pod, services: seq<Service>)
    ensures Served(target, services)(pod) <==> First(Sort(services, ByName()), Serving(target, pod)).Some?
  {
    NamesRank();
    FirstIsLeast(services, ByName(), Serving(target, pod));
  }

  lemma NamesRank()
    ensures Ranking(ByName())
  {
    forall s: Service, t: Service
      ensures ByName()(s, t) || ByName()(t, s)
    {
      LeqOrder(s.name, t.name, s.name);
    }
    forall s: Service, t: Service, u: Service | ByName()(s, t) && ByName()(t, u)
      ensures ByName()(s, u)
    {
      LeqOrder(s.name, t.name, u.name);
    }
  }

  lemma RankOrder(prefer: string, p: Pod, q: Pod, r: Pod)
    ensures RankLeq(prefer, p, q) || RankLeq(prefer, q, p)
    ensures RankLeq(prefer, p, q) && RankLeq(prefer, q, p) ==> p.namespace == q.namespace && p.name == q.name
    ensures RankLeq(prefer, p, q) && RankLeq(prefer, q, r) ==> RankLeq(prefer, p, r)
  {
    LessTotal(p.namespace, q.namespace);
    LessTotal(q.namespace, r.namespace);
    LeqOrder(p.name, q.name, r.name);
    LeqOrder(p.namespace, q.namespace, r.namespace);
    LessTotal(p.namespace, r.namespace);
  }

  lemma PodsRank(prefer: string)
    ensures Ranking(ByRank(prefer))
  {
    forall p: Pod, q: Pod
      ensures ByRank(prefer)(p, q) || ByRank(prefer)(q, p)
    {
      RankOrder(prefer, p, q, p);
    }
    forall p: Pod, q: Pod, r: Pod | ByRank(prefer)(p, q) && ByRank(prefer)(q, r)
      ensures ByRank(prefer)(p, r)
    {
      RankOrder(prefer, p, q, r);
    }
  }

  // ── What is found ──────────────────────────────────────────────────────────

  /** The pod runs the component and the Service makes it reachable on its port. */
  ghost predicate Usable(target: Target, pods: seq<Pod>, services: seq<Service>, p: Pod, s: Service) {
    p in pods && s in services && Runs(target, p) && Serves(target, p, s)
  }

  lemma ServiceLeast(target: Target, pod: Pod, services: seq<Service>)
    ensures var f := First(Sort(services, ByName()), Serving(target, pod));
      && (f.Some? <==> Served(target, services)(pod))
      && (f.Some? ==> f.value in services && Serves(target, pod, f.value))
      && (f.Some? ==> forall s :: s in services && Serves(target, pod, s) ==> Leq(f.value.name, s.name))
  {
    NamesRank();
    FirstIsLeast(services, ByName(), Serving(target, pod));
    var f := First(Sort(services, ByName()), Serving(target, pod));
    if f.Some? {
      forall s | s in services && Serves(target, pod, s)
        ensures Leq(f.value.name, s.name)
      {
        assert Serving(target, pod)(s) && ByName()(f.value, s);
      }
    }
  }

  lemma PodLeast(target: Target, pods: seq<Pod>, services: seq<Service>, prefer: string)
    ensures var f := First(Sort(Filter(pods, Running(target)), ByRank(prefer)), Served(target, services));
      && (f.Some? ==> f.value in pods && Runs(target, f.value) && Served(target, services)(f.value))
      && (forall p :: p in pods && Runs(target, p) && Served(target, services)(p) ==>
            f.Some? && RankLeq(prefer, f.value, p))
  {
    PodsRank(prefer);
    FirstIsLeast(Filter(pods, Running(target)), ByRank(prefer), Served(target, services));
    var f := First(Sort(Filter(pods, Running(target)), ByRank(prefer)), Served(target, services));
    forall p | p in pods && Runs(target, p) && Served(target, services)(p)
      ensures f.Some? && RankLeq(prefer, f.value, p)
    {
      assert Running(target)(p) && p in Filter(pods, Running(target));
      assert f.Some? && ByRank(prefer)(f.value, p);
    }
  }

  lemma UsableIsServed(target: Target, pods: seq<Pod>, services: seq<Service>, p: Pod, s: Service)
    requires Usable(target, pods, services, p, s)
    ensures Served(target, services)(p)
  {
  }

  /** The search finds a usable pair exactly when there is one: the pod of least rank, and its Service of least name. */
  lemma FindsLeast(target: Target, pods: seq<Pod>, services: seq<Service>, prefer: string)
    ensures var r := Chosen(target, pods, services, prefer);
      && (r.Some? <==> exists p, s :: Usable(target, pods, services, p, s))
      && (r.Some? ==> Usable(target, pods, services, r.value.0, r.value.1))
      && (r.Some? ==> forall p, s :: Usable(target, pods, services, p, s) ==> RankLeq(prefer, r.value.0, p))
      && (r.Some? ==> forall s :: Usable(target, pods, services, r.value.0, s) ==> Leq(r.value.1.name, s.name))
  {
    PodLeast(target, pods, services, prefer);
    var f := First(Sort(Filter(pods, Running(target)), ByRank(prefer)), Served(target, services));
    if f.Some? {
      ServiceLeast(target, f.value, services);
      var g := First(Sort(services, ByName()), Serving(target, f.value));
      assert Chosen(target, pods, services, prefer) == Some((f.value, g.value));
      assert Usable(target, pods, services, f.value, g.value);
    }
    forall p, s | Usable(target, pods, services, p, s)
      ensures f.Some? && RankLeq(prefer, f.value, p)
    {
      UsableIsServed(target, pods, services, p, s);
    }
  }

  /** Nothing found: then no pod runs the component, or the one of least rank that does is named as not served. */
  lemma MissingIsTold(target: Target, pods: seq<Pod>, services: seq<Service>, prefer: string)
    ensures var f := Found(target, pods, services, prefer);
      f.Absent? ==>
        && !f.forced && (forall p, s :: !Usable(target, pods, services, p, s))
        && if forall p :: p in pods ==> !Runs(target, p) then f.reason == NoPod
           else exists p :: p in pods && Runs(target, p) && f.reason == NoService(p.namespace, p.name, target.port)
                  && forall q :: q in pods && Runs(target, q) ==> RankLeq(prefer, p, q)
  {
    FindsLeast(target, pods, services, prefer);
    var candidates := Filter(pods, Running(target));
    SortPermutes(candidates, ByRank(prefer));
    MembersOfPermutation(candidates, Sort(candidates, ByRank(prefer)));
    if candidates != [] {
      PodsRank(prefer);
      LeastFirst(candidates, ByRank(prefer));
      var p := Sort(candidates, ByRank(prefer))[0];
      assert p in pods && Running(target)(p);
      forall q | q in pods && Runs(target, q)
        ensures RankLeq(prefer, p, q)
      {
        assert Running(target)(q) && q in candidates;
      }
    } else {
      forall p | p in pods
        ensures !Runs(target, p)
      {
        assert Running(target)(p) ==> p in candidates;
      }
    }
  }

  /** A usable pod in the namespace being installed into wins over any elsewhere. */
  lemma PreferredWins(target: Target, pods: seq<Pod>, services: seq<Service>, prefer: string, p: Pod, s: Service)
    requires Usable(target, pods, services, p, s) && p.namespace == prefer
    ensures Found(target, pods, services, prefer).Present? && Found(target, pods, services, prefer).namespace == prefer
  {
    FindsLeast(target, pods, services, prefer);
  }

  ghost predicate PodNamesUnique(pods: seq<Pod>) {
    forall p, q :: p in pods && q in pods && p.namespace == q.namespace && p.name == q.name ==> p == q
  }

  ghost predicate ServiceNamesUnique(services: seq<Service>) {
    forall s, t :: s in services && t in services && s.namespace == t.namespace && s.name == t.name ==> s == t
  }

  /** Two clusters with the same usable pairs lead to the same choice. */
  lemma SamePair(
    target: Target, pods: seq<Pod>, pods': seq<Pod>, services: seq<Service>, services': seq<Service>, prefer: string)
    requires PodNamesUnique(pods) && ServiceNamesUnique(services)
    requires forall p, s :: Usable(target, pods, services, p, s) <==> Usable(target, pods', services', p, s)
    ensures Chosen(target, pods, services, prefer) == Chosen(target, pods', services', prefer)
  {
    FindsLeast(target, pods, services, prefer);
    FindsLeast(target, pods', services', prefer);
    var r, r' := Chosen(target, pods, services, prefer), Chosen(target, pods', services', prefer);
    if r.Some? && r'.Some? {
      assert Usable(target, pods, services, r.value.0, r.value.1);
      assert Usable(target, pods, services, r'.value.0, r'.value.1);
      RankOrder(prefer, r.value.0, r'.value.0, r.value.0);
      LeqOrder(r.value.1.name, r'.value.1.name, r.value.1.name);
    }
  }

  lemma SameHead(target: Target, pods: seq<Pod>, pods': seq<Pod>, prefer: string)
    requires multiset(pods) == multiset(pods') && PodNamesUnique(pods)
    ensures var a := Sort(Filter(pods, Running(target)), ByRank(prefer));
      var b := Sort(Filter(pods', Running(target)), ByRank(prefer));
      |a| == |b| && (a != [] ==> a[0] == b[0])
  {
    var c, c' := Filter(pods, Running(target)), Filter(pods', Running(target));
    FilterPermutes(pods, pods', Running(target));
    MembersOfPermutation(c, c');
    SortPermutes(c, ByRank(prefer));
    SortPermutes(c', ByRank(prefer));
    MembersOfPermutation(Sort(c, ByRank(prefer)), c);
    MembersOfPermutation(Sort(c', ByRank(prefer)), c');
    if c != [] {
      PodsRank(prefer);
      LeastFirst(c, ByRank(prefer));
      LeastFirst(c', ByRank(prefer));
      RankOrder(prefer, Sort(c, ByRank(prefer))[0], Sort(c', ByRank(prefer))[0], Sort(c, ByRank(prefer))[0]);
    }
  }

  /** The finding depends on no more than the set of pods and which Services serve them. */
  lemma FindSame(
    target: Target, pods: seq<Pod>, pods': seq<Pod>, services: seq<Service>, services': seq<Service>, prefer: string)
    requires multiset(pods) == multiset(pods') && PodNamesUnique(pods) && ServiceNamesUnique(services)
    requires forall p, s :: p in pods && Serves(target, p, s) ==> (s in services <==> s in services')
    ensures Found(target, pods, services, prefer) == Found(target, pods', services', prefer)
  {
    MembersOfPermutation(pods, pods');
    forall p, s
      ensures Usable(target, pods, services, p, s) <==> Usable(target, pods', services', p, s)
    {
    }
    SamePair(target, pods, pods', services, services', prefer);
    SameHead(target, pods, pods', prefer);
  }

  /** In particular it does not depend on the order in which the cluster listed them. */
  lemma FindIgnoresOrder(
    target: Target, pods: seq<Pod>, pods': seq<Pod>, services: seq<Service>, services': seq<Service>, prefer: string)
    requires multiset(pods) == multiset(pods') && multiset(services) == multiset(services')
    requires PodNamesUnique(pods) && ServiceNamesUnique(services)
    ensures Found(target, pods, services, prefer) == Found(target, pods', services', prefer)
  {
    MembersOfPermutation(services, services');
    FindSame(target, pods, pods', services, services', prefer);
  }
}
