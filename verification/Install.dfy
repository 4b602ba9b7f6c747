/**
 From a cluster to chart values, and what a second run makes of what the first one did
 (deploy/scripts/detect-stack.py).
 */
module Install {
  import Digits
  import opened Texts
  import opened Wrappers
  import opened Order
  import opened Detect
  import opened Policies
  import opened Domains

  /** An override as it arrives: forced off, or a value. */
  datatype Forced = Off | To(value: string)

  datatype Settings = Settings(namespace: string, detect: bool, urls: map<string, Forced>, domain: Option<Forced>)

  datatype Cluster = Cluster(pods: seq<Pod>, services: seq<Service>, policies: seq<Policy>, ingresses: seq<Ingress>)

  /** What is looked for: the two stores whose modes are derived, and the rest, which are only reported. */
  datatype Targets = Targets(metrics: Target, traces: Target, rest: seq<Target>) {
    function All(): seq<Target> { [metrics, traces] + rest }
  }

  function ForeignPod(): Pod -> bool { (p: Pod) => !Own(p.labels) }

  function OverrideFor(settings: Settings, target: Target): Option<Finding> {
    if target.key !in settings.urls then None
    else
      match settings.urls[target.key]
      case Off => Some(Absent(ForcedOff, true))
      case To(url) => Some(Present("", "", url, map[], map[], "", true))
  }

  function WithFence(f: Finding, policies: seq<Policy>): Finding {
    if f.Present? && f.podLabels != map[] then f.(fencedBy := FenceName(policies, f.namespace, f.podLabels)) else f
  }

  /** The finding of one target; `seen` is what the cluster answered, if it did. */
  function FindingFor(settings: Settings, seen: Option<Cluster>, target: Target): Finding {
    match OverrideFor(settings, target)
    case Some(forced) => forced
    case None =>
      if !settings.detect then Absent(Disabled, true)
      else match seen
        case None => Absent(NotReached, false)
        case Some(c) =>
          WithFence(Found(target, Filter(c.pods, ForeignPod()), c.services, settings.namespace), c.policies)
  }

  ghost function DomainFor(settings: Settings, seen: Option<Cluster>): Domain {
    match settings.domain
    case Some(Off) => Unnamed(OverriddenOff, true)
    case Some(To(host)) => Named(host, BaseOf(host), true)
    case None =>
      if !settings.detect then Unnamed(OffWithDetection, true)
      else match seen
        case None => Unnamed(ClusterNotReached, false)
        case Some(c) => Derived(c.ingresses, settings.namespace)
  }

  /** One finding per target, in the order the targets are listed. */
  function FindingsOf(settings: Settings, seen: Option<Cluster>, targets: seq<Target>): (findings: seq<Finding>)
    ensures |findings| == |targets|
    ensures forall i :: 0 <= i < |targets| ==> findings[i] == FindingFor(settings, seen, targets[i])
  {
    seq(|targets|, i requires 0 <= i < |targets| => FindingFor(settings, seen, targets[i]))
  }

  method FindOne(settings: Settings, seen: Option<Cluster>, target: Target) returns (f: Finding)
    ensures f == FindingFor(settings, seen, target)
  {
    var forced := OverrideFor(settings, target);
    if forced.Some? {
      return forced.value;
    }
    if !settings.detect {
      return Absent(Disabled, true);
    }
    if seen.None? {
      return Absent(NotReached, false);
    }
    var cluster := seen.value;
    var pods := Filter(cluster.pods, ForeignPod());
    f := Find(target, pods, cluster.services, settings.namespace);
    if f.Present? && f.podLabels != map[] {
      var name := FencedByPolicy(f.namespace, f.podLabels, cluster.policies);
      f := f.(fencedBy := name);
    }
  }

  /** The findings and the domain of one run. */
  method Run(settings: Settings, seen: Option<Cluster>, targets: seq<Target>)
    returns (findings: seq<Finding>, domain: Domain)
    ensures findings == FindingsOf(settings, seen, targets) && domain == DomainFor(settings, seen)
  {
    findings := [];
    for i := 0 to |targets|
      invariant |findings| == i && forall k :: 0 <= k < i ==> findings[k] == FindingFor(settings, seen, targets[k])
    {
      var f := FindOne(settings, seen, targets[i]);
      findings := findings + [f];
    }
    if settings.domain.Some? {
      match settings.domain.value {
        case Off => domain := Unnamed(OverriddenOff, true);
        case To(host) => domain := Named(host, BaseOf(host), true);
      }
    } else if !settings.detect {
      domain := Unnamed(OffWithDetection, true);
    } else if seen.None? {
      domain := Unnamed(ClusterNotReached, false);
    } else {
      domain := DeriveDomain(seen.value.ingresses, settings.namespace);
    }
  }

  /** Why nothing is said of a target: forced off, not looked for, or nobody to ask; the first two count as set. */
  lemma AbsenceIsTold(settings: Settings, seen: Option<Cluster>, target: Target)
    ensures var f := FindingFor(settings, seen, target);
      && (target.key in settings.urls ==> f.forced && (f.Absent? <==> settings.urls[target.key] == Off))
      && (f.Absent? ==>
            && (f.reason == ForcedOff <==> target.key in settings.urls)
            && (f.reason == Disabled <==> target.key !in settings.urls && !settings.detect)
            && (f.reason == NotReached <==> target.key !in settings.urls && settings.detect && seen.None?)
            && (f.forced <==> f.reason == ForcedOff || f.reason == Disabled))
      && (target.key !in settings.urls && (!settings.detect || seen.None?) ==> f.Absent?)
  {
  }

  /** Why no host is derived. */
  lemma SilenceIsTold(settings: Settings, seen: Option<Cluster>)
    ensures var d := DomainFor(settings, seen);
      && (settings.domain.Some? ==> d.forced && (d.Unnamed? <==> settings.domain.value == Off))
      && (d.Unnamed? ==>
            && (d.why == OverriddenOff <==> settings.domain.Some?)
            && (d.why == OffWithDetection <==> settings.domain.None? && !settings.detect)
            && (d.why == ClusterNotReached <==> settings.domain.None? && settings.detect && seen.None?)
            && (d.forced <==> d.why == OverriddenOff || d.why == OffWithDetection))
  {
  }

  // ── The decisions ──────────────────────────────────────────────────────────

  datatype Mode = External(url: string, namespace: string, podSelector: Labels) | Installed

  datatype Values =
    | ChartDefaults
    | Values(host: Option<string>, metrics: Mode, traces: Mode, attachMetrics: bool, attachTraces: bool)

  predicate IsForced(f: Finding) { f.forced }

  function ModeOf(f: Finding): Mode {
    if f.Present? then External(f.url, f.namespace, f.podSelector) else Installed
  }

  /** Whether the release attaches an ingress rule to what was found. */
  predicate Attaches(f: Finding, namespace: string) {
    f.Present? && f.fencedBy != "" && f.podSelector != map[] && !f.forced && f.namespace == namespace
  }

  function HelmValues(findings: seq<Finding>, domain: Domain, reachable: bool, namespace: string): Values
    requires |findings| >= 2
  {
    if !reachable && !(exists f :: f in findings && IsForced(f)) && !domain.forced then ChartDefaults
    else
      Values(
        if domain.Named? && domain.host != "" then Some(domain.host) else None,
        ModeOf(findings[0]), ModeOf(findings[1]),
        Attaches(findings[0], namespace), Attaches(findings[1], namespace))
  }

  /** The values a run writes. The cluster counts as read only where detection is on and it answered. */
  ghost function ValuesOf(settings: Settings, seen: Option<Cluster>, targets: Targets): Values {
    HelmValues(
      FindingsOf(settings, seen, targets.All()), DomainFor(settings, seen), settings.detect && seen.Some?,
      settings.namespace)
  }

  /**
   Nothing is overridden, and the chart's own defaults apply, exactly when the cluster was asked but
   did not answer and nothing is forced. Detection switched off is not such a case.
   */
  lemma ChartDefaultsIff(settings: Settings, seen: Option<Cluster>, targets: Targets)
    ensures ValuesOf(settings, seen, targets) == ChartDefaults <==>
      && settings.detect && seen.None? && settings.domain.None?
      && forall t :: t in targets.All() ==> t.key !in settings.urls
  {
    var all, findings := targets.All(), FindingsOf(settings, seen, targets.All());
    assert all[0] in all && findings[0] in findings;
    if t :| t in all && t.key in settings.urls {
      var i :| 0 <= i < |all| && all[i] == t;
      assert findings[i] in findings && IsForced(findings[i]);
    } else if settings.detect && seen.None? {
      forall f | f in findings
        ensures !IsForced(f)
      {
        var i :| 0 <= i < |findings| && findings[i] == f;
        assert all[i] in all;
      }
    }
  }

  /**
   With detection off every finding counts as an override, so values are written after all,
   although no cluster was read: both stores in mode install, and no host unless one is forced.
   */
  lemma DetectionOffStillDecides(settings: Settings, seen: Option<Cluster>, targets: Targets)
    requires !settings.detect && settings.domain.None?
    requires targets.metrics.key !in settings.urls && targets.traces.key !in settings.urls
    ensures ValuesOf(settings, seen, targets) == Values(None, Installed, Installed, false, false)
  {
    ChartDefaultsIff(settings, seen, targets);
  }

  // ── What the values say of the cluster ─────────────────────────────────────

  /** One of the pod's images contains what the target's does, and nothing it must not. */
  predicate HasImage(target: Target, p: Pod) {
    exists image, good :: image in p.images && good in target.images && Contains(image, good)
      && forall bad :: bad in target.notImages ==> !Contains(image, bad)
  }

  /** A pod another release owns that runs the target, and a Service that serves it on the target's port. */
  ghost predicate Reusable(c: Cluster, target: Target, p: Pod, s: Service) {
    && p in c.pods && !Own(p.labels) && HasImage(target, p)
    && s in c.services && s.namespace == p.namespace && target.port in s.ports
    && s.selector.Keys != {} && forall k :: k in s.selector.Keys ==> k in p.labels.Keys && s.selector[k] == p.labels[k]
  }

  /** The namespace being installed into first, then by namespace and by name. */
  predicate Ahead(prefer: string, p: Pod, q: Pod) {
    if p.namespace == q.namespace then !Less(q.name, p.name)
    else p.namespace == prefer || (q.namespace != prefer && Less(p.namespace, q.namespace))
  }

  /** The best such pair: of the pod nothing is ahead of, the Service of least name. */
  ghost predicate Best(c: Cluster, target: Target, prefer: string, p: Pod, s: Service) {
    && Reusable(c, target, p, s)
    && (forall q, r :: Reusable(c, target, q, r) ==> Ahead(prefer, p, q))
    && (forall r :: Reusable(c, target, p, r) ==> !Less(r.name, s.name))
  }

  lemma AheadIsRank(prefer: string, p: Pod, q: Pod)
    ensures Ahead(prefer, p, q) <==> RankLeq(prefer, p, q)
  {
    LessTotal(p.name, q.name);
    LessTotal(p.namespace, q.namespace);
  }

  lemma ReusableIsUsable(c: Cluster, target: Target, p: Pod, s: Service)
    ensures Reusable(c, target, p, s) <==> Usable(target, Filter(c.pods, ForeignPod()), c.services, p, s)
  {
    assert p in Filter(c.pods, ForeignPod()) <==> p in c.pods && ForeignPod()(p);
    assert HasImage(target, p) <==> Runs(target, p) by {
      ImageRuns(target, p);
    }
    assert s.selector == map[] <==> s.selector.Keys == {};
  }

  lemma ImageRuns(target: Target, p: Pod)
    ensures HasImage(target, p) <==> Runs(target, p)
  {
    if HasImage(target, p) {
      var image, good :| image in p.images && good in target.images && Contains(image, good)
        && forall bad :: bad in target.notImages ==> !Contains(image, bad);
      assert Matches(target, image);
    }
    if Runs(target, p) {
      var image :| image in p.images && Matches(target, image);
      var good :| good in target.images && Contains(image, good);
      assert image in p.images && good in target.images;
    }
  }

  function UrlOf(p: Pod, s: Service, port: nat): string {
    "http://" + s.name + "." + p.namespace + ".svc.cluster.local:" + Digits.Decimal(port)
  }

  /** What an override makes of a store; without one, and without a cluster to read, it is installed. */
  function ForcedMode(settings: Settings, target: Target): Mode {
    if target.key !in settings.urls then Installed
    else match settings.urls[target.key] case Off => Installed case To(url) => External(url, "", map[])
  }

  /** A store's mode and its flag are about that store: what was found of it, and whether a policy fences that. */
  ghost predicate Follows(mode: Mode, attach: bool, settings: Settings, c: Cluster, target: Target) {
    if target.key in settings.urls then
      !attach && mode == ForcedMode(settings, target)
    else if forall p, s :: !Reusable(c, target, p, s) then
      !attach && mode == Installed
    else
      exists p, s :: Best(c, target, settings.namespace, p, s) && Reuses(mode, attach, settings, c, target, p, s)
  }

  /** External, at the Service's address; attached to exactly where a policy of the same namespace fences the pod. */
  ghost predicate Reuses(mode: Mode, attach: bool, settings: Settings, c: Cluster, target: Target, p: Pod, s: Service) {
    && mode == External(UrlOf(p, s, target.port), p.namespace, s.selector)
    && (attach <==> p.namespace == settings.namespace && Fenced(c.policies, p.namespace, p.labels))
  }

  lemma BestIsFound(settings: Settings, c: Cluster, target: Target)
    ensures var f := Found(target, Filter(c.pods, ForeignPod()), c.services, settings.namespace);
      if forall p, s :: !Reusable(c, target, p, s) then f.Absent? && !f.forced
      else exists p, s :: Best(c, target, settings.namespace, p, s) && f == Report(target, p, s)
  {
    var pods := Filter(c.pods, ForeignPod());
    FindsLeast(target, pods, c.services, settings.namespace);
    forall p, s
      ensures Usable(target, pods, c.services, p, s) <==> Reusable(c, target, p, s)
    {
      ReusableIsUsable(c, target, p, s);
    }
    var r := Chosen(target, pods, c.services, settings.namespace);
    if r.Some? {
      BestIsLeast(settings, c, target, r.value.0, r.value.1);
    }
  }

  lemma BestIsLeast(settings: Settings, c: Cluster, target: Target, p: Pod, s: Service)
    requires var pods := Filter(c.pods, ForeignPod());
      && Usable(target, pods, c.services, p, s)
      && (forall q, r :: Usable(target, pods, c.services, q, r) ==> RankLeq(settings.namespace, p, q))
      && (forall r :: Usable(target, pods, c.services, p, r) ==> Leq(s.name, r.name))
    ensures Best(c, target, settings.namespace, p, s)
  {
    ReusableIsUsable(c, target, p, s);
    forall q, r | Reusable(c, target, q, r)
      ensures Ahead(settings.namespace, p, q)
    {
      ReusableIsUsable(c, target, q, r);
      AheadIsRank(settings.namespace, p, q);
    }
    forall r | Reusable(c, target, p, r)
      ensures !Less(r.name, s.name)
    {
      ReusableIsUsable(c, target, p, r);
      LessTotal(r.name, s.name);
    }
  }

  lemma PairIsReused(settings: Settings, c: Cluster, target: Target, p: Pod, s: Service)
    requires AllNamed(c.policies) && Reusable(c, target, p, s)
    ensures var f := WithFence(Report(target, p, s), c.policies);
      Reuses(ModeOf(f), Attaches(f, settings.namespace), settings, c, target, p, s)
  {
    FenceNameTells(c.policies, p.namespace, p.labels);
    var k :| k in s.selector;
    assert k in p.labels;
  }

  lemma FindingFollows(settings: Settings, c: Cluster, target: Target)
    requires settings.detect && AllNamed(c.policies)
    ensures var f := FindingFor(settings, Some(c), target);
      Follows(ModeOf(f), Attaches(f, settings.namespace), settings, c, target)
  {
    if target.key !in settings.urls {
      BestIsFound(settings, c, target);
      if !(forall p, s :: !Reusable(c, target, p, s)) {
        var p, s :| Best(c, target, settings.namespace, p, s)
          && Found(target, Filter(c.pods, ForeignPod()), c.services, settings.namespace) == Report(target, p, s);
        PairIsReused(settings, c, target, p, s);
      }
    }
  }

  /** The host is aiwatcher's under the one base with the most hosts, where there is one, unless it is forced. */
  ghost predicate HostFollows(host: Option<string>, settings: Settings, c: Cluster) {
    match settings.domain
    case Some(Off) => host == None
    case Some(To(forced)) => host == if forced == "" then None else Some(forced)
    case None =>
      var considered := Considered(Entries(c.ingresses), settings.namespace);
      (forall base :: Plurality(considered, base) <==> host == Some("aiwatcher." + base))
      && (host.Some? ==> exists base :: Plurality(considered, base))
  }

  lemma HostIsDerived(settings: Settings, c: Cluster)
    requires settings.detect
    ensures var d := DomainFor(settings, Some(c));
      HostFollows(if d.Named? && d.host != "" then Some(d.host) else None, settings, c)
  {
    if settings.domain.None? {
      var considered := Considered(Entries(c.ingresses), settings.namespace);
      forall base
        ensures SUBDOMAIN + "." + base == "aiwatcher." + base
        ensures Plurality(considered, base)
           <==> Derived(c.ingresses, settings.namespace) == Named(SUBDOMAIN + "." + base, base, false)
      {
        DerivedIffPlurality(c.ingresses, settings.namespace, base);
      }
      forall base, other | "aiwatcher." + base == "aiwatcher." + other
        ensures base == other
      {
        assert ("aiwatcher." + base)[10..] == base && ("aiwatcher." + other)[10..] == other;
      }
    }
  }

  /**
   What a run that reached the cluster writes: each store's mode, URL and flag are about that store
   and the best pod and Service found of it, and the host is about the Ingresses.
   */
  lemma ValuesFollow(settings: Settings, c: Cluster, targets: Targets)
    requires settings.detect && AllNamed(c.policies)
    ensures var v := ValuesOf(settings, Some(c), targets);
      && v.Values? && HostFollows(v.host, settings, c)
      && Follows(v.metrics, v.attachMetrics, settings, c, targets.metrics)
      && Follows(v.traces, v.attachTraces, settings, c, targets.traces)
  {
    HostIsDerived(settings, c);
    FindingFollows(settings, c, targets.metrics);
    FindingFollows(settings, c, targets.traces);
  }

  /** What a run that read no cluster writes, if it writes anything: what was forced, and no flag. */
  lemma ValuesForced(settings: Settings, seen: Option<Cluster>, targets: Targets)
    requires !settings.detect || seen.None?
    ensures var v := ValuesOf(settings, seen, targets);
      v.Values? ==>
        && v.metrics == ForcedMode(settings, targets.metrics) && v.traces == ForcedMode(settings, targets.traces)
        && !v.attachMetrics && !v.attachTraces
        && v.host == match settings.domain
             case Some(To(host)) => if host == "" then None else Some(host)
             case _ => None
  {
  }
}
