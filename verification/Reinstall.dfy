/**
 Attaching a rule only widens; and what a second install decides (deploy/scripts/detect-stack.py
 and the chart's attached policies).
 */
module Reinstall {
  import opened Wrappers
  import opened Order
  import opened Detect
  import opened Policies
  import opened Domains
  import opened Install
  import opened Texts

  const COLLECTOR := "collector"

  // ── The attached rule ──────────────────────────────────────────────────────

  function OwnLabels(): Labels { map["app.kubernetes.io/part-of" := "aiwatcher"] }

  /** The policy the chart renders for a target whose egress flag is set. */
  function AttachedRule(settings: Settings, target: Target, f: Finding): Policy
    requires f.Present?
  {
    Rule(settings.namespace, "aiwatcher-allow-" + target.key, OwnLabels(), f.podSelector, Path(COLLECTOR, target.port))
  }

  function RuleFor(settings: Settings, target: Target, f: Finding): seq<Policy> {
    if Attaches(f, settings.namespace) then [AttachedRule(settings, target, f)] else []
  }

  /** The two flags of the values say of which store a rule is attached. */
  lemma FlagsAreRules(settings: Settings, seen: Option<Cluster>, targets: Targets)
    ensures var v := ValuesOf(settings, seen, targets);
      v.Values? ==>
        && (v.attachMetrics <==> RuleFor(settings, targets.metrics, FindingFor(settings, seen, targets.metrics)) != [])
        && (v.attachTraces <==> RuleFor(settings, targets.traces, FindingFor(settings, seen, targets.traces)) != [])
  {
  }

  lemma FoundIsPod(target: Target, pods: seq<Pod>, services: seq<Service>, prefer: string)
    requires Found(target, pods, services, prefer).Present?
    ensures var f := Found(target, pods, services, prefer);
      && (exists p :: p in pods && p.namespace == f.namespace && p.labels == f.podLabels)
      && Selects(f.podSelector, f.podLabels) && f.podLabels != map[]
  {
    FindsLeast(target, pods, services, prefer);
    var r := Chosen(target, pods, services, prefer).value;
    assert r.0 in pods && r.0.labels == Found(target, pods, services, prefer).podLabels;
    var k :| k in r.1.selector;
    assert k in r.0.labels;
  }

  /**
   What the matched pod accepts once the flag is set is what it accepted before and the
   Collector on the target's port; where the flag is not set nothing is attached.
   */
  lemma AttachingWidens(settings: Settings, c: Cluster, target: Target, path: Path)
    requires AllNamed(c.policies)
    ensures var f := FindingFor(settings, Some(c), target);
      if Attaches(f, settings.namespace) then
        (Accepts(c.policies + RuleFor(settings, target, f), f.namespace, f.podLabels, path)
         <==> Accepts(c.policies, f.namespace, f.podLabels, path) || path == Path(COLLECTOR, target.port))
      else RuleFor(settings, target, f) == []
  {
    var f := FindingFor(settings, Some(c), target);
    if Attaches(f, settings.namespace) {
      FoundIsPod(target, Filter(c.pods, ForeignPod()), c.services, settings.namespace);
      FenceNameTells(c.policies, f.namespace, f.podLabels);
      var rule := AttachedRule(settings, target, f);
      RuleRestricts(rule, settings.namespace, rule.name, OwnLabels(), f.podSelector,
                    Path(COLLECTOR, target.port), f.podLabels);
      AcceptsAfter(c.policies, rule, f.namespace, f.podLabels, path);
    }
  }

  ghost predicate Behind(f: Finding, pod: Pod)
    requires f.Present?
  {
    pod.namespace == f.namespace && Selects(f.podSelector, pod.labels)
  }

  lemma RuleNarrowsIff(settings: Settings, policies: seq<Policy>, target: Target, f: Finding, pod: Pod)
    requires Attaches(f, settings.namespace)
    ensures Narrowed(policies, AttachedRule(settings, target, f), pod)
       <==> Behind(f, pod) && !Fenced(policies, pod.namespace, pod.labels)
  {
    var rule := AttachedRule(settings, target, f);
    assert Path("anyone", 1) !in rule.admits;
    NarrowedExactly(policies, rule, pod);
    RuleRestricts(rule, settings.namespace, rule.name, OwnLabels(), f.podSelector,
                  Path(COLLECTOR, target.port), pod.labels);
  }

  /**
   The rule follows the Service: it takes nothing from any pod exactly when every pod behind the
   Service was fenced.
   */
  lemma WidensForAllIff(settings: Settings, c: Cluster, target: Target)
    requires Attaches(FindingFor(settings, Some(c), target), settings.namespace)
    ensures var f := FindingFor(settings, Some(c), target);
      (forall pod :: pod in c.pods ==> !Narrowed(c.policies, AttachedRule(settings, target, f), pod))
      <==> (forall pod :: pod in c.pods && Behind(f, pod) ==> Fenced(c.policies, pod.namespace, pod.labels))
  {
    var f := FindingFor(settings, Some(c), target);
    var rule := AttachedRule(settings, target, f);
    var path := Path("anyone", 1);
    assert path !in rule.admits;
    forall pod: Pod
      ensures Narrowed(c.policies, rule, pod) <==> Behind(f, pod) && !Fenced(c.policies, pod.namespace, pod.labels)
    {
      RuleNarrowsIff(settings, c.policies, target, f, pod);
    }
  }

  // ── What a later run sees ──────────────────────────────────────────────────

  /** Objects the release does not own, as a world of their own. */
  ghost predicate World(world: Cluster) {
    && (forall p :: p in world.pods ==> !Own(p.labels))
    && (forall s :: s in world.services ==> !Own(s.labels))
    && (forall p :: p in world.policies ==> !Own(p.labels))
    && PodNamesUnique(world.pods) && ServiceNamesUnique(world.services) && AllNamed(world.policies)
  }

  function ForeignService(): Service -> bool { (s: Service) => !Own(s.labels) }

  function ForeignPolicy(): Policy -> bool { (p: Policy) => !Own(p.labels) }

  /** No pod of the world is behind the Service, or selected by the policy. */
  ghost predicate ServesNone(s: Service, pods: seq<Pod>) {
    forall p :: p in pods ==> !(s.namespace == p.namespace && Selects(s.selector, p.labels))
  }

  ghost predicate RestrictsNone(policy: Policy, pods: seq<Pod>) {
    forall p :: p in pods ==> !Restricts(policy, p.namespace, p.labels)
  }

  /**
   A cluster made of the world, in any order, and whatever the release adds: pods and Ingresses
   that carry its label, Services in front of none of the world's pods, and policies on none of
   them but for the attached rules.
   */
  ghost predicate Sees(c: Cluster, world: Cluster, rules: seq<Policy>) {
    && multiset(Filter(c.pods, ForeignPod())) == multiset(world.pods)
    && multiset(Filter(c.services, ForeignService())) == multiset(world.services)
    && (forall s :: s in c.services && Own(s.labels) ==> ServesNone(s, world.pods))
    && multiset(Filter(c.policies, ForeignPolicy())) == multiset(world.policies)
    && (forall p :: p in c.policies && Own(p.labels) ==> p in rules || RestrictsNone(p, world.pods))
    && (forall r :: r in rules ==> r in c.policies)
    && multiset(Filter(c.ingresses, Foreign())) == multiset(Filter(world.ingresses, Foreign()))
    && AllNamed(c.policies) && ServiceNamesUnique(c.services)
  }

  /** What of a finding is decided on: everything but the name of the policy that fences it. */
  datatype View =
    | NoView(reason: Reason, forced: bool)
    | View(
        namespace: string, service: string, url: string, podSelector: Labels, podLabels: Labels, fenced: bool,
        forced: bool)

  function ViewOf(f: Finding): View {
    match f
    case Absent(reason, forced) => NoView(reason, forced)
    case Present(namespace, service, url, podSelector, podLabels, fencedBy, forced) =>
      View(namespace, service, url, podSelector, podLabels, fencedBy != "", forced)
  }

  /** What a run over the world with these rules attached decides of a target. */
  ghost function Viewed(settings: Settings, world: Cluster, rules: seq<Policy>, target: Target): View {
    match OverrideFor(settings, target)
    case Some(forced) => ViewOf(forced)
    case None =>
      if !settings.detect then NoView(Disabled, true)
      else match Found(target, world.pods, world.services, settings.namespace)
        case Absent(reason, forced) => NoView(reason, forced)
        case Present(namespace, service, url, podSelector, podLabels, _, forced) =>
          View(namespace, service, url, podSelector, podLabels,
               Fenced(world.policies, namespace, podLabels) || Fenced(rules, namespace, podLabels), forced)
  }

  lemma SeesServices(c: Cluster, world: Cluster, rules: seq<Policy>, p: Pod, s: Service)
    requires World(world) && Sees(c, world, rules)
    requires p in world.pods && s.namespace == p.namespace && Selects(s.selector, p.labels)
    ensures s in c.services <==> s in world.services
  {
    MembersOfPermutation(Filter(c.services, ForeignService()), world.services);
    assert s in Filter(c.services, ForeignService()) <==> s in c.services && ForeignService()(s);
  }

  lemma SeesFence(c: Cluster, world: Cluster, rules: seq<Policy>, p: Pod)
    requires World(world) && Sees(c, world, rules) && p in world.pods
    ensures Fenced(c.policies, p.namespace, p.labels)
       <==> Fenced(world.policies, p.namespace, p.labels) || Fenced(rules, p.namespace, p.labels)
  {
    var foreign := Filter(c.policies, ForeignPolicy());
    MembersOfPermutation(foreign, world.policies);
    if policy :| policy in c.policies && Restricts(policy, p.namespace, p.labels) {
      if ForeignPolicy()(policy) {
        assert policy in foreign;
      } else {
        assert policy in rules;
      }
    }
    if policy :| policy in world.policies && Restricts(policy, p.namespace, p.labels) {
      assert policy in foreign;
    }
  }

  lemma RunFinds(settings: Settings, c: Cluster, world: Cluster, rules: seq<Policy>, target: Target)
    requires World(world) && Sees(c, world, rules)
    ensures Found(target, Filter(c.pods, ForeignPod()), c.services, settings.namespace)
         == Found(target, world.pods, world.services, settings.namespace)
  {
    var pods := Filter(c.pods, ForeignPod());
    MembersOfPermutation(pods, world.pods);
    forall p, s | p in pods && Serves(target, p, s)
      ensures s in c.services <==> s in world.services
    {
      SeesServices(c, world, rules, p, s);
    }
    FindSame(target, pods, world.pods, c.services, world.services, settings.namespace);
  }

  lemma RunFences(settings: Settings, c: Cluster, world: Cluster, rules: seq<Policy>, target: Target)
    requires World(world) && Sees(c, world, rules)
    ensures var f := Found(target, world.pods, world.services, settings.namespace);
      f.Present? ==>
        && f.podLabels != map[]
        && (FenceName(c.policies, f.namespace, f.podLabels) != "" <==>
              Fenced(world.policies, f.namespace, f.podLabels) || Fenced(rules, f.namespace, f.podLabels))
  {
    var f := Found(target, world.pods, world.services, settings.namespace);
    if f.Present? {
      FoundIsPod(target, world.pods, world.services, settings.namespace);
      var p :| p in world.pods && p.namespace == f.namespace && p.labels == f.podLabels;
      SeesFence(c, world, rules, p);
      FenceNameTells(c.policies, p.namespace, p.labels);
    }
  }

  /**
   A run's view of a target is a matter of the world and the rules already attached, and of nothing
   else in the cluster.
   */
  lemma RunViews(settings: Settings, c: Cluster, world: Cluster, rules: seq<Policy>, target: Target)
    requires World(world) && Sees(c, world, rules)
    ensures ViewOf(FindingFor(settings, Some(c), target)) == Viewed(settings, world, rules, target)
  {
    RunFinds(settings, c, world, rules, target);
    RunFences(settings, c, world, rules, target);
  }

  /** Everything a run decides: what it reports of each target, the domain, and the chart values. */
  datatype Decision = Decision(views: seq<View>, domain: Domain, values: Values)

  ghost function Decided(settings: Settings, c: Cluster, targets: Targets): Decision {
    var findings := FindingsOf(settings, Some(c), targets.All());
    var domain := DomainFor(settings, Some(c));
    Decision(
      seq(|findings|, i requires 0 <= i < |findings| => ViewOf(findings[i])), domain,
      HelmValues(findings, domain, true, settings.namespace))
  }

  lemma ViewsDecide(settings: Settings, a: Cluster, b: Cluster, targets: Targets)
    requires DomainFor(settings, Some(a)) == DomainFor(settings, Some(b))
    ensures Decided(settings, a, targets) == Decided(settings, b, targets) <==>
      forall t :: t in targets.All() ==>
        ViewOf(FindingFor(settings, Some(a), t)) == ViewOf(FindingFor(settings, Some(b), t))
  {
    var all, da, db := targets.All(), Decided(settings, a, targets), Decided(settings, b, targets);
    if forall t :: t in all ==> ViewOf(FindingFor(settings, Some(a), t)) == ViewOf(FindingFor(settings, Some(b), t)) {
      assert all[0] in all && all[1] in all;
      assert forall i :: 0 <= i < |all| ==> da.views[i] == ViewOf(FindingFor(settings, Some(a), all[i]));
      assert forall i :: 0 <= i < |all| ==> db.views[i] == ViewOf(FindingFor(settings, Some(b), all[i]));
      assert da.views == db.views;
    }
    if da == db {
      forall t | t in all
        ensures ViewOf(FindingFor(settings, Some(a), t)) == ViewOf(FindingFor(settings, Some(b), t))
      {
        var i :| 0 <= i < |all| && all[i] == t;
        assert da.views[i] == db.views[i];
      }
    }
  }

  lemma SameDomain(settings: Settings, a: Cluster, b: Cluster, world: Cluster, r: seq<Policy>, r': seq<Policy>)
    requires Sees(a, world, r) && Sees(b, world, r')
    ensures DomainFor(settings, Some(a)) == DomainFor(settings, Some(b))
  {
    DerivedFromForeign(a.ingresses, b.ingresses, settings.namespace);
  }

  /** Everything a run attaches. */
  function RulesOf(settings: Settings, c: Cluster, targets: Targets): seq<Policy> {
    RuleFor(settings, targets.metrics, FindingFor(settings, Some(c), targets.metrics))
    + RuleFor(settings, targets.traces, FindingFor(settings, Some(c), targets.traces))
  }

  /** No attached rule selects a pod that was found unfenced. */
  ghost predicate Harmless(settings: Settings, c: Cluster, targets: Targets) {
    forall t :: t in targets.All() ==>
      var f := FindingFor(settings, Some(c), t);
      f.Present? && !f.forced && f.fencedBy == "" ==> !Fenced(RulesOf(settings, c, targets), f.namespace, f.podLabels)
  }

  lemma RulesShow(settings: Settings, world: Cluster, rules: seq<Policy>, target: Target)
    ensures var before, after := Viewed(settings, world, [], target), Viewed(settings, world, rules, target);
      before == after <==>
      (before.View? && !before.forced && !before.fenced ==> !Fenced(rules, before.namespace, before.podLabels))
  {
  }

  lemma SecondView(
    settings: Settings, world: Cluster, first: Cluster, second: Cluster, rules: seq<Policy>, target: Target)
    requires World(world) && Sees(first, world, []) && Sees(second, world, rules)
    ensures var f := FindingFor(settings, Some(first), target);
      ViewOf(f) == ViewOf(FindingFor(settings, Some(second), target)) <==>
      (f.Present? && !f.forced && f.fencedBy == "" ==> !Fenced(rules, f.namespace, f.podLabels))
  {
    RunViews(settings, first, world, [], target);
    RunViews(settings, second, world, rules, target);
    RulesShow(settings, world, rules, target);
  }

  /**
   A second run over the cluster the first one leaves behind decides the same of every target,
   of the host and of the modes and flags exactly when the first run's rules are harmless.
   */
  lemma SecondRunAgreesIff(settings: Settings, targets: Targets, world: Cluster, first: Cluster, second: Cluster)
    requires World(world) && Sees(first, world, [])
    requires Sees(second, world, RulesOf(settings, first, targets))
    ensures Decided(settings, first, targets) == Decided(settings, second, targets)
       <==> Harmless(settings, first, targets)
  {
    var rules := RulesOf(settings, first, targets);
    SameDomain(settings, first, second, world, [], rules);
    ViewsDecide(settings, first, second, targets);
    forall t
      ensures var f := FindingFor(settings, Some(first), t);
        ViewOf(f) == ViewOf(FindingFor(settings, Some(second), t)) <==>
        (f.Present? && !f.forced && f.fencedBy == "" ==> !Fenced(rules, f.namespace, f.podLabels))
    {
      SecondView(settings, world, first, second, rules, t);
    }
  }

  // ── Worlds in which it does not ────────────────────────────────────────────

  /** One Service in front of two pods, each running one of the stores, of which a policy fences the first. */
  ghost predicate SharedService(settings: Settings, targets: Targets, a: Pod, b: Pod, s: Service, fence: Policy) {
    && settings.detect && settings.urls == map[]
    && a.namespace == b.namespace == s.namespace == fence.namespace == settings.namespace && a.name != b.name
    && !Own(a.labels) && !Own(b.labels) && !Own(s.labels) && !Own(fence.labels) && fence.name != ""
    && Runs(targets.metrics, a) && !Runs(targets.metrics, b) && Serves(targets.metrics, a, s)
    && Runs(targets.traces, b) && !Runs(targets.traces, a) && Serves(targets.traces, b, s)
    && Restricts(fence, a.namespace, a.labels) && !Restricts(fence, b.namespace, b.labels)
  }

  lemma OnlyUsable(target: Target, pods: seq<Pod>, s: Service, prefer: string, p: Pod)
    requires p in pods && Runs(target, p) && Serves(target, p, s)
    requires forall q :: q in pods && Runs(target, q) ==> q == p
    ensures Found(target, pods, [s], prefer) == Report(target, p, s)
  {
    FindsLeast(target, pods, [s], prefer);
    assert s in [s];
    assert Usable(target, pods, [s], p, s);
  }

  lemma SharedFound(settings: Settings, targets: Targets, a: Pod, b: Pod, s: Service, fence: Policy)
    requires SharedService(settings, targets, a, b, s, fence)
    ensures var c := Some(Cluster([a, b], [s], [fence], []));
      && FindingFor(settings, c, targets.metrics) == WithFence(Report(targets.metrics, a, s), [fence])
      && FindingFor(settings, c, targets.traces) == WithFence(Report(targets.traces, b, s), [fence])
  {
    var pods := [a, b];
    FilterAll(pods, ForeignPod());
    assert pods[0] in pods && pods[1] in pods;
    OnlyUsable(targets.metrics, pods, s, settings.namespace, a);
    OnlyUsable(targets.traces, pods, s, settings.namespace, b);
  }

  lemma OneFence(fence: Policy, pod: Pod)
    ensures var restricts := Restricts(fence, pod.namespace, pod.labels);
      && FenceName([fence], pod.namespace, pod.labels) == (if restricts then fence.name else "")
      && (Fenced([fence], pod.namespace, pod.labels) <==> restricts)
  {
    assert FenceName([fence][1..], pod.namespace, pod.labels) == "";
    assert fence in [fence];
  }

  /** The fenced pod's finding is attached, and its rule selects the other pod too; the other pod's is not. */
  lemma SharedAttaches(settings: Settings, targets: Targets, a: Pod, b: Pod, s: Service, fence: Policy)
    requires SharedService(settings, targets, a, b, s, fence)
    ensures var f, g := Report(targets.metrics, a, s), Report(targets.traces, b, s);
      && RuleFor(settings, targets.metrics, WithFence(f, [fence])) == [AttachedRule(settings, targets.metrics, f)]
      && RuleFor(settings, targets.traces, WithFence(g, [fence])) == []
      && Restricts(AttachedRule(settings, targets.metrics, f), b.namespace, b.labels)
  {
    OneFence(fence, a);
    OneFence(fence, b);
    var k :| k in s.selector;
    assert k in a.labels && k in b.labels;
    var rule := AttachedRule(settings, targets.metrics, Report(targets.metrics, a, s));
    RuleRestricts(rule, settings.namespace, rule.name, OwnLabels(), s.selector,
                  Path(COLLECTOR, targets.metrics.port), b.labels);
  }

  lemma SharedRules(settings: Settings, targets: Targets, a: Pod, b: Pod, s: Service, fence: Policy)
    requires SharedService(settings, targets, a, b, s, fence)
    ensures var first := Cluster([a, b], [s], [fence], []);
      var rule := AttachedRule(settings, targets.metrics, Report(targets.metrics, a, s));
      && RulesOf(settings, first, targets) == [rule]
      && Restricts(rule, b.namespace, b.labels)
      && !Fenced(first.policies, b.namespace, b.labels)
  {
    SharedFound(settings, targets, a, b, s, fence);
    SharedAttaches(settings, targets, a, b, s, fence);
    OneFence(fence, b);
  }

  lemma OneRule(rule: Policy, b: Pod)
    requires Restricts(rule, b.namespace, b.labels)
    ensures Fenced([rule], b.namespace, b.labels)
  {
    assert rule in [rule];
  }

  lemma RuleNarrows(settings: Settings, target: Target, f: Finding, policies: seq<Policy>, pod: Pod)
    requires f.Present? && Restricts(AttachedRule(settings, target, f), pod.namespace, pod.labels)
    requires !Fenced(policies, pod.namespace, pod.labels)
    ensures Narrowed(policies, AttachedRule(settings, target, f), pod)
  {
    var rule := AttachedRule(settings, target, f);
    assert Path("anyone", 1) !in rule.admits;
    NarrowedExactly(policies, rule, pod);
  }

  lemma SharedNarrows(settings: Settings, targets: Targets, a: Pod, b: Pod, s: Service, fence: Policy)
    requires SharedService(settings, targets, a, b, s, fence)
    ensures var rules := RulesOf(settings, Cluster([a, b], [s], [fence], []), targets);
      rules != [] && Narrowed([fence], rules[0], b) && Fenced(rules, b.namespace, b.labels)
  {
    SharedRules(settings, targets, a, b, s, fence);
    RuleNarrows(settings, targets.metrics, Report(targets.metrics, a, s), [fence], b);
    OneRule(AttachedRule(settings, targets.metrics, Report(targets.metrics, a, s)), b);
  }

  lemma SharedTracesUnfenced(settings: Settings, targets: Targets, a: Pod, b: Pod, s: Service, fence: Policy)
    requires SharedService(settings, targets, a, b, s, fence)
    ensures FindingFor(settings, Some(Cluster([a, b], [s], [fence], [])), targets.traces)
         == Report(targets.traces, b, s)
  {
    SharedFound(settings, targets, a, b, s, fence);
    OneFence(fence, b);
  }

  lemma SharedIsWorld(settings: Settings, targets: Targets, a: Pod, b: Pod, s: Service, fence: Policy)
    requires SharedService(settings, targets, a, b, s, fence)
    ensures var world := Cluster([a, b], [s], [fence], []); World(world) && Sees(world, world, [])
  {
    var rules: seq<Policy> := [];
    SharedIsSeen(a, b, s, fence, rules);
    assert [fence] + rules == [fence];
  }

  lemma RulesPassUnseen(fence: Policy, rules: seq<Policy>)
    requires !Own(fence.labels) && fence.name != ""
    requires AllNamed(rules) && forall r :: r in rules ==> Own(r.labels)
    ensures Filter([fence] + rules, ForeignPolicy()) == [fence] == Filter([fence], ForeignPolicy())
    ensures AllNamed([fence] + rules)
    ensures forall p :: p in [fence] + rules && Own(p.labels) ==> p in rules
  {
    FilterAll([fence], ForeignPolicy());
    FilterNone(rules, ForeignPolicy());
    FilterAppends([fence], rules, ForeignPolicy());
    assert [fence] + [] == [fence];
  }

  lemma RuleIsOwn(settings: Settings, target: Target, f: Finding)
    ensures forall r :: r in RuleFor(settings, target, f) ==> r.name != "" && Own(r.labels)
  {
  }

  lemma RulesAreOwn(settings: Settings, c: Cluster, targets: Targets)
    ensures AllNamed(RulesOf(settings, c, targets))
    ensures forall r :: r in RulesOf(settings, c, targets) ==> Own(r.labels)
  {
    RuleIsOwn(settings, targets.metrics, FindingFor(settings, Some(c), targets.metrics));
    RuleIsOwn(settings, targets.traces, FindingFor(settings, Some(c), targets.traces));
  }

  /** The two pods, their Service and their fence, with some rules of the release's own added. */
  lemma SharedIsSeen(a: Pod, b: Pod, s: Service, fence: Policy, rules: seq<Policy>)
    requires !Own(a.labels) && !Own(b.labels) && !Own(s.labels) && !Own(fence.labels)
    requires fence.name != "" && AllNamed(rules) && forall r :: r in rules ==> Own(r.labels)
    ensures Sees(Cluster([a, b], [s], [fence] + rules, []), Cluster([a, b], [s], [fence], []), rules)
  {
    FilterAll([a, b], ForeignPod());
    FilterAll([s], ForeignService());
    RulesPassUnseen(fence, rules);
  }

  /** The cluster with a run's rules attached. */
  function WithRules(settings: Settings, c: Cluster, targets: Targets): Cluster {
    c.(policies := c.policies + RulesOf(settings, c, targets))
  }

  lemma SharedHarms(settings: Settings, targets: Targets, a: Pod, b: Pod, s: Service, fence: Policy)
    requires SharedService(settings, targets, a, b, s, fence)
    ensures !Harmless(settings, Cluster([a, b], [s], [fence], []), targets)
  {
    SharedNarrows(settings, targets, a, b, s, fence);
    SharedTracesUnfenced(settings, targets, a, b, s, fence);
    assert targets.All()[1] == targets.traces && targets.traces in targets.All();
  }

  lemma SharedDiffers(settings: Settings, targets: Targets, a: Pod, b: Pod, s: Service, fence: Policy)
    requires SharedService(settings, targets, a, b, s, fence)
    ensures var first := Cluster([a, b], [s], [fence], []);
      var second := WithRules(settings, first, targets);
      Sees(second, first, RulesOf(settings, first, targets))
      && Decided(settings, first, targets) != Decided(settings, second, targets)
  {
    var first := Cluster([a, b], [s], [fence], []);
    RulesAreOwn(settings, first, targets);
    SharedIsSeen(a, b, s, fence, RulesOf(settings, first, targets));
    SharedHarms(settings, targets, a, b, s, fence);
    SharedIsWorld(settings, targets, a, b, s, fence);
    SecondRunAgreesIff(settings, targets, first, first, WithRules(settings, first, targets));
  }

  /**
   The rule is attached by the Service's selector but the fence is looked for on one pod's labels: it
   narrows the other pod behind the Service, and a second run, which finds the first one's rules and
   nothing else changed, takes that pod for fenced.
   */
  lemma SharedServiceFlips(settings: Settings, targets: Targets, a: Pod, b: Pod, s: Service, fence: Policy)
    requires SharedService(settings, targets, a, b, s, fence)
    ensures var first := Cluster([a, b], [s], [fence], []);
      var rules := RulesOf(settings, first, targets);
      && rules != [] && Narrowed(first.policies, rules[0], b)
      && Sees(WithRules(settings, first, targets), first, rules)
      && Decided(settings, first, targets) != Decided(settings, WithRules(settings, first, targets), targets)
  {
    SharedNarrows(settings, targets, a, b, s, fence);
    SharedDiffers(settings, targets, a, b, s, fence);
  }

  const HERE := Settings("n", true, map[], None)
  const STORES := Targets(Target("m", ["vm"], 8428, []), Target("t", ["vt"], 10428, []), [])
  const FENCED_POD := Pod("n", "a", map["app" := "o", "tier" := "x"], ["vm"])
  const OPEN_POD := Pod("n", "b", map["app" := "o"], ["vt"])
  const SHARED := Service("n", "s", map[], map["app" := "o"], [8428, 10428])
  const FENCE := Policy("n", "f", map[], ["Ingress"], LabelSelector(map["tier" := "x"], []), {})

  lemma OtherImage(text: string, part: string)
    requires |text| == |part|
    ensures Contains(text, part) <==> text == part
  {
    assert text[0..] == text;
  }

  lemma ImagesDiffer()
    ensures Runs(STORES.metrics, FENCED_POD) && !Runs(STORES.metrics, OPEN_POD)
    ensures Runs(STORES.traces, OPEN_POD) && !Runs(STORES.traces, FENCED_POD)
  {
    OtherImage("vm", "vm");
    OtherImage("vt", "vt");
    OtherImage("vm", "vt");
    OtherImage("vt", "vm");
    assert "vm"[1] != "vt"[1];
    assert "vm" in STORES.metrics.images && "vt" in STORES.traces.images;
    assert Matches(STORES.metrics, "vm") && Matches(STORES.traces, "vt");
    assert !Matches(STORES.metrics, "vt") && !Matches(STORES.traces, "vm");
    assert "vm" in FENCED_POD.images && "vt" in OPEN_POD.images;
  }

  lemma SpelledOut()
    ensures SharedService(HERE, STORES, FENCED_POD, OPEN_POD, SHARED, FENCE)
  {
    ImagesDiffer();
    assert "app" in SHARED.selector;
    assert SHARED.ports[0] == 8428 && SHARED.ports[1] == 10428;
    assert "tier" in FENCE.podSelector.matchLabels && "tier" !in OPEN_POD.labels;
  }

  /** Such a cluster, spelled out, and the one its first install leaves behind: the second run decides otherwise. */
  lemma SharedServiceExists()
    ensures SharedService(HERE, STORES, FENCED_POD, OPEN_POD, SHARED, FENCE)
    ensures var first := Cluster([FENCED_POD, OPEN_POD], [SHARED], [FENCE], []);
      Decided(HERE, first, STORES) != Decided(HERE, WithRules(HERE, first, STORES), STORES)
  {
    SpelledOut();
    SharedServiceFlips(HERE, STORES, FENCED_POD, OPEN_POD, SHARED, FENCE);
  }

  // ── Every later run ────────────────────────────────────────────────────────

  function RuleIn(settings: Settings, target: Target, v: View): seq<Policy> {
    if v.View? && v.fenced && v.podSelector != map[] && !v.forced && v.namespace == settings.namespace then
      [Rule(settings.namespace, "aiwatcher-allow-" + target.key, OwnLabels(), v.podSelector,
            Path(COLLECTOR, target.port))]
    else []
  }

  ghost function NextRules(settings: Settings, targets: Targets, world: Cluster, rules: seq<Policy>): seq<Policy> {
    RuleIn(settings, targets.metrics, Viewed(settings, world, rules, targets.metrics))
    + RuleIn(settings, targets.traces, Viewed(settings, world, rules, targets.traces))
  }

  lemma RulesAreNext(settings: Settings, targets: Targets, c: Cluster, world: Cluster, rules: seq<Policy>)
    requires World(world) && Sees(c, world, rules)
    ensures RulesOf(settings, c, targets) == NextRules(settings, targets, world, rules)
  {
    RunViews(settings, c, world, rules, targets.metrics);
    RunViews(settings, c, world, rules, targets.traces);
  }

  /** What is attached once `n` runs have been applied, starting from none. */
  ghost function RulesAfter(settings: Settings, targets: Targets, world: Cluster, n: nat): seq<Policy> {
    Iterate(rules => NextRules(settings, targets, world, rules), [], n)
  }

  ghost function Iterate<T>(step: T -> T, start: T, n: nat): T {
    if n == 0 then start else step(Iterate(step, start, n - 1))
  }

  lemma {:induction false} IterateSettles<T>(step: T -> T, start: T, n: nat)
    requires n >= 2 && Iterate(step, start, 3) == Iterate(step, start, 2)
    ensures Iterate(step, start, n) == Iterate(step, start, 2)
  {
    if n > 2 {
      IterateSettles(step, start, n - 1);
    }
  }

  lemma MoreRulesMoreFences(settings: Settings, world: Cluster, a: seq<Policy>, b: seq<Policy>, target: Target)
    requires forall r :: r in a ==> r in b
    ensures RuleIn(settings, target, Viewed(settings, world, a, target)) != [] ==>
      RuleIn(settings, target, Viewed(settings, world, b, target))
      == RuleIn(settings, target, Viewed(settings, world, a, target))
    ensures RuleIn(settings, target, Viewed(settings, world, b, target)) == [] ==>
      RuleIn(settings, target, Viewed(settings, world, a, target)) == []
  {
  }

  lemma TwoRunsSettle(settings: Settings, targets: Targets, world: Cluster)
    ensures RulesAfter(settings, targets, world, 3) == RulesAfter(settings, targets, world, 2)
  {
    var r0, r1 := RulesAfter(settings, targets, world, 0), RulesAfter(settings, targets, world, 1);
    var r2, r3 := RulesAfter(settings, targets, world, 2), RulesAfter(settings, targets, world, 3);
    assert r0 == [] && r1 == NextRules(settings, targets, world, r0);
    assert r2 == NextRules(settings, targets, world, r1) && r3 == NextRules(settings, targets, world, r2);
    MoreRulesMoreFences(settings, world, r0, r1, targets.metrics);
    MoreRulesMoreFences(settings, world, r0, r1, targets.traces);
    assert forall r :: r in r1 ==> r in r2;
    MoreRulesMoreFences(settings, world, r1, r2, targets.metrics);
    MoreRulesMoreFences(settings, world, r1, r2, targets.traces);
  }

  lemma RulesSettle(settings: Settings, targets: Targets, world: Cluster, n: nat)
    requires n >= 2
    ensures RulesAfter(settings, targets, world, n) == RulesAfter(settings, targets, world, 2)
  {
    TwoRunsSettle(settings, targets, world);
    IterateSettles(rules => NextRules(settings, targets, world, rules), [], n);
  }

  /**
   Installs one after another: the first sees no rules of its own, and each later one the rules the
   install before it attached.
   */
  ghost predicate Installs(settings: Settings, targets: Targets, world: Cluster, runs: seq<Cluster>) {
    && World(world)
    && (runs != [] ==> Sees(runs[0], world, []))
    && forall i :: 0 < i < |runs| ==> Sees(runs[i], world, RulesOf(settings, runs[i - 1], targets))
  }

  lemma {:induction false} InstallSees(settings: Settings, targets: Targets, world: Cluster, runs: seq<Cluster>, k: nat)
    requires Installs(settings, targets, world, runs) && k < |runs|
    ensures Sees(runs[k], world, RulesAfter(settings, targets, world, k))
  {
    if k > 0 {
      InstallSees(settings, targets, world, runs, k - 1);
      RulesAreNext(settings, targets, runs[k - 1], world, RulesAfter(settings, targets, world, k - 1));
    }
  }

  /** What the second install attaches every later one attaches too. */
  lemma InstallsSettle(settings: Settings, targets: Targets, world: Cluster, runs: seq<Cluster>, k: nat)
    requires Installs(settings, targets, world, runs) && 1 <= k < |runs|
    ensures RulesOf(settings, runs[k], targets) == RulesOf(settings, runs[1], targets)
  {
    InstallSees(settings, targets, world, runs, k);
    InstallSees(settings, targets, world, runs, 1);
    RulesAreNext(settings, targets, runs[k], world, RulesAfter(settings, targets, world, k));
    RulesAreNext(settings, targets, runs[1], world, RulesAfter(settings, targets, world, 1));
    RulesSettle(settings, targets, world, k + 1);
  }

  lemma SameRulesDecide(
    settings: Settings, targets: Targets, world: Cluster, rules: seq<Policy>, a: Cluster, b: Cluster)
    requires World(world) && Sees(a, world, rules) && Sees(b, world, rules)
    ensures Decided(settings, a, targets) == Decided(settings, b, targets)
  {
    SameDomain(settings, a, b, world, rules, rules);
    ViewsDecide(settings, a, b, targets);
    forall t | t in targets.All()
      ensures ViewOf(FindingFor(settings, Some(a), t)) == ViewOf(FindingFor(settings, Some(b), t))
    {
      RunViews(settings, a, world, rules, t);
      RunViews(settings, b, world, rules, t);
    }
  }

  /** From the third install on every run decides the same, whatever the world and however many there are. */
  lemma LaterRunsAgree(
    settings: Settings, targets: Targets, world: Cluster, runs: seq<Cluster>, m: nat, n: nat)
    requires Installs(settings, targets, world, runs) && 2 <= m < |runs| && 2 <= n < |runs|
    ensures Decided(settings, runs[m], targets) == Decided(settings, runs[n], targets)
  {
    InstallsSettle(settings, targets, world, runs, m - 1);
    InstallsSettle(settings, targets, world, runs, n - 1);
    SameRulesDecide(settings, targets, world, RulesOf(settings, runs[1], targets), runs[m], runs[n]);
  }
}
