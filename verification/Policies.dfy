/**
 NetworkPolicies: which pods one selects, what it lets in, and when adding one only widens
 (deploy/scripts/detect-stack.py).
 */
module Policies {
  import opened Detect

  datatype Requirement = Requirement(key: string, operator: string, values: seq<string>)

  datatype LabelSelector = LabelSelector(matchLabels: Labels, matchExpressions: seq<Requirement>)

  /** A way in: who is calling, on which port. */
  datatype Path = Path(peer: string, port: nat)

  datatype Policy = Policy(
    namespace: string, name: string, labels: Labels, policyTypes: seq<string>, podSelector: LabelSelector,
    admits: set<Path>)

  // ── Label selectors ────────────────────────────────────────────────────────

  /** What each operator of a label selector asks of a pod, as Kubernetes defines them. */
  predicate Meets(r: Requirement, labels: Labels) {
    match r.operator
    case "In" => r.key in labels && labels[r.key] in r.values
    case "NotIn" => r.key !in labels || labels[r.key] !in r.values
    case "Exists" => r.key in labels
    case "DoesNotExist" => r.key !in labels
    case _ => true
  }

  predicate SelectsPod(selector: LabelSelector, labels: Labels) {
    && (forall k :: k in selector.matchLabels ==> k in labels && labels[k] == selector.matchLabels[k])
    && (forall r :: r in selector.matchExpressions ==> Meets(r, labels))
  }

  function Asking(key: string, operator: string, values: seq<string>): LabelSelector {
    LabelSelector(map[], [Requirement(key, operator, values)])
  }

  lemma AskingMeets(key: string, operator: string, values: seq<string>, labels: Labels)
    ensures SelectsPod(Asking(key, operator, values), labels) <==> Meets(Requirement(key, operator, values), labels)
  {
    assert Requirement(key, operator, values) in Asking(key, operator, values).matchExpressions;
  }

  /**
   The operators in terms of plain labels: `In` is one of several labels, `NotIn` none of them, `Exists`
   a label of any value and `DoesNotExist` of none; an operator of any other name asks nothing.
   */
  lemma OperatorsMean(key: string, operator: string, values: seq<string>, labels: Labels)
    ensures SelectsPod(Asking(key, "In", values), labels)
       <==> exists v :: v in values && SelectsPod(LabelSelector(map[key := v], []), labels)
    ensures SelectsPod(Asking(key, "NotIn", values), labels) <==> !SelectsPod(Asking(key, "In", values), labels)
    ensures SelectsPod(Asking(key, "Exists", values), labels)
       <==> exists v :: SelectsPod(LabelSelector(map[key := v], []), labels)
    ensures SelectsPod(Asking(key, "DoesNotExist", values), labels)
       <==> !SelectsPod(Asking(key, "Exists", values), labels)
    ensures operator !in {"In", "NotIn", "Exists", "DoesNotExist"} ==> SelectsPod(Asking(key, operator, values), labels)
  {
    forall o
      ensures SelectsPod(Asking(key, o, values), labels) <==> Meets(Requirement(key, o, values), labels)
    {
      AskingMeets(key, o, values, labels);
    }
    forall v
      ensures SelectsPod(LabelSelector(map[key := v], []), labels) <==> key in labels && labels[key] == v
    {
      assert key in LabelSelector(map[key := v], []).matchLabels;
    }
    if key in labels {
      assert SelectsPod(LabelSelector(map[key := labels[key]], []), labels);
    }
  }

  /** `label_selector_matches`: an empty selector at once, then the labels, then the expressions, until one fails. */
  method LabelSelectorMatches(selector: LabelSelector, labels: Labels) returns (matched: bool)
    ensures matched == SelectsPod(selector, labels)
  {
    if selector == LabelSelector(map[], []) {
      return true;
    }
    var unseen := selector.matchLabels;
    while unseen != map[]
      invariant forall k :: k in unseen ==> k in selector.matchLabels && unseen[k] == selector.matchLabels[k]
      invariant forall k :: k in selector.matchLabels && k !in unseen ==>
        k in labels && labels[k] == selector.matchLabels[k]
      decreases |unseen|
    {
      assert unseen.Keys != {};
      var key :| key in unseen;
      if key !in labels || labels[key] != unseen[key] {
        return false;
      }
      assert |unseen.Keys - {key}| < |unseen.Keys|;
      assert (unseen - {key}).Keys == unseen.Keys - {key};
      unseen := unseen - {key};
    }
    for i := 0 to |selector.matchExpressions|
      invariant forall j :: 0 <= j < i ==> Meets(selector.matchExpressions[j], labels)
    {
      var expression := selector.matchExpressions[i];
      assert expression in selector.matchExpressions;
      var present := expression.key in labels;
      if expression.operator == "In" && (!present || labels[expression.key] !in expression.values) {
        return false;
      }
      if expression.operator == "NotIn" && present && labels[expression.key] in expression.values {
        return false;
      }
      if expression.operator == "Exists" && !present {
        return false;
      }
      if expression.operator == "DoesNotExist" && present {
        return false;
      }
    }
    return true;
  }

  // ── Fences ─────────────────────────────────────────────────────────────────

  /** A policy that says nothing of its types is about ingress. */
  predicate OnIngress(policy: Policy) {
    policy.policyTypes == [] || "Ingress" in policy.policyTypes
  }

  predicate Restricts(policy: Policy, namespace: string, labels: Labels) {
    policy.namespace == namespace && OnIngress(policy) && SelectsPod(policy.podSelector, labels)
  }

  ghost predicate Fenced(policies: seq<Policy>, namespace: string, labels: Labels) {
    exists p :: p in policies && Restricts(p, namespace, labels)
  }

  function FenceName(policies: seq<Policy>, namespace: string, labels: Labels): string {
    if policies == [] then ""
    else if Restricts(policies[0], namespace, labels) then policies[0].name
    else FenceName(policies[1..], namespace, labels)
  }

  /** `fenced_by_policy`: the name of the first policy that restricts ingress to the pod. */
  method FencedByPolicy(namespace: string, labels: Labels, policies: seq<Policy>) returns (name: string)
    ensures name == FenceName(policies, namespace, labels)
  {
    for i := 0 to |policies|
      invariant FenceName(policies, namespace, labels) == FenceName(policies[i..], namespace, labels)
    {
      var policy := policies[i];
      if policy.namespace != namespace {
        continue;
      }
      if !OnIngress(policy) {
        continue;
      }
      var matched := LabelSelectorMatches(policy.podSelector, labels);
      if matched {
        return policy.name;
      }
    }
    return "";
  }

  ghost predicate AllNamed(policies: seq<Policy>) {
    forall p :: p in policies ==> p.name != ""
  }

  /** The name says whether the pod is fenced at all, as long as every policy has one. */
  lemma {:induction false} FenceNameTells(policies: seq<Policy>, namespace: string, labels: Labels)
    requires AllNamed(policies)
    ensures FenceName(policies, namespace, labels) != "" <==> Fenced(policies, namespace, labels)
  {
    if policies != [] {
      FenceNameTells(policies[1..], namespace, labels);
      if Fenced(policies, namespace, labels) {
        var p :| p in policies && Restricts(p, namespace, labels);
        assert p == policies[0] || p in policies[1..];
      }
    }
  }

  // ── What gets through ──────────────────────────────────────────────────────

  /** Kubernetes ingress: a pod no policy selects accepts everything, any other the union of what its policies admit. */
  ghost predicate Accepts(policies: seq<Policy>, namespace: string, labels: Labels, path: Path) {
    Fenced(policies, namespace, labels) ==>
      exists p :: p in policies && Restricts(p, namespace, labels) && path in p.admits
  }

  /** The ingress rule a release attaches to pods it does not own: the found Service's own selector, one way in. */
  function Rule(namespace: string, name: string, labels: Labels, selector: Labels, path: Path): Policy {
    Policy(namespace, name, labels, ["Ingress"], LabelSelector(selector, []), {path})
  }

  lemma RuleRestricts(
    rule: Policy, namespace: string, name: string, own: Labels, selector: Labels, path: Path, labels: Labels)
    requires rule == Rule(namespace, name, own, selector, path) && selector != map[]
    ensures Restricts(rule, namespace, labels) <==> Selects(selector, labels)
  {
  }

  /**
   What a pod accepts once a policy is added: unchanged where the policy does not select it,
   the old paths and the new ones where it was fenced already, and the new ones alone where it was not.
   */
  lemma AcceptsAfter(policies: seq<Policy>, rule: Policy, namespace: string, labels: Labels, path: Path)
    ensures Accepts(policies + [rule], namespace, labels, path) <==>
      (if !Restricts(rule, namespace, labels) then Accepts(policies, namespace, labels, path)
       else if Fenced(policies, namespace, labels)
         then Accepts(policies, namespace, labels, path) || path in rule.admits
       else path in rule.admits)
  {
    var all := policies + [rule];
    assert forall p :: p in all <==> p in policies || p == rule;
    if Restricts(rule, namespace, labels) {
      assert rule in all;
    }
    if Fenced(policies, namespace, labels) {
      var p :| p in policies && Restricts(p, namespace, labels);
      assert p in all;
    }
    if p :| p in policies && Restricts(p, namespace, labels) && path in p.admits {
      assert p in all;
    }
  }

  ghost predicate Narrowed(policies: seq<Policy>, rule: Policy, pod: Pod) {
    exists path ::
      && Accepts(policies, pod.namespace, pod.labels, path)
      && !Accepts(policies + [rule], pod.namespace, pod.labels, path)
  }

  /** A pod loses a path exactly when the rule selects it and nothing fenced it before. */
  lemma NarrowedExactly(policies: seq<Policy>, rule: Policy, pod: Pod)
    requires exists path: Path :: path !in rule.admits
    ensures Narrowed(policies, rule, pod) <==>
      Restricts(rule, pod.namespace, pod.labels) && !Fenced(policies, pod.namespace, pod.labels)
  {
    forall path
      ensures Accepts(policies + [rule], pod.namespace, pod.labels, path) <==>
        (if !Restricts(rule, pod.namespace, pod.labels) then Accepts(policies, pod.namespace, pod.labels, path)
         else if Fenced(policies, pod.namespace, pod.labels)
           then Accepts(policies, pod.namespace, pod.labels, path) || path in rule.admits
         else path in rule.admits)
    {
      AcceptsAfter(policies, rule, pod.namespace, pod.labels, path);
    }
    if Restricts(rule, pod.namespace, pod.labels) && !Fenced(policies, pod.namespace, pod.labels) {
      var path: Path :| path !in rule.admits;
      assert Accepts(policies, pod.namespace, pod.labels, path);
    }
  }
}
