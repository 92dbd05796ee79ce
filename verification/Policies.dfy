/** Policies, resource selectors, and which policy a template goes to
    (pkg/util/selector.go, pkg/detector/compare.go). */
module Policies {
  import opened FixedWidth
  import opened Wrappers

  /** Label keys; the detector's own ones are told apart from all others. */
  datatype LabelKey =
    | PropagationPolicyPermanentIDLabel
    | ClusterPropagationPolicyPermanentIDLabel
    | ResourceTemplateClaimedByLabel
    | OtherLabel(name: string)

  /** One requirement of a parsed label selector. */
  datatype Requirement =
    | In(labelKey: LabelKey, values: set<string>)
    | NotIn(labelKey: LabelKey, values: set<string>)
    | Exists(labelKey: LabelKey)
    | DoesNotExist(labelKey: LabelKey)
  {
    predicate Holds(labels: map<LabelKey, string>) {
      match this
      case In(labelKey, values) => labelKey in labels && labels[labelKey] in values
      case NotIn(labelKey, values) => labelKey in labels ==> labels[labelKey] !in values
      case Exists(labelKey) => labelKey in labels
      case DoesNotExist(labelKey) => labelKey !in labels
    }
  }

  /** A label selector that was parsed, or could not be. */
  datatype LabelSelector = Unparsable | Selector(requirements: seq<Requirement>)
  {
    predicate Matches(labels: map<LabelKey, string>) {
      Selector? && forall r <- requirements :: r.Holds(labels)
    }
  }

  datatype ResourceSelector = ResourceSelector(
    apiVersion: string, kind: string, namespace: string, name: string, labelSelector: Option<LabelSelector>)

  /** The identity of a resource template. */
  datatype Key = Key(apiVersion: string, kind: string, namespace: string, name: string)

  /** Propagation policies live in a namespace, cluster propagation policies do not. */
  datatype PolicyRef = PP(namespace: string, name: string) | CPP(name: string)

  datatype Policy = Policy(
    ref: PolicyRef, id: string, priority: Option<Int32>, preempts: bool, isLazy: bool, deleting: bool,
    selectors: seq<ResourceSelector>)
  {
    function ExplicitPriority(): Int32 {
      if priority.None? then 0 else priority.value
    }
  }

  const MISMATCH := 0
  const MATCH_ALL := 1
  const MATCH_LABEL_SELECTOR := 2
  const MATCH_NAME := 3

  /** How closely one selector matches. A name decides alone; without a name the labels do. */
  function ResourceSelectorPriority(key: Key, labels: map<LabelKey, string>, rs: ResourceSelector): (p: nat)
    ensures p <= MATCH_NAME
  {
    if key.apiVersion != rs.apiVersion || key.kind != rs.kind
       || (|rs.namespace| > 0 && key.namespace != rs.namespace) then MISMATCH
    else if |rs.name| > 0 then
      if rs.name == key.name then MATCH_NAME else MISMATCH
    else if rs.labelSelector.None? then MATCH_ALL
    else
      if rs.labelSelector.value.Matches(labels) then MATCH_LABEL_SELECTOR else MISMATCH
  }

  /** What each priority says about the selector and the object. */
  lemma SelectorPriorityMeans(key: Key, labels: map<LabelKey, string>, rs: ResourceSelector)
    ensures var p := ResourceSelectorPriority(key, labels, rs);
      var inScope := rs.apiVersion == key.apiVersion && rs.kind == key.kind &&
        (rs.namespace == "" || rs.namespace == key.namespace);
      && (p == 3 <==> inScope && rs.name != "" && rs.name == key.name)
      && (p == 2 <==> inScope && rs.name == "" && rs.labelSelector.Some? && rs.labelSelector.value.Matches(labels))
      && (p == 1 <==> inScope && rs.name == "" && rs.labelSelector.None?)
      && p <= 3
  {
  }

  /** What each requirement asks of one label, and that a selector asks for all of its requirements. */
  lemma LabelSelectorMeans(selector: LabelSelector, labels: map<LabelKey, string>)
    ensures selector.Matches(labels) <==>
      && selector != Unparsable
      && forall r <- selector.requirements ::
        match r
        case In(k, values) => exists v <- values :: k in labels && labels[k] == v
        case NotIn(k, values) => !exists v <- values :: k in labels && labels[k] == v
        case Exists(k) => k in labels.Keys
        case DoesNotExist(k) => k !in labels.Keys
  {
    if selector.Selector? {
      forall r | r in selector.requirements
        ensures r.Holds(labels) <==>
          match r
          case In(k, values) => exists v <- values :: k in labels && labels[k] == v
          case NotIn(k, values) => !exists v <- values :: k in labels && labels[k] == v
          case Exists(k) => k in labels.Keys
          case DoesNotExist(k) => k !in labels.Keys
      {
      }
    }
  }

  /** The narrower selector is the wider one with a namespace, a name or a label selector filled in. */
  predicate Narrows(narrow: ResourceSelector, wide: ResourceSelector) {
    && narrow.apiVersion == wide.apiVersion && narrow.kind == wide.kind
    && (wide.namespace == "" || narrow.namespace == wide.namespace)
    && (wide.name == "" || narrow.name == wide.name)
    && (wide.labelSelector.None? || narrow.labelSelector == wide.labelSelector)
  }

  /** An object that the narrower selector matches is matched by it at least as closely as by the wider one, and by
      the wider one too, unless that has a label selector which a name in the narrower one has put out of force. */
  lemma NarrowerMatchesCloser(
      key: Key, labels: map<LabelKey, string>, narrow: ResourceSelector, wide: ResourceSelector)
    requires Narrows(narrow, wide) && ResourceSelectorPriority(key, labels, narrow) > MISMATCH
    ensures ResourceSelectorPriority(key, labels, wide) <= ResourceSelectorPriority(key, labels, narrow)
    ensures ResourceSelectorPriority(key, labels, wide) == MISMATCH <==>
      && wide.name == "" && narrow.name == key.name && key.name != ""
      && wide.labelSelector.Some? && !wide.labelSelector.value.Matches(labels)
  {
  }

  function HighestSelectorPriority(key: Key, labels: map<LabelKey, string>, selectors: seq<ResourceSelector>): nat {
    if selectors == [] then MISMATCH
    else Max(
      HighestSelectorPriority(key, labels, selectors[..|selectors| - 1]),
      ResourceSelectorPriority(key, labels, selectors[|selectors| - 1]))
  }

  /** The highest priority of all selectors. */
  method ResourceMatchSelectorsPriority(key: Key, labels: map<LabelKey, string>, selectors: seq<ResourceSelector>)
    returns (priority: nat)
    ensures priority == HighestSelectorPriority(key, labels, selectors)
    ensures forall rs <- selectors :: ResourceSelectorPriority(key, labels, rs) <= priority
    ensures priority > MISMATCH ==> exists rs <- selectors :: ResourceSelectorPriority(key, labels, rs) == priority
  {
    priority := MISMATCH;
    for i := 0 to |selectors|
      invariant priority == HighestSelectorPriority(key, labels, selectors[..i])
      invariant forall rs <- selectors[..i] :: ResourceSelectorPriority(key, labels, rs) <= priority
      invariant priority > MISMATCH ==>
        exists rs <- selectors[..i] :: ResourceSelectorPriority(key, labels, rs) == priority
    {
      assert selectors[..i + 1] == selectors[..i] + [selectors[i]];
      var p := ResourceSelectorPriority(key, labels, selectors[i]);
      if p > priority {
        priority := p;
      }
    }
    assert selectors[..|selectors|] == selectors;
  }

  predicate Selects(policy: Policy, key: Key, labels: map<LabelKey, string>) {
    exists rs <- policy.selectors :: ResourceSelectorPriority(key, labels, rs) > MISMATCH
  }

  lemma {:induction false} SelectsByPriority(key: Key, labels: map<LabelKey, string>, selectors: seq<ResourceSelector>)
    ensures HighestSelectorPriority(key, labels, selectors) > MISMATCH <==>
      exists rs <- selectors :: ResourceSelectorPriority(key, labels, rs) > MISMATCH
  {
    if selectors != [] {
      SelectsByPriority(key, labels, selectors[..|selectors| - 1]);
      assert selectors == selectors[..|selectors| - 1] + [selectors[|selectors| - 1]];
    }
  }

  /** The priority of a policy is that of its best selector. */
  lemma {:induction false} HighestIsBest(
      key: Key, labels: map<LabelKey, string>, selectors: seq<ResourceSelector>, p: nat)
    requires p > 0
    ensures p <= HighestSelectorPriority(key, labels, selectors) <==>
      exists rs <- selectors :: p <= ResourceSelectorPriority(key, labels, rs)
  {
    if selectors != [] {
      HighestIsBest(key, labels, selectors[..|selectors| - 1], p);
      assert selectors == selectors[..|selectors| - 1] + [selectors[|selectors| - 1]];
    }
  }

  /** Go's string order. */
  predicate Less(a: string, b: string) {
    b != [] && (a == [] || a[0] < b[0] || (a[0] == b[0] && Less(a[1..], b[1..])))
  }

  lemma {:induction false} LessTotal(a: string, b: string)
    ensures Less(a, b) || Less(b, a) || a == b
    ensures !(Less(a, b) && Less(b, a)) && !Less(a, a)
  {
    if a != [] {
      LessTotal(a[1..], if b == [] then [] else b[1..]);
    }
    if a != [] && b != [] && a[0] == b[0] {
      assert a == [a[0]] + a[1..] && b == [b[0]] + b[1..];
    }
  }

  /** The shorter of two strings comes first if it begins the other, and otherwise the first difference decides. */
  lemma {:induction false} LessMeans(a: string, b: string)
    ensures Less(a, b) <==>
      exists i: nat :: i <= |a| && i < |b| && a[..i] == b[..i] && (i < |a| ==> a[i] < b[i])
  {
    if a != [] && b != [] && a[0] == b[0] {
      LessMeans(a[1..], b[1..]);
      if i: nat :| i <= |a[1..]| && i < |b[1..]| && a[1..][..i] == b[1..][..i]
                   && (i < |a[1..]| ==> a[1..][i] < b[1..][i]) {
        assert a[..i + 1] == [a[0]] + a[1..][..i] && b[..i + 1] == [b[0]] + b[1..][..i];
      }
      if i: nat :| i <= |a| && i < |b| && a[..i] == b[..i] && (i < |a| ==> a[i] < b[i]) {
        assert i > 0;
        assert a[1..][..i - 1] == a[..i][1..] && b[1..][..i - 1] == b[..i][1..];
      }
    } else if a == [] || b == [] || a[0] < b[0] {
      assert a[..0] == b[..0];
    } else {
      assert forall i: nat :: 0 < i <= |a| && i < |b| ==> a[..i][0] == a[0] && b[..i][0] == b[0];
    }
  }

  lemma {:induction false} LessTransitive(a: string, b: string, c: string)
    requires Less(a, b) && Less(b, c)
    ensures Less(a, c)
  {
    if a != [] && a[0] == b[0] == c[0] {
      LessTransitive(a[1..], b[1..], c[1..]);
    }
  }

  /** `q` does not come before `p`: not by explicit priority, then selector priority, then name. */
  predicate AtLeastAsGood(p: Policy, q: Policy, key: Key, labels: map<LabelKey, string>) {
    var ip, iq := HighestSelectorPriority(key, labels, p.selectors), HighestSelectorPriority(key, labels, q.selectors);
    || p.ExplicitPriority() > q.ExplicitPriority()
    || (p.ExplicitPriority() == q.ExplicitPriority() && (ip > iq || (ip == iq && !Less(q.ref.name, p.ref.name))))
  }

  lemma AtLeastAsGoodTransitive(p: Policy, q: Policy, r: Policy, key: Key, labels: map<LabelKey, string>)
    requires AtLeastAsGood(p, q, key, labels) && AtLeastAsGood(q, r, key, labels)
    ensures AtLeastAsGood(p, r, key, labels)
  {
    LessTotal(p.ref.name, q.ref.name);
    LessTotal(q.ref.name, r.ref.name);
    LessTotal(p.ref.name, r.ref.name);
    if Less(r.ref.name, p.ref.name) && Less(p.ref.name, q.ref.name) {
      LessTransitive(r.ref.name, p.ref.name, q.ref.name);
    }
  }

  /** The outcome of policy selection. */
  ghost predicate Best(policies: seq<Policy>, key: Key, labels: map<LabelKey, string>, r: Option<Policy>) {
    match r
    case None => forall q <- policies :: !Selects(q, key, labels)
    case Some(p) =>
      && p in policies && Selects(p, key, labels)
      && forall q <- policies :: Selects(q, key, labels) ==> AtLeastAsGood(p, q, key, labels)
  }

  /** What is selected, read off the policies: one that a selector of its own matches, such that among the policies of
      which that is true none has a greater priority (a missing one counts as zero), or the same and a better matching
      selector, or the same in both and a smaller name. */
  lemma BestMeans(policies: seq<Policy>, key: Key, labels: map<LabelKey, string>, p: Policy)
    ensures Best(policies, key, labels, Some(p)) <==>
      && p in policies && (exists rs <- p.selectors :: ResourceSelectorPriority(key, labels, rs) > 0)
      && forall q | q in policies && exists rs <- q.selectors :: ResourceSelectorPriority(key, labels, rs) > 0 ::
        var a, b := if p.priority.Some? then p.priority.value else 0, if q.priority.Some? then q.priority.value else 0;
        var i, j := HighestSelectorPriority(key, labels, p.selectors), HighestSelectorPriority(key, labels, q.selectors);
        a > b || (a == b && (i > j || (i == j && !Less(q.ref.name, p.ref.name))))
    ensures Best(policies, key, labels, None) <==>
      forall q | q in policies :: forall rs <- q.selectors :: ResourceSelectorPriority(key, labels, rs) == 0
  {
    hide ResourceSelectorPriority, HighestSelectorPriority, Less;
    assert forall q: Policy :: Selects(q, key, labels) <==>
      exists rs <- q.selectors :: ResourceSelectorPriority(key, labels, rs) > 0;
  }

  method GetHigherPriority(a: Option<Policy>, b: Policy) returns (r: Policy)
    ensures r == if a.Some? && Less(a.value.ref.name, b.ref.name) then a.value else b
  {
    if a.None? {
      return b;
    }
    if Less(a.value.ref.name, b.ref.name) {
      return a.value;
    }
    return b;
  }

  /** `getHighestPriorityPropagationPolicy` and its cluster twin. */
  method GetHighestPriorityPolicy(policies: seq<Policy>, key: Key, labels: map<LabelKey, string>)
    returns (matchedPolicy: Option<Policy>)
    ensures Best(policies, key, labels, matchedPolicy)
  {
    var matchedImplicitPriority := MISMATCH;
    var matchedExplicitPriority: Int32 := MIN_INT32;
    matchedPolicy := None;
    for i := 0 to |policies|
      invariant Best(policies[..i], key, labels, matchedPolicy)
      invariant matchedPolicy.None? ==>
        matchedImplicitPriority == MISMATCH && matchedExplicitPriority == MIN_INT32
      invariant matchedPolicy.Some? ==>
        && matchedImplicitPriority == HighestSelectorPriority(key, labels, matchedPolicy.value.selectors)
        && matchedExplicitPriority == matchedPolicy.value.ExplicitPriority()
    {
      var policy := policies[i];
      ghost var before := matchedPolicy;
      assert policies[..i + 1] == policies[..i] + [policy];
      SelectsByPriority(key, labels, policy.selectors);
      LessTotal(policy.ref.name, policy.ref.name);
      var implicitPriority := ResourceMatchSelectorsPriority(key, labels, policy.selectors);
      if implicitPriority <= MISMATCH {
        continue;
      }
      var explicitPriority := policy.ExplicitPriority();
      if matchedExplicitPriority < explicitPriority {
        matchedImplicitPriority, matchedExplicitPriority := implicitPriority, explicitPriority;
        matchedPolicy := Some(policy);
      } else if matchedExplicitPriority == explicitPriority {
        if implicitPriority > matchedImplicitPriority {
          matchedImplicitPriority := implicitPriority;
          matchedPolicy := Some(policy);
        } else if implicitPriority == matchedImplicitPriority {
          var higher := GetHigherPriority(matchedPolicy, policy);
          matchedPolicy := Some(higher);
        }
      }
      if before.Some? {
        LessTotal(before.value.ref.name, policy.ref.name);
        BestExtends(policies[..i], policy, key, labels, before.value, matchedPolicy.value);
      }
    }
    assert policies[..|policies|] == policies;
  }

  /** The better of the best so far and one more policy is the best of all. */
  lemma BestExtends(
      policies: seq<Policy>, q: Policy, key: Key, labels: map<LabelKey, string>, best: Policy, better: Policy)
    requires Best(policies, key, labels, Some(best)) && Selects(q, key, labels)
    requires better == best || better == q
    requires AtLeastAsGood(better, best, key, labels) && AtLeastAsGood(better, q, key, labels)
    ensures Best(policies + [q], key, labels, Some(better))
  {
    forall r | r in policies && Selects(r, key, labels)
      ensures AtLeastAsGood(better, r, key, labels)
    {
      AtLeastAsGoodTransitive(better, best, r, key, labels);
    }
  }

  /** With distinct names the outcome does not depend on the order of the list. */
  lemma BestIsUnique(
      policies: seq<Policy>, reordered: seq<Policy>, key: Key, labels: map<LabelKey, string>,
      a: Option<Policy>, b: Option<Policy>)
    requires forall p :: p in policies <==> p in reordered
    requires forall p, q :: p in policies && q in policies && p.ref.name == q.ref.name ==> p == q
    requires Best(policies, key, labels, a) && Best(reordered, key, labels, b)
    ensures a == b
  {
    if a.Some? && b.Some? {
      LessTotal(a.value.ref.name, b.value.ref.name);
    }
  }
}
