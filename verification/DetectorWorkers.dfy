/** The detector's template worker as it is written, one reconciliation at a time: each is a run of the protocol
    (pkg/util/worker.go, pkg/detector/detector.go, policy.go). */
module DetectorWorkers {
  import opened Wrappers
  import opened Policies
  import opened Claims
  import opened Detector
  import opened DetectorInvariants
  import opened ProtocolRuns

  /** What can go wrong outside the detector during one reconciliation. */
  datatype Attempt = Attempt(
    readFails: bool, policyReadFails: bool, dependentsMissing: bool, updateFails: bool, bindingFails: bool,
    eventByKarmada: bool)  // how the event of a write is flagged if a lazy policy has claimed the template
  {
    predicate Calm() {
      !readFails && !policyReadFails && !dependentsMissing && !updateFails && !bindingFails
    }
  }

  /** The worker forgets its key or queues it again. */
  function Ended(s: State, q: QueueKey, ok: bool): State {
    if ok then Finish(s, q) else Requeue(s, q)
  }

  lemma GivesUp(s: State, q: QueueKey)
    requires q in s.workers
    ensures Works(s, Ended(s, q, false), TemplateWorker(q, false))
  {
    OneStep(s, Fail(q), Ended(s, q, false), TemplateWorker(q, false));
  }

  lemma EndForgetsPhase(s: State, q: QueueKey, phase: Phase, ok: bool)
    ensures Ended(At(s, q, phase), q, ok) == Ended(s, q, ok)
  {
    assert s.workers[q := phase] - {q} == s.workers - {q};
  }

  /** The state once the policy is applied. */
  function Applied(s: State, q: QueueKey, o: Template, p: Policy, byKarmada: bool, written: bool): State {
    var t := Write(s, q.key, Claimed(o.meta, p), byKarmada);
    if q.byKarmada && p.isLazy then Finish(t, q)
    else if written then Finish(t.(bound := Marked(s.bound, q.key, p)), q)
    else Requeue(t, q)
  }

  lemma WriteForgetsPhase(s: State, q: QueueKey, phase: Phase, meta: Meta, byKarmada: bool)
    requires q.key in s.templates
    ensures Write(At(s, q, phase), q.key, meta, byKarmada) == At(Write(s, q.key, meta, byKarmada), q, phase)
    ensures s.templates[q.key].meta == meta ==> Write(s, q.key, meta, byKarmada) == s
  {
  }

  lemma AppliedForgetsPhase(s: State, q: QueueKey, o: Template, p: Policy, byKarmada: bool, written: bool)
    requires q.key in s.templates && s.templates[q.key] == o
    ensures DoApply(At(s, q, Applying(Some(o), p)), q, byKarmada, written) == Applied(s, q, o, p, byKarmada, written)
  {
    var phase, claimed := Applying(Some(o), p), Claimed(o.meta, p);
    var from, t := At(s, q, phase), Write(s, q.key, claimed, byKarmada);
    assert AlreadyClaimed(o.meta, p) ==> claimed == o.meta;
    assert from.workers[q] == phase && ObjectMeta(from, q) == o.meta;
    WriteForgetsPhase(s, q, phase, claimed, byKarmada);
    hide AlreadyClaimed, Claimed, Write;
    assert (if AlreadyClaimed(o.meta, p) then from else Write(from, q.key, claimed, byKarmada)) == At(t, q, phase);
    EndForgetsPhase(t, q, phase, true);
    EndForgetsPhase(t, q, phase, false);
    EndForgetsPhase(t.(bound := Marked(s.bound, q.key, p)), q, phase, true);
  }

  /** Applying a policy to the template as it was read. */
  lemma ApplyPath(s: State, q: QueueKey, o: Template, p: Policy, byKarmada: bool, written: bool, calm: bool)
    requires q in s.workers && q.key in s.templates && s.templates[q.key] == o
    requires FlagAllowed(s, Claimed(o.meta, p), byKarmada) && (calm ==> written)
    ensures Works(At(s, q, Applying(Some(o), p)), Applied(s, q, o, p, byKarmada, written), TemplateWorker(q, calm))
  {
    hide AlreadyClaimed, Claimed, FlagAllowed, ClaimOf, Applied, DoApply;
    var a, from := Apply(q, byKarmada, written), At(s, q, Applying(Some(o), p));
    FlagDependsOnPolicies(s, from, Claimed(o.meta, p), byKarmada);
    assert Enabled(from, a);
    assert Do(from, a) == DoApply(from, q, byKarmada, written);
    AppliedForgetsPhase(s, q, o, p, byKarmada, written);
    hide Enabled, Do;
    OneStep(from, a, Applied(s, q, o, p, byKarmada, written), TemplateWorker(q, calm));
  }

  lemma FlagDependsOnPolicies(s: State, t: State, meta: Meta, byKarmada: bool)
    requires t.policies == s.policies && FlagAllowed(s, meta, byKarmada)
    ensures FlagAllowed(t, meta, byKarmada)
  {
    hide ClaimOf;
  }

  lemma ChosenDependsOnPolicies(
      s: State, t: State, key: Key, labels: map<LabelKey, string>, namespaced: bool, found: Option<Policy>)
    requires t.policies == s.policies && Chosen(s, key, labels, namespaced, found)
    ensures Chosen(t, key, labels, namespaced, found)
  {
    forall ref | ref in s.policies
      ensures Candidate(t, ref, key, labels) <==> Candidate(s, ref, key, labels)
    {
      hide Selects;
    }
    hide Candidate, AtLeastAsGood;
  }

  lemma SomeIsNotNone(s: State, key: Key, labels: map<LabelKey, string>, namespaced: bool, p: Policy)
    requires Chosen(s, key, labels, namespaced, Some(p))
    ensures !Chosen(s, key, labels, namespaced, None)
  {
    hide Candidate, AtLeastAsGood;
  }

  /** A worker that has read the current template, which is not taken over. */
  predicate HasRead(s: State, q: QueueKey, o: Template) {
    q in s.workers && q.key in s.templates && s.templates[q.key] == o && !TakenOver(o.meta)
  }

  lemma FollowPath(s: State, q: QueueKey, o: Template, p: Policy, calm: bool)
    requires HasRead(s, q, o) && ClaimOf(o.meta).By? && ClaimOf(o.meta).ref in s.policies
    requires p == s.policies[ClaimOf(o.meta).ref] && !p.deleting
    ensures Works(At(s, q, Read(Some(o))),
                  if Selects(p, q.key, o.meta.labels) then At(s, q, Applying(Some(o), p)) else Finish(s, q),
                  TemplateWorker(q, calm))
  {
    hide ClaimOf, Selects, TakenOver;
    var from := At(s, q, Read(Some(o)));
    var to := if Selects(p, q.key, o.meta.labels) then At(s, q, Applying(Some(o), p)) else Finish(s, q);
    assert Enabled(from, FollowClaim(q));
    assert Do(from, FollowClaim(q)) == DoFollowClaim(from, q);
    assert s.workers[q := Read(Some(o))] - {q} == s.workers - {q};
    assert DoFollowClaim(from, q) == to;
    hide Enabled, Do;
    OneStep(from, FollowClaim(q), to, TemplateWorker(q, calm));
  }

  lemma DanglingPath(s: State, q: QueueKey, o: Template, calm: bool)
    requires HasRead(s, q, o) && ClaimOf(o.meta).By? && ClaimOf(o.meta).ref !in s.policies
    ensures Works(At(s, q, Read(Some(o))), Finish(Dangled(s, q, o), q), TemplateWorker(q, calm))
  {
    var from, a, claim := At(s, q, Read(Some(o))), ReleaseDangling(q, false), ClaimOf(o.meta);
    assert o.meta.Label(IDLabel(claim.ref)) == claim.id;
    hide ClaimOf, TakenOver, Cleanup;
    assert Enabled(from, a);
    assert Do(from, a) == DoReleaseDangling(from, q, false);
    assert s.workers[q := Read(Some(o))] - {q} == s.workers - {q};
    assert DoReleaseDangling(from, q, false) == Finish(Dangled(s, q, o), q);
    hide Enabled, Do;
    OneStep(from, a, Finish(Dangled(s, q, o), q), TemplateWorker(q, calm));
  }

  /** The claim of a policy that is gone is removed. */
  function Dangled(s: State, q: QueueKey, o: Template): State {
    var claim := ClaimOf(o.meta);
    if claim.By? then
      var unbound := s.(bound := s.bound - {Mark(q.key, IDLabel(claim.ref), claim.id)});
      Write(unbound, q.key, Cleanup(o.meta, claim.ref), false)
    else s
  }

  lemma FoundPath(s: State, q: QueueKey, o: Template, p: Policy, namespaced: bool, calm: bool)
    requires HasRead(s, q, o) && ClaimOf(o.meta).Unclaimed?
    requires Chosen(s, q.key, o.meta.labels, namespaced, Some(p))
    ensures Works(At(s, q, if namespaced then Read(Some(o)) else NoPolicy(Some(o))),
                  At(s.(waiting := s.waiting - {q.key}), q, Applying(Some(o), p)), TemplateWorker(q, calm))
  {
    hide ClaimOf, TakenOver, Chosen;
    var from := At(s, q, if namespaced then Read(Some(o)) else NoPolicy(Some(o)));
    var a := if namespaced then LookForPolicy(q, Some(p)) else LookForClusterPolicy(q, Some(p));
    var to := At(s.(waiting := s.waiting - {q.key}), q, Applying(Some(o), p));
    ChosenDependsOnPolicies(s, from, q.key, o.meta.labels, namespaced, Some(p));
    assert Enabled(from, a);
    assert Do(from, a) == DoLook(from, q, Some(p), namespaced);
    assert DoLook(from, q, Some(p), namespaced) == to;
    hide Enabled, Do;
    OneStep(from, a, to, TemplateWorker(q, calm));
  }

  lemma NotFoundPath(s: State, q: QueueKey, o: Template, namespaced: bool, calm: bool)
    requires HasRead(s, q, o) && ClaimOf(o.meta).Unclaimed?
    requires Chosen(s, q.key, o.meta.labels, namespaced, None)
    ensures Works(At(s, q, if namespaced then Read(Some(o)) else NoPolicy(Some(o))),
                  At(s, q, if namespaced then NoPolicy(Some(o)) else NoMatch(Some(o))), TemplateWorker(q, calm))
  {
    hide ClaimOf, TakenOver, Chosen;
    var from := At(s, q, if namespaced then Read(Some(o)) else NoPolicy(Some(o)));
    var a := if namespaced then LookForPolicy(q, None) else LookForClusterPolicy(q, None);
    var to := At(s, q, if namespaced then NoPolicy(Some(o)) else NoMatch(Some(o)));
    ChosenDependsOnPolicies(s, from, q.key, o.meta.labels, namespaced, None);
    assert Enabled(from, a);
    assert Do(from, a) == DoLook(from, q, None, namespaced);
    assert DoLook(from, q, None, namespaced) == to;
    hide Enabled, Do;
    OneStep(from, a, to, TemplateWorker(q, calm));
  }

  lemma SettlePath(s: State, q: QueueKey, o: Template, calm: bool)
    requires q in s.workers
    ensures Works(At(s, q, NoMatch(Some(o))),
                  if q.key in s.waiting then Finish(s, q) else Requeue(s.(waiting := s.waiting + {q.key}), q),
                  TemplateWorker(q, calm))
  {
    var from := At(s, q, NoMatch(Some(o)));
    var to := if q.key in s.waiting then Finish(s, q) else Requeue(s.(waiting := s.waiting + {q.key}), q);
    assert Enabled(from, Settle(q));
    assert s.workers[q := NoMatch(Some(o))] - {q} == s.workers - {q};
    assert Do(from, Settle(q)) == to;
    hide Enabled, Do;
    OneStep(from, Settle(q), to, TemplateWorker(q, calm));
  }

  /** The template is gone or taken over. */
  lemma DropPath(s: State, q: QueueKey, calm: bool)
    requires q in s.workers && (Current(s, q.key).Some? ==> TakenOver(Current(s, q.key).value.meta))
    ensures Works(At(s, q, Read(Current(s, q.key))), Finish(s.(waiting := s.waiting - {q.key}), q), TemplateWorker(q, calm))
  {
    hide TakenOver;
    var from, to := At(s, q, Read(Current(s, q.key))), Finish(s.(waiting := s.waiting - {q.key}), q);
    assert Enabled(from, Drop(q));
    assert from.workers - {q} == s.workers - {q};
    assert Do(from, Drop(q)) == to;
    hide Enabled, Do;
    OneStep(from, Drop(q), to, TemplateWorker(q, calm));
  }

  lemma ReadPath(s: State, q: QueueKey, calm: bool)
    requires q in s.workers && s.workers[q].Started?
    ensures Works(s, At(s, q, Read(Current(s, q.key))), TemplateWorker(q, calm))
  {
    hide Current;
    OneStep(s, ReadObject(q), At(s, q, Read(Current(s, q.key))), TemplateWorker(q, calm));
  }

  lemma WaitingIsFree(s: State, waiting: set<Key>)
    requires Good(s)
    ensures Good(s.(waiting := waiting))
  {
    var t := s.(waiting := waiting);
    forall q | q in t.workers
      ensures GoodPhase(t, q.key, t.workers[q])
    {
      assert GoodPhase(s, q.key, s.workers[q]);
    }
    hide GoodPhase, GoodMeta, GoodPolicy;
  }

  /** The claiming policy is being deleted. */
  predicate Hindered(policies: map<PolicyRef, Policy>, meta: Meta) {
    ClaimOf(meta).By? && ClaimOf(meta).ref in policies && policies[ClaimOf(meta).ref].deleting
  }

  predicate HinderedAt(s: State, key: Key) {
    key in s.templates && Hindered(s.policies, s.templates[key].meta)
  }

  // What a turn comes to when nothing outside the detector fails

  /** The policy is applied: the template is claimed and, unless a lazy policy leaves that for a change by the user, its
      binding carries the ID; no other template or binding changes. */
  ghost predicate Took(s: State, t: State, q: QueueKey, p: Policy) {
    && q.key in s.templates && t.templates.Keys == s.templates.Keys
    && t.templates[q.key].meta == Claimed(s.templates[q.key].meta, p)
    && (forall k <- s.templates :: k != q.key ==> t.templates[k] == s.templates[k])
    && t.bound == if q.byKarmada && p.isLazy then s.bound else Marked(s.bound, q.key, p)
  }

  /** The claim of a policy that is gone is removed. */
  ghost predicate Forgot(s: State, t: State, q: QueueKey, ref: PolicyRef, id: string) {
    && q.key in s.templates && t.templates.Keys == s.templates.Keys
    && t.templates[q.key].meta == Cleanup(s.templates[q.key].meta, ref)
    && (forall k <- s.templates :: k != q.key ==> t.templates[k] == s.templates[k])
    && t.bound == s.bound - {Mark(q.key, IDLabel(ref), id)}
  }

  lemma WriteTakes(s: State, q: QueueKey, p: Policy, byKarmada: bool)
    requires q.key in s.templates
    ensures var t := Write(s, q.key, Claimed(s.templates[q.key].meta, p), byKarmada);
      && (q.byKarmada && p.isLazy ==> Took(s, t, q, p))
      && (!(q.byKarmada && p.isLazy) ==> Took(s, t.(bound := Marked(s.bound, q.key, p)), q, p))
  {
    hide Claimed, Marked;
  }

  ghost predicate Untouched(s: State, t: State) {
    t.templates == s.templates && t.bound == s.bound
  }

  /** Following a claim fails exactly if the claiming policy is being deleted. */
  ghost predicate FollowedWell(s: State, t: State, q: QueueKey, o: Template, ref: PolicyRef, id: string, ok: bool) {
    if ref !in s.policies then ok && Forgot(s, t, q, ref, id)
    else if s.policies[ref].deleting then !ok && Untouched(s, t)
    else if !Selects(s.policies[ref], q.key, o.meta.labels) then ok && Untouched(s, t)
    else ok && Took(s, t, q, s.policies[ref])
  }

  /** A policy that is found takes the template from the waiting list. */
  ghost predicate FoundWell(s: State, t: State, q: QueueKey, p: Policy, ok: bool) {
    ok && Took(s, t, q, p) && t.waiting == s.waiting - {q.key}
  }

  /** Without a policy the template waits, the first time with an error. */
  ghost predicate NotFoundWell(s: State, t: State, q: QueueKey, ok: bool) {
    Untouched(s, t) && t.waiting == s.waiting + {q.key} && (ok <==> q.key in s.waiting)
  }

  /** A search ends with a claim by a propagation policy, or else by a cluster policy, or on the waiting list. */
  ghost predicate SoughtWell(s: State, t: State, q: QueueKey, o: Template, ok: bool) {
    if Chosen(s, q.key, o.meta.labels, true, None) then
      if Chosen(s, q.key, o.meta.labels, false, None) then NotFoundWell(s, t, q, ok)
      else exists p :: Chosen(s, q.key, o.meta.labels, false, Some(p)) && FoundWell(s, t, q, p, ok)
    else exists p :: Chosen(s, q.key, o.meta.labels, true, Some(p)) && FoundWell(s, t, q, p, ok)
  }

  ghost predicate PropagatedWell(s: State, t: State, q: QueueKey, o: Template, ok: bool) {
    match ClaimOf(o.meta)
    case By(ref, id) => t.waiting == s.waiting && FollowedWell(s, t, q, o, ref, id, ok)
    case Unclaimed => SoughtWell(s, t, q, o, ok)
  }

  ghost predicate ReconciledWell(s: State, t: State, q: QueueKey, ok: bool) {
    if q.key !in s.templates || TakenOver(s.templates[q.key].meta) then
      ok && Untouched(s, t) && t.waiting == s.waiting - {q.key}
    else PropagatedWell(s, t, q, s.templates[q.key], ok)
  }

  lemma CalmMeans(attempt: Attempt)
    ensures attempt.Calm() <==>
      !(attempt.readFails || attempt.policyReadFails || attempt.dependentsMissing || attempt.updateFails
        || attempt.bindingFails)
  {
  }

  /** What applying a policy does to the template and to the IDs that bindings carry, entry by entry. */
  lemma TookMeans(s: State, t: State, q: QueueKey, p: Policy)
    requires Took(s, t, q, p)
    ensures t.templates.Keys == s.templates.Keys && q.key in s.templates
    ensures t.templates[q.key].meta == Claimed(s.templates[q.key].meta, p)
    ensures forall k <- s.templates :: k != q.key ==> t.templates[k] == s.templates[k]
    ensures q.byKarmada && p.isLazy ==> t.bound == s.bound
    ensures !(q.byKarmada && p.isLazy) ==> forall m: Mark :: m in t.bound <==>
      || (m.key == q.key && m.id == p.id
          && m.labelKey ==
            (if p.ref.PP? then PropagationPolicyPermanentIDLabel else ClusterPropagationPolicyPermanentIDLabel))
      || (m in s.bound && (m.key == q.key ==> p.ref.CPP? && m.labelKey == PropagationPolicyPermanentIDLabel))
  {
    hide Claimed;
  }

  /** What a turn comes to, case by case, when nothing outside the detector fails: it is an error only if the claiming
      policy is being deleted, or if no policy is found and the template was not yet waiting. */
  lemma TurnMeans(s: State, t: State, q: QueueKey, ok: bool)
    requires ReconciledWell(s, t, q, ok)
    ensures
      var gone := q.key !in s.templates || (
        && ResourceTemplateClaimedByLabel in s.templates[q.key].meta.labels
        && s.templates[q.key].meta.labels[ResourceTemplateClaimedByLabel] != "");
      gone ==> ok && t.templates == s.templates && t.bound == s.bound && t.waiting == s.waiting - {q.key}
    ensures q.key in s.templates && !TakenOver(s.templates[q.key].meta) && ClaimOf(s.templates[q.key].meta).By? ==>
      var meta := s.templates[q.key].meta;
      var By(ref, id) := ClaimOf(meta);
      && t.waiting == s.waiting
      && (ok <==> !(ref in s.policies && s.policies[ref].deleting))
      && (ref !in s.policies ==>
           && t.templates.Keys == s.templates.Keys && t.templates[q.key].meta == Cleanup(meta, ref)
           && (forall k <- s.templates :: k != q.key ==> t.templates[k] == s.templates[k])
           && t.bound == s.bound - {if ref.PP? then Mark(q.key, PropagationPolicyPermanentIDLabel, id)
                                    else Mark(q.key, ClusterPropagationPolicyPermanentIDLabel, id)})
      && (ref in s.policies ==>
           var p := s.policies[ref];
           if !p.deleting && exists rs <- p.selectors :: ResourceSelectorPriority(q.key, meta.labels, rs) > 0 then
             Took(s, t, q, p)
           else t.templates == s.templates && t.bound == s.bound)
    ensures q.key in s.templates && !TakenOver(s.templates[q.key].meta) && ClaimOf(s.templates[q.key].meta).Unclaimed? ==>
      var labels := s.templates[q.key].meta.labels;
      && (!Chosen(s, q.key, labels, true, None) ==> exists p ::
           && Chosen(s, q.key, labels, true, Some(p))
           && ok && Took(s, t, q, p) && t.waiting == s.waiting - {q.key})
      && (Chosen(s, q.key, labels, true, None) ==>
           && (!Chosen(s, q.key, labels, false, None) ==> exists p ::
                && Chosen(s, q.key, labels, false, Some(p))
                && ok && Took(s, t, q, p) && t.waiting == s.waiting - {q.key})
           && (Chosen(s, q.key, labels, false, None) ==>
                && t.templates == s.templates && t.bound == s.bound && t.waiting == s.waiting + {q.key}
                && (ok <==> q.key in s.waiting)))
  {
    hide Took, Cleanup, Chosen, ClaimOf;
  }

  /** What the worker chooses, read off the policies: a live one of the kind, in the template's namespace if it has
      one, that selects it; among those none has a greater priority, a missing one counting as zero, or the same and a
      better matching selector, or the same in both and a smaller name. */
  lemma ChosenMeans(s: State, key: Key, labels: map<LabelKey, string>, namespaced: bool, p: Policy)
    ensures Chosen(s, key, labels, namespaced, Some(p)) <==>
      && p.ref in s.policies && s.policies[p.ref] == p && p.ref.PP? == namespaced && !p.deleting
      && (p.ref.PP? ==> key.namespace != "" && p.ref.namespace == key.namespace)
      && (exists rs <- p.selectors :: ResourceSelectorPriority(key, labels, rs) > 0)
      && forall ref | ref in s.policies && ref.PP? == namespaced && !s.policies[ref].deleting
           && (ref.PP? ==> key.namespace != "" && ref.namespace == key.namespace)
           && (exists rs <- s.policies[ref].selectors :: ResourceSelectorPriority(key, labels, rs) > 0) ::
        var q := s.policies[ref];
        var a, b := if p.priority.Some? then p.priority.value else 0, if q.priority.Some? then q.priority.value else 0;
        var i, j := HighestSelectorPriority(key, labels, p.selectors), HighestSelectorPriority(key, labels, q.selectors);
        a > b || (a == b && (i > j || (i == j && !Less(q.ref.name, p.ref.name))))
    ensures Chosen(s, key, labels, namespaced, None) <==>
      forall ref | ref in s.policies && ref.PP? == namespaced && !s.policies[ref].deleting
          && (ref.PP? ==> key.namespace != "" && ref.namespace == key.namespace) ::
        forall rs <- s.policies[ref].selectors :: ResourceSelectorPriority(key, labels, rs) == 0
  {
    hide ResourceSelectorPriority, HighestSelectorPriority, Less;
  }

  class ResourceDetector {
    // in memory
    var waitingObjects: set<Key>
    var queue: set<QueueKey>
    var policyQueue: set<PolicyRef>
    // in the API server
    var templates: map<Key, Template>
    var nextVersion: nat
    var policies: map<PolicyRef, Policy>
    var bound: set<Mark>
    // the rest of the protocol's state
    ghost var owners: map<string, PolicyRef>
    ghost var workers: map<QueueKey, Phase>
    ghost var policyWorkers: map<PolicyRef, PolicyPhase>

    ghost function Now(): State
      reads this
    {
      State(templates, nextVersion, policies, owners, waitingObjects, queue, workers, policyQueue, policyWorkers, bound)
    }

    method IsWaiting(key: Key) returns (waiting: bool)
      ensures waiting == (key in waitingObjects)
    {
      return key in waitingObjects;
    }

    method AddWaiting(key: Key)
      modifies this`waitingObjects
      ensures waitingObjects == old(waitingObjects) + {key}
    {
      waitingObjects := waitingObjects + {key};
    }

    method RemoveWaiting(key: Key)
      modifies this`waitingObjects
      ensures waitingObjects == old(waitingObjects) - {key}
    {
      waitingObjects := waitingObjects - {key};
    }

    /** An update of a template and the event it causes. */
    method UpdateTemplate(key: Key, meta: Meta, byKarmada: bool)
      modifies this`templates, this`nextVersion, this`queue
      ensures Now() == Write(old(Now()), key, meta, byKarmada)
    {
      if key in templates && templates[key].meta == meta {
        return;
      }
      templates := templates[key := Template(meta, nextVersion)];
      nextVersion := nextVersion + 1;
      queue := queue + {QueueKey(key, byKarmada)};
    }

    /** `LookForMatchedPolicy` and its cluster twin. */
    method LookForMatchedPolicy(key: Key, labels: map<LabelKey, string>, namespaced: bool) returns (found: Option<Policy>)
      requires Good(Now())
      ensures Chosen(Now(), key, labels, namespaced, found)
    {
      var listed: seq<Policy> := [];
      if !namespaced || |key.namespace| != 0 {
        var refs := policies.Keys;
        while refs != {}
          invariant refs <= policies.Keys
          invariant forall p :: p in listed <==>
            && p.ref in policies && p.ref !in refs && policies[p.ref] == p && p.ref.PP? == namespaced && !p.deleting
            && (p.ref.PP? ==> p.ref.namespace == key.namespace)
        {
          var ref :| ref in refs;
          refs := refs - {ref};
          var policy := policies[ref];
          assert GoodPolicy(owners, ref, policy);
          hide Good;
          if ref.PP? == namespaced && (ref.PP? ==> ref.namespace == key.namespace) {
            if !policy.deleting {
              listed := listed + [policy];
            }
          }
        }
      }
      found := GetHighestPriorityPolicy(listed, key, labels);
      assert Lists(listed, Now(), key, namespaced);
      hide Good, Best, Chosen, Lists;
      SelectionIsChosen(Now(), key, labels, namespaced, listed, found);
    }

    /** `ClaimPolicyForObject` and its cluster twin, with the update if need be. */
    method ClaimTemplate(key: Key, workload: Object, policy: Policy, byKarmada: bool, updateFails: bool) returns (ok: bool)
      requires key in templates && templates[key].meta == workload.Value()
      modifies this`templates, this`nextVersion, this`queue, workload
      ensures workload.Value() == Claimed(old(workload.Value()), policy)
      ensures ok ==> Now() == Write(old(Now()), key, workload.Value(), byKarmada)
      ensures ok && updateFails ==> workload.Value() == old(workload.Value())
      ensures !ok ==> updateFails && Now() == old(Now())
    {
      var update: bool;
      if policy.ref.PP? {
        update := workload.ClaimPolicyForObject(policy);
      } else {
        update := workload.ClaimClusterPolicyForObject(policy);
      }
      if update {
        if updateFails {
          return false;
        }
        hide Claimed, AlreadyClaimed, Write;
        UpdateTemplate(key, workload.Value(), byKarmada);
      }
      return true;
    }

    /** `ApplyPolicy` and its cluster twin. */
    method ApplyPolicy(q: QueueKey, o: Template, policy: Policy, attempt: Attempt) returns (ok: bool)
      requires Good(Now()) && q in workers && q.key in templates && templates[q.key] == o
      requires policy.ref in policies && policies[policy.ref] == policy
      requires policy.ref.CPP? ==> HasNoPP(o.meta)
      modifies this`templates, this`nextVersion, this`queue, this`bound
      ensures Works(At(old(Now()), q, Applying(Some(o), policy)), Ended(Now(), q, ok), TemplateWorker(q, attempt.Calm()))
      ensures !attempt.updateFails && !attempt.bindingFails ==> ok && Took(old(Now()), Now(), q, policy)
    {
      ghost var start := Now();
      assert GoodMeta(owners, o.meta) && GoodPolicy(owners, policy.ref, policy);
      ClaimedIsGood(owners, o.meta, policy);
      hide Good, Enabled, Do, Works, Claimed, AlreadyClaimed, ClaimOf, AllOrNothing, Write, HasNoPP, GoodMeta, GoodPolicy;
      hide Marked, Took;
      var byKarmada := attempt.eventByKarmada && policy.isLazy;
      var workload := new Object(o.meta);
      var claimed := ClaimTemplate(q.key, workload, policy, byKarmada, attempt.updateFails);
      if !claimed {
        GivesUp(At(start, q, Applying(Some(o), policy)), q);
        EndForgetsPhase(start, q, Applying(Some(o), policy), false);
        return false;
      }
      WriteTakes(start, q, policy, byKarmada);
      if q.byKarmada && policy.isLazy {
        ApplyPath(start, q, o, policy, byKarmada, true, attempt.Calm());
        return true;
      }
      if attempt.bindingFails {
        ApplyPath(start, q, o, policy, byKarmada, false, attempt.Calm());
        return false;
      }
      bound := Marked(bound, q.key, policy);
      ApplyPath(start, q, o, policy, byKarmada, true, attempt.Calm());
      return true;
    }

    /** The claim of a policy that is gone is removed from the template and its binding. */
    method CleanupDangling(q: QueueKey, o: Template, ref: PolicyRef, id: string)
      requires ClaimOf(o.meta) == By(ref, id)
      modifies this`templates, this`nextVersion, this`queue, this`bound
      ensures Now() == Dangled(old(Now()), q, o)
      ensures q.key in old(templates) && old(templates)[q.key] == o ==> Forgot(old(Now()), Now(), q, ref, id)
    {
      var template := new Object(o.meta);
      if ref.PP? {
        template.CleanupPP();
      } else {
        template.CleanupCPP();
      }
      bound := bound - {Mark(q.key, IDLabel(ref), id)};
      hide Cleanup, ClaimOf, Write;
      UpdateTemplate(q.key, template.Value(), false);
    }

    /** `getAndApplyPolicy` and its cluster twin. */
    method GetAndApplyPolicy(q: QueueKey, o: Template, ref: PolicyRef, id: string, attempt: Attempt) returns (ok: bool)
      requires Good(Now()) && HasRead(Now(), q, o) && ClaimOf(o.meta) == By(ref, id)
      modifies this`templates, this`nextVersion, this`queue, this`bound
      ensures Works(At(old(Now()), q, Read(Some(o))), Ended(Now(), q, ok),
                    TemplateWorker(q, attempt.Calm() && !Hindered(policies, o.meta)))
      ensures attempt.Calm() ==> FollowedWell(old(Now()), Now(), q, o, ref, id, ok)
    {
      ghost var start, calm := Now(), attempt.Calm() && !Hindered(policies, o.meta);
      GivesUp(At(start, q, Read(Some(o))), q);
      EndForgetsPhase(start, q, Read(Some(o)), false);
      assert HasRead(start, q, o) && q.key in templates && templates[q.key] == o;
      hide Took, Forgot, Dangled, HasRead, Works;
      if attempt.policyReadFails {
        return false;
      }
      if ref !in policies {
        if attempt.bindingFails || attempt.updateFails {
          return false;
        }
        DanglingPath(start, q, o, calm);
        hide Good;
        CleanupDangling(q, o, ref, id);
        return true;
      }
      var policy := policies[ref];
      assert GoodPolicy(owners, ref, policy) && GoodMeta(owners, o.meta);
      if policy.deleting {
        return false;
      }
      FollowPath(start, q, o, policy, calm);
      hide Good, GoodMeta, GoodPolicy;
      if !Selects(policy, q.key, o.meta.labels) {
        return true;
      }
      if attempt.dependentsMissing {
        return false;
      }
      ghost var who, applying := TemplateWorker(q, calm), At(start, q, Applying(Some(o), policy));
      ok := ApplyPolicy(q, o, policy, attempt);
      WeakerWorks(applying, Ended(Now(), q, ok), TemplateWorker(q, attempt.Calm()), who);
      Then(At(start, q, Read(Some(o))), applying, Ended(Now(), q, ok), who);
    }

    /** The tail of `propagateResource`, once a policy is chosen. */
    method ApplyChosen(q: QueueKey, o: Template, policy: Policy, namespaced: bool, attempt: Attempt) returns (ok: bool)
      requires Good(Now()) && HasRead(Now(), q, o) && ClaimOf(o.meta).Unclaimed?
      requires Chosen(Now(), q.key, o.meta.labels, namespaced, Some(policy))
      modifies this`templates, this`nextVersion, this`queue, this`bound, this`waitingObjects
      ensures Works(At(old(Now()), q, if namespaced then Read(Some(o)) else NoPolicy(Some(o))), Ended(Now(), q, ok),
                    TemplateWorker(q, attempt.Calm()))
      ensures attempt.Calm() ==>
        ok && Took(old(Now()), Now(), q, policy) && waitingObjects == old(waitingObjects) - {q.key}
    {
      ghost var start, calm := Now(), attempt.Calm();
      ghost var from := At(start, q, if namespaced then Read(Some(o)) else NoPolicy(Some(o)));
      assert GoodMeta(owners, o.meta);
      assert HasNoPP(o.meta);
      if attempt.dependentsMissing {
        GivesUp(from, q);
        EndForgetsPhase(start, q, if namespaced then Read(Some(o)) else NoPolicy(Some(o)), false);
        return false;
      }
      FoundPath(start, q, o, policy, namespaced, calm);
      RemoveWaiting(q.key);
      ghost var removed := At(Now(), q, Applying(Some(o), policy));
      WaitingIsFree(start, waitingObjects);
      hide Good, Works, ClaimOf, TakenOver, AtLeastAsGood, Candidate, HasNoPP, GoodMeta;
      ok := ApplyPolicy(q, o, policy, attempt);
      WeakerWorks(removed, Ended(Now(), q, ok), TemplateWorker(q, attempt.Calm()), TemplateWorker(q, calm));
      Then(from, removed, Ended(Now(), q, ok), TemplateWorker(q, calm));
    }

    /** `propagateResource`. */
    method PropagateResource(q: QueueKey, o: Template, attempt: Attempt) returns (ok: bool)
      requires Good(Now()) && HasRead(Now(), q, o)
      modifies this`templates, this`nextVersion, this`queue, this`bound, this`waitingObjects
      ensures Works(At(old(Now()), q, Read(Some(o))), Ended(Now(), q, ok),
                    TemplateWorker(q, attempt.Calm() && !Hindered(policies, o.meta)))
      ensures attempt.Calm() ==> PropagatedWell(old(Now()), Now(), q, o, ok)
    {
      ghost var start, calm := Now(), attempt.Calm() && !Hindered(policies, o.meta);
      var claim := ClaimOf(o.meta);
      hide Good, Works, ClaimOf, TakenOver, AtLeastAsGood, Candidate, Chosen;
      if claim.By? {
        ok := GetAndApplyPolicy(q, o, claim.ref, claim.id, attempt);
        return;
      }
      if attempt.policyReadFails {
        GivesUp(At(start, q, Read(Some(o))), q);
        EndForgetsPhase(start, q, Read(Some(o)), false);
        return false;
      }
      var propagationPolicy := LookForMatchedPolicy(q.key, o.meta.labels, true);
      if propagationPolicy.Some? {
        SomeIsNotNone(start, q.key, o.meta.labels, true, propagationPolicy.value);
        ok := ApplyChosen(q, o, propagationPolicy.value, true, attempt);
        return;
      }
      NotFoundPath(start, q, o, true, calm);
      ghost var searched := At(start, q, NoPolicy(Some(o)));
      var clusterPolicy := LookForMatchedPolicy(q.key, o.meta.labels, false);
      if clusterPolicy.Some? {
        SomeIsNotNone(start, q.key, o.meta.labels, false, clusterPolicy.value);
        ok := ApplyChosen(q, o, clusterPolicy.value, false, attempt);
        Then(At(start, q, Read(Some(o))), searched, Ended(Now(), q, ok), TemplateWorker(q, calm));
        return;
      }
      NotFoundPath(start, q, o, false, calm);
      SettlePath(start, q, o, calm);
      var waiting := IsWaiting(q.key);
      if waiting {
        ok := true;
      } else {
        AddWaiting(q.key);
        ok := false;
      }
      Then(At(start, q, Read(Some(o))), searched, At(start, q, NoMatch(Some(o))), TemplateWorker(q, calm));
      Then(At(start, q, Read(Some(o))), At(start, q, NoMatch(Some(o))), Ended(Now(), q, ok), TemplateWorker(q, calm));
    }

    /** `Reconcile`. */
    method Reconcile(q: QueueKey, attempt: Attempt) returns (ok: bool)
      requires Good(Now()) && q in workers && workers[q].Started?
      modifies this`templates, this`nextVersion, this`queue, this`bound, this`waitingObjects
      ensures Works(old(Now()), Ended(Now(), q, ok), TemplateWorker(q, attempt.Calm() && !HinderedAt(old(Now()), q.key)))
      ensures attempt.Calm() ==> ReconciledWell(old(Now()), Now(), q, ok)
    {
      ghost var start, calm := Now(), attempt.Calm() && !HinderedAt(Now(), q.key);
      hide Good, Works, TakenOver;
      if attempt.readFails {
        GivesUp(start, q);
        return false;
      }
      ReadPath(start, q, calm);
      ghost var read := At(start, q, Read(Current(start, q.key)));
      if q.key !in templates {
        DropPath(start, q, calm);
        RemoveWaiting(q.key);
        Then(start, read, Ended(Now(), q, true), TemplateWorker(q, calm));
        return true;
      }
      var object_ := templates[q.key];
      if TakenOver(object_.meta) {
        DropPath(start, q, calm);
        RemoveWaiting(q.key);
        Then(start, read, Ended(Now(), q, true), TemplateWorker(q, calm));
        return true;
      }
      ok := PropagateResource(q, object_, attempt);
      Then(start, read, Ended(Now(), q, ok), TemplateWorker(q, calm));
    }

    /** One turn of the worker: it takes a key, reconciles it, and on an error queues it again. The whole turn is a run
        of the protocol by this worker alone. */
    method Worker(q: QueueKey, attempt: Attempt) returns (ok: bool)
      requires Good(Now()) && q in queue && q !in workers
      modifies this
      ensures var calm := attempt.Calm() && !HinderedAt(old(Now()), q.key);
        exists actions :: actions != [] && IsWork(old(Now()), actions, Now(), TemplateWorker(q, calm))
      ensures Good(Now()) && q !in workers && (ok || q in queue)
      ensures attempt.Calm() ==> ReconciledWell(old(Now()), Now(), q, ok)
    {
      ghost var start, calm := Now(), attempt.Calm() && !HinderedAt(Now(), q.key);
      queue := queue - {q};
      workers := workers[q := Started];
      ghost var taken := Now();
      OneStep(start, Dequeue(q), taken, TemplateWorker(q, calm));
      StepKeepsGood(start, Dequeue(q));
      hide Good, IsWork, Enabled, Do;
      SameStart(start, taken, q);
      ok := Reconcile(q, attempt);
      ghost var reconciled := Now();
      workers := workers - {q};
      if !ok {
        queue := queue + {q};
      }
      assert Now() == Ended(reconciled, q, ok);
      SameResult(start, taken, reconciled, Now(), q, ok);
      hide ReconciledWell, HinderedAt;
      FirstDequeues(start, taken, Now(), q, calm);
    }
  }

  lemma SameStart(s: State, taken: State, q: QueueKey)
    requires taken.templates == s.templates && taken.policies == s.policies
    ensures HinderedAt(taken, q.key) == HinderedAt(s, q.key)
  {
  }

  /** What is in the queues and in hand makes no difference to what a turn comes to. */
  lemma SameResult(s: State, taken: State, reconciled: State, t: State, q: QueueKey, ok: bool)
    requires taken == s.(queue := taken.queue, workers := taken.workers)
    requires t == reconciled.(queue := t.queue, workers := t.workers)
    ensures ReconciledWell(taken, reconciled, q, ok) <==> ReconciledWell(s, t, q, ok)
  {
    hide Claimed, Cleanup, Marked, ClaimOf, TakenOver;
    if q.key in s.templates {
      SameSearch(s, taken, reconciled, t, q, s.templates[q.key], ok);
    }
    hide SoughtWell, Selects;
  }

  lemma SameSearch(s: State, taken: State, reconciled: State, t: State, q: QueueKey, o: Template, ok: bool)
    requires taken == s.(queue := taken.queue, workers := taken.workers)
    requires t == reconciled.(queue := t.queue, workers := t.workers)
    ensures SoughtWell(taken, reconciled, q, o, ok) <==> SoughtWell(s, t, q, o, ok)
  {
    forall namespaced: bool, found: Option<Policy>
      ensures Chosen(taken, q.key, o.meta.labels, namespaced, found) <==> Chosen(s, q.key, o.meta.labels, namespaced, found)
    {
      if Chosen(taken, q.key, o.meta.labels, namespaced, found) {
        ChosenDependsOnPolicies(taken, s, q.key, o.meta.labels, namespaced, found);
      }
      if Chosen(s, q.key, o.meta.labels, namespaced, found) {
        ChosenDependsOnPolicies(s, taken, q.key, o.meta.labels, namespaced, found);
      }
    }
    forall p
      ensures FoundWell(taken, reconciled, q, p, ok) <==> FoundWell(s, t, q, p, ok)
    {
    }
    hide Chosen, FoundWell;
  }

  /** Steps that a calm worker takes, any worker may take. */
  lemma WeakerWorks(s: State, t: State, who: Actor, less: Actor)
    requires Works(s, t, who)
    requires who.TemplateWorker? && less.TemplateWorker? && less.q == who.q && (less.calm ==> who.calm)
    ensures Works(s, t, less)
  {
    var actions :| IsWork(s, actions, t, who);
    assert IsWork(s, actions, t, less);
  }

  /** A turn that begins by taking the key is not empty, and keeps what every run keeps. */
  lemma FirstDequeues(s: State, taken: State, t: State, q: QueueKey, calm: bool)
    requires Good(s) && Enabled(s, Dequeue(q)) && Do(s, Dequeue(q)) == taken && Works(taken, t, TemplateWorker(q, calm))
    ensures exists actions :: actions != [] && IsWork(s, actions, t, TemplateWorker(q, calm))
    ensures Good(t)
  {
    var rest :| IsWork(taken, rest, t, TemplateWorker(q, calm));
    var actions := [Dequeue(q)] + rest;
    assert actions[1..] == rest;
    hide Good, Enabled, Do;
    assert Runs(s, actions, t);
    assert IsWork(s, actions, t, TemplateWorker(q, calm));
    RunKeepsGood(s, actions, t);
  }
}
