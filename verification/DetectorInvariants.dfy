/** What every run of the claim protocol keeps. */
module DetectorInvariants {
  import opened Wrappers
  import opened Policies
  import opened Claims
  import opened Detector

  /** A whole claim or none, made by the policy that owns the ID. */
  predicate GoodMeta(owners: map<string, PolicyRef>, meta: Meta) {
    && AllOrNothing(meta)
    && (ClaimOf(meta).By? ==> ClaimOf(meta).id in owners && owners[ClaimOf(meta).id] == ClaimOf(meta).ref)
  }

  predicate GoodPolicy(owners: map<string, PolicyRef>, ref: PolicyRef, p: Policy) {
    p.ref == ref && Admitted(p) && p.id in owners && owners[p.id] == ref
  }

  /** What a worker has read was good, and is the stored template as long as the version is. */
  predicate GoodObject(s: State, key: Key, o: Template) {
    && GoodMeta(s.owners, o.meta) && o.version < s.nextVersion
    && (key in s.templates && s.templates[key].version == o.version ==> s.templates[key] == o)
  }

  predicate GoodPhase(s: State, key: Key, phase: Phase) {
    && (!phase.Started? && phase.object_.Some? ==> GoodObject(s, key, phase.object_.value))
    && (phase.NoPolicy? || phase.NoMatch? || phase.Applying? ==> phase.object_.Some?)
    && (phase.NoPolicy? || phase.NoMatch? ==>
         ClaimOf(phase.object_.value.meta).Unclaimed? && !TakenOver(phase.object_.value.meta))
    && (phase.Applying? ==>
         && GoodPolicy(s.owners, phase.policy.ref, phase.policy)
         && (ClaimOf(phase.object_.value.meta).By? ==> ClaimOf(phase.object_.value.meta).ref == phase.policy.ref))
  }

  ghost predicate GoodTemplates(s: State) {
    forall key <- s.templates :: GoodMeta(s.owners, s.templates[key].meta) && s.templates[key].version < s.nextVersion
  }

  ghost predicate GoodPolicies(s: State) {
    forall ref <- s.policies :: GoodPolicy(s.owners, ref, s.policies[ref])
  }

  ghost predicate GoodWorkers(s: State) {
    forall q <- s.workers :: GoodPhase(s, q.key, s.workers[q])
  }

  ghost predicate GoodPolicyWorkers(s: State) {
    forall ref <- s.policyWorkers :: GoodPolicy(s.owners, ref, s.policyWorkers[ref].policy)
  }

  ghost predicate Good(s: State) {
    GoodTemplates(s) && GoodPolicies(s) && GoodWorkers(s) && GoodPolicyWorkers(s)
  }

  lemma ClaimedIsGood(owners: map<string, PolicyRef>, meta: Meta, p: Policy)
    requires GoodMeta(owners, meta) && GoodPolicy(owners, p.ref, p)
    requires p.ref.CPP? ==> HasNoPP(meta)
    ensures GoodMeta(owners, Claimed(meta, p)) && ClaimOf(Claimed(meta, p)) == By(p.ref, p.id)
  {
    ClaimedIsWhole(meta, p);
  }

  lemma PreemptedIsGood(s: State, meta: Meta, p: Policy)
    requires GoodMeta(s.owners, meta) && GoodPolicy(s.owners, p.ref, p)
    ensures GoodMeta(s.owners, Preempted(s.policies, meta, p))
    ensures var after := Preempted(s.policies, meta, p);
      after == meta || (ClaimOf(after) == By(p.ref, p.id) && ClaimOf(meta).By?)
  {
    if p.ref.PP? {
      ClaimedIsGood(s.owners, meta, p);
      ClaimedIsGood(s.owners, Claimed(meta, p), p);
    } else if HasWholeCPP(meta) {
      ClaimedIsGood(s.owners, meta, p);
    }
  }

  lemma CleanupIsGood(owners: map<string, PolicyRef>, meta: Meta, ref: PolicyRef)
    requires GoodMeta(owners, meta)
    ensures GoodMeta(owners, Cleanup(meta, ref))
    ensures ClaimOf(Cleanup(meta, ref)) == Unclaimed || Cleanup(meta, ref) == meta
  {
    CleanupIsWhole(meta, ref);
  }

  lemma WriteKeepsGood(s: State, key: Key, meta: Meta, byKarmada: bool)
    requires Good(s) && GoodMeta(s.owners, meta)
    ensures Good(Write(s, key, meta, byKarmada))
  {
    var t := Write(s, key, meta, byKarmada);
    forall q | q in t.workers
      ensures GoodPhase(t, q.key, t.workers[q])
    {
      assert GoodPhase(s, q.key, s.workers[q]);
      PhaseAfterWrite(s, key, meta, byKarmada, q.key, s.workers[q]);
    }
    hide GoodMeta, GoodPolicy, GoodPhase;
  }

  lemma PhaseAfterWrite(s: State, key: Key, meta: Meta, byKarmada: bool, other: Key, phase: Phase)
    requires GoodPhase(s, other, phase)
    ensures GoodPhase(Write(s, key, meta, byKarmada), other, phase)
  {
    hide GoodMeta, GoodPolicy;
  }

  /** A worker's step that changes nothing but its own phase and the queues. */
  lemma WorkerKeepsGood(s: State, t: State, q: QueueKey)
    requires Good(s)
    requires t.templates == s.templates && t.nextVersion == s.nextVersion && t.owners == s.owners
    requires t.policies == s.policies && t.policyWorkers == s.policyWorkers
    requires t.workers == s.workers - {q} ||
      (q in t.workers && t.workers == s.workers[q := t.workers[q]] && GoodPhase(s, q.key, t.workers[q]))
    ensures Good(t)
  {
    forall r | r in t.workers
      ensures GoodPhase(t, r.key, t.workers[r])
    {
      assert r != q ==> GoodPhase(s, r.key, s.workers[r]);
    }
  }

  lemma SameClaimIsGood(owners: map<string, PolicyRef>, before: Meta, after: Meta)
    requires GoodMeta(owners, before) && SameClaim(before, after)
    ensures GoodMeta(owners, after) && ClaimOf(after) == ClaimOf(before)
  {
  }

  lemma TemplateStepKeepsGood(s: State, a: Action)
    requires Good(s) && Enabled(s, a)
    requires a.CreateTemplate? || a.EditTemplate? || a.DeleteTemplate? || a.TakeOver?
    ensures Good(Do(s, a))
  {
    match a
    case CreateTemplate(key, meta) => WriteKeepsGood(s, key, meta, false);
    case TakeOver(key, meta) => WriteKeepsGood(s, key, meta, false);
    case EditTemplate(key, meta, byKarmada) =>
      SameClaimIsGood(s.owners, s.templates[key].meta, meta);
      WriteKeepsGood(s, key, meta, byKarmada);
    case DeleteTemplate(key) =>
      forall q | q in s.workers
        ensures GoodPhase(Do(s, a), q.key, s.workers[q])
      {
        assert GoodPhase(s, q.key, s.workers[q]);
      }
  }

  lemma PolicyEventKeepsGood(s: State, a: Action)
    requires Good(s) && Enabled(s, a)
    requires a.PutPolicy? || a.MarkDeleting?
    ensures Good(Do(s, a))
  {
    var t := Do(s, a);
    if a.PutPolicy? {
      var p := a.policy;
      assert p.ref in s.policies ==> GoodPolicy(s.owners, p.ref, s.policies[p.ref]);
      assert forall id <- s.owners :: id in t.owners && t.owners[id] == s.owners[id];
    }
    assert forall id <- s.owners :: id in t.owners && t.owners[id] == s.owners[id];
    forall q | q in s.workers
      ensures GoodPhase(t, q.key, s.workers[q])
    {
      assert GoodPhase(s, q.key, s.workers[q]);
    }
    forall ref | ref in t.policies
      ensures GoodPolicy(t.owners, ref, t.policies[ref])
    {
      assert ref in s.policies ==> GoodPolicy(s.owners, ref, s.policies[ref]);
    }
    forall ref | ref in t.policyWorkers
      ensures GoodPolicy(t.owners, ref, t.policyWorkers[ref].policy)
    {
      assert GoodPolicy(s.owners, ref, s.policyWorkers[ref].policy);
    }
  }

  lemma WorkerStartKeepsGood(s: State, a: Action)
    requires Good(s) && Enabled(s, a) && (a.Dequeue? || a.ReadObject?)
    ensures Good(Do(s, a))
  {
    assert GoodPhase(s, a.q.key, Do(s, a).workers[a.q]);
    hide Good, GoodPhase;
    WorkerKeepsGood(s, Do(s, a), a.q);
  }

  lemma WorkerEndKeepsGood(s: State, a: Action)
    requires Good(s) && Enabled(s, a) && (a.Fail? || a.Drop? || a.Settle?)
    ensures Good(Do(s, a))
  {
    hide Good, GoodPhase;
    WorkerKeepsGood(s, Do(s, a), a.q);
  }

  lemma WorkerSearchKeepsGood(s: State, a: Action)
    requires Good(s) && Enabled(s, a)
    requires a.LookForPolicy? || a.LookForClusterPolicy?
    ensures Good(Do(s, a))
  {
    var q, t := a.q, Do(s, a);
    assert GoodPhase(s, q.key, s.workers[q]);
    if a.found.Some? {
      assert GoodPolicy(s.owners, a.found.value.ref, s.policies[a.found.value.ref]);
    }
    assert GoodPhase(s, q.key, t.workers[q]);
    WorkerKeepsGood(s, t, q);
  }

  lemma FollowClaimKeepsGood(s: State, a: Action)
    requires Good(s) && Enabled(s, a) && a.FollowClaim?
    ensures Good(Do(s, a))
  {
    var q, t := a.q, Do(s, a);
    assert GoodPhase(s, q.key, s.workers[q]);
    var p := s.policies[ClaimOf(ObjectMeta(s, q)).ref];
    assert GoodPolicy(s.owners, p.ref, p);
    if Selects(p, q.key, ObjectMeta(s, q).labels) {
      assert GoodPhase(s, q.key, t.workers[q]);
    }
    WorkerKeepsGood(s, t, q);
  }

  lemma ApplyKeepsGood(s: State, a: Action)
    requires Good(s) && Enabled(s, a) && a.Apply?
    ensures Good(Do(s, a))
  {
    var q := a.q;
    assert GoodPhase(s, q.key, s.workers[q]);
    var p, meta := s.workers[q].policy, ObjectMeta(s, q);
    ClaimedIsGood(s.owners, meta, p);
    WriteKeepsGood(s, q.key, Claimed(meta, p), a.byKarmada);
    var claimed := if AlreadyClaimed(meta, p) then s else Write(s, q.key, Claimed(meta, p), a.byKarmada);
    assert Do(s, a) == DoApply(s, q, a.byKarmada, a.bindingWritten);
    hide Good, GoodPhase, GoodObject, Claimed, AlreadyClaimed, Write, Do, Enabled;
    AppliedKeepsGood(claimed, q, Marked(s.bound, q.key, p));
  }

  lemma AppliedKeepsGood(s: State, q: QueueKey, bound: set<Mark>)
    requires Good(s)
    ensures Good(Finish(s, q)) && Good(Finish(s.(bound := bound), q)) && Good(Requeue(s, q))
  {
    hide Good, GoodPhase;
    WorkerKeepsGood(s, Finish(s, q), q);
    WorkerKeepsGood(s, Finish(s.(bound := bound), q), q);
    WorkerKeepsGood(s, Requeue(s, q), q);
  }

  lemma ReleaseDanglingKeepsGood(s: State, a: Action)
    requires Good(s) && Enabled(s, a) && a.ReleaseDangling?
    ensures Good(Do(s, a))
  {
    var q := a.q;
    assert GoodPhase(s, q.key, s.workers[q]);
    var claim, done := ClaimOf(ObjectMeta(s, q)), Finish(s, q);
    var forgotten := Mark(q.key, IDLabel(claim.ref), claim.id);
    WorkerKeepsGood(s, done, q);
    WorkerKeepsGood(s, done.(bound := s.bound - {forgotten}), q);
    CleanupIsGood(s.owners, s.templates[q.key].meta, claim.ref);
    WriteKeepsGood(
      done.(bound := s.bound - {forgotten}), q.key, Cleanup(s.templates[q.key].meta, claim.ref), a.byKarmada);
  }

  /** A policy worker's step that writes no template. */
  lemma PolicyWorkerKeepsGood(s: State, t: State, ref: PolicyRef)
    requires Good(s)
    requires t.templates == s.templates && t.nextVersion == s.nextVersion && t.owners == s.owners
    requires t.policies == s.policies || t.policies == s.policies - {ref}
    requires t.workers == s.workers
    requires t.policyWorkers == s.policyWorkers || t.policyWorkers == s.policyWorkers - {ref} ||
      (ref in t.policyWorkers && t.policyWorkers == s.policyWorkers[ref := t.policyWorkers[ref]]
       && GoodPolicy(s.owners, ref, t.policyWorkers[ref].policy))
    ensures Good(t)
  {
    forall q | q in t.workers
      ensures GoodPhase(t, q.key, t.workers[q])
    {
      assert GoodPhase(s, q.key, s.workers[q]);
    }
  }

  /** What the steps of a policy worker that write no template can do to the state. */
  lemma PolicyStepIsLocal(s: State, a: Action)
    requires Enabled(s, a)
    requires a.FailPolicy? || a.Refresh? || a.DonePolicy? || a.RemovePolicy?
    ensures var t := Do(s, a);
      && t.templates == s.templates && t.nextVersion == s.nextVersion && t.owners == s.owners && t.workers == s.workers
      && (t.policies == s.policies || t.policies == s.policies - {a.ref})
      && (t.policyWorkers == s.policyWorkers || t.policyWorkers == s.policyWorkers - {a.ref})
  {
    hide Selects;
  }

  lemma PolicyMoveIsLocal(s: State, a: Action)
    requires Enabled(s, a) && (a.DequeuePolicy? || a.Match? || a.Release?)
    ensures var t := Do(s, a);
      && t.templates == s.templates && t.nextVersion == s.nextVersion && t.owners == s.owners && t.workers == s.workers
      && t.policies == s.policies
      && (t.policyWorkers == s.policyWorkers ||
           (a.ref in t.policyWorkers && t.policyWorkers == s.policyWorkers[a.ref := t.policyWorkers[a.ref]]
            && (if a.DequeuePolicy? then a.ref in s.policies && t.policyWorkers[a.ref].policy == s.policies[a.ref]
                else a.ref in s.policyWorkers && t.policyWorkers[a.ref].policy == s.policyWorkers[a.ref].policy)))
  {
    hide Selects;
    match a
    case DequeuePolicy(ref) =>
    case Match(ref, _) =>
    case Release(ref, key) => assert Do(s, a) == DoRelease(s, ref, key);
  }

  lemma PolicyMoveKeepsGood(s: State, a: Action)
    requires Good(s) && Enabled(s, a) && (a.DequeuePolicy? || a.Match? || a.Release?)
    ensures Good(Do(s, a))
  {
    PolicyMoveIsLocal(s, a);
    if a.ref in s.policies {
      assert GoodPolicy(s.owners, a.ref, s.policies[a.ref]);
    }
    if a.ref in s.policyWorkers {
      assert GoodPolicy(s.owners, a.ref, s.policyWorkers[a.ref].policy);
    }
    hide *;
    PolicyWorkerKeepsGood(s, Do(s, a), a.ref);
  }

  lemma PolicyStepKeepsGood(s: State, a: Action)
    requires Good(s) && Enabled(s, a)
    requires a.FailPolicy? || a.Refresh? || a.DonePolicy? || a.RemovePolicy?
    ensures Good(Do(s, a))
  {
    PolicyStepIsLocal(s, a);
    hide *;
    PolicyWorkerKeepsGood(s, Do(s, a), a.ref);
  }

  lemma PolicyWriteKeepsGood(s: State, a: Action)
    requires Good(s) && Enabled(s, a)
    requires a.RemoveUnmatched? || a.Preempt? || a.CleanupClaim?
    ensures Good(Do(s, a))
  {
    var key, p := a.key, s.policyWorkers[a.ref].policy;
    assert GoodPolicy(s.owners, a.ref, p);
    var meta := s.templates[key].meta;
    if a.Preempt? {
      PreemptedIsGood(s, meta, p);
      WriteKeepsGood(s, key, Preempted(s.policies, meta, p), a.byKarmada);
    } else {
      var forgotten := if a.RemoveUnmatched? && !a.bindingWritten then {} else {MarkOf(key, p)};
      var unbound := s.(bound := s.bound - forgotten);
      assert Good(unbound) by {
        forall q | q in s.workers
          ensures GoodPhase(unbound, q.key, s.workers[q])
        {
          assert GoodPhase(s, q.key, s.workers[q]);
        }
      }
      CleanupIsGood(s.owners, meta, a.ref);
      WriteKeepsGood(unbound, key, Cleanup(meta, a.ref), a.byKarmada);
    }
  }

  lemma StepKeepsGood(s: State, a: Action)
    requires Good(s) && Enabled(s, a)
    ensures Good(Do(s, a))
  {
    hide *;
    match a
    case CreateTemplate(_, _) => TemplateStepKeepsGood(s, a);
    case EditTemplate(_, _, _) => TemplateStepKeepsGood(s, a);
    case DeleteTemplate(_) => TemplateStepKeepsGood(s, a);
    case TakeOver(_, _) => TemplateStepKeepsGood(s, a);
    case PutPolicy(_) => PolicyEventKeepsGood(s, a);
    case MarkDeleting(_) => PolicyEventKeepsGood(s, a);
    case Apply(_, _, _) => ApplyKeepsGood(s, a);
    case ReleaseDangling(_, _) => ReleaseDanglingKeepsGood(s, a);
    case RemoveUnmatched(_, _, _, _) => PolicyWriteKeepsGood(s, a);
    case Preempt(_, _, _) => PolicyWriteKeepsGood(s, a);
    case CleanupClaim(_, _, _) => PolicyWriteKeepsGood(s, a);
    case DequeuePolicy(_) => PolicyMoveKeepsGood(s, a);
    case Match(_, _) => PolicyMoveKeepsGood(s, a);
    case Release(_, _) => PolicyMoveKeepsGood(s, a);
    case Dequeue(_) => WorkerStartKeepsGood(s, a);
    case ReadObject(_) => WorkerStartKeepsGood(s, a);
    case Fail(_) => WorkerEndKeepsGood(s, a);
    case Drop(_) => WorkerEndKeepsGood(s, a);
    case Settle(_) => WorkerEndKeepsGood(s, a);
    case FollowClaim(_) => FollowClaimKeepsGood(s, a);
    case LookForPolicy(_, _) => WorkerSearchKeepsGood(s, a);
    case LookForClusterPolicy(_, _) => WorkerSearchKeepsGood(s, a);
    case _ => PolicyStepKeepsGood(s, a);
  }

  lemma {:induction false} RunKeepsGood(s: State, actions: seq<Action>, t: State)
    requires Good(s) && Runs(s, actions, t)
    ensures Good(t)
    decreases |actions|
  {
    if actions != [] {
      StepKeepsGood(s, actions[0]);
      RunKeepsGood(Do(s, actions[0]), actions[1..], t);
    }
  }

  /** In every reachable state every claim is complete or absent, a propagation policy's claim and a cluster
      policy's claim are never both present, and the ID was given to the policy that the annotations name. */
  lemma ClaimsAreAllOrNothing(actions: seq<Action>, t: State, key: Key)
    requires Runs(INIT, actions, t) && key in t.templates
    ensures AllOrNothing(t.templates[key].meta)
    ensures
      var labels, annotations := t.templates[key].meta.labels, t.templates[key].meta.annotations;
      && (PropagationPolicyPermanentIDLabel in labels <==> PropagationPolicyNamespaceAnnotation in annotations)
      && (PropagationPolicyPermanentIDLabel in labels <==> PropagationPolicyNameAnnotation in annotations)
      && (ClusterPropagationPolicyPermanentIDLabel in labels <==> ClusterPropagationPolicyAnnotation in annotations)
      && !(PropagationPolicyPermanentIDLabel in labels && ClusterPropagationPolicyPermanentIDLabel in labels)
    ensures var claim := ClaimOf(t.templates[key].meta);
      claim.By? ==> claim.id in t.owners && t.owners[claim.id] == claim.ref
  {
    RunKeepsGood(INIT, actions, t);
  }

  /** Handling a deleted policy takes the claim from a template only if the template is still claimed by this very
      policy: a claim with another ID survives, even one made by a new policy of the same name. */
  lemma DeletionRespectsOtherClaims(s: State, ref: PolicyRef, key: Key, byKarmada: bool, other: Key)
    requires Good(s) && Enabled(s, CleanupClaim(ref, key, byKarmada)) && other in s.templates
    ensures var t, p := Do(s, CleanupClaim(ref, key, byKarmada)), s.policyWorkers[ref].policy;
      && other in t.templates
      && (t.templates[other].meta != s.templates[other].meta ==>
           && ClaimOf(s.templates[other].meta) == By(ref, p.id)
           && ClaimOf(t.templates[other].meta) == Unclaimed)
  {
    var meta, p := s.templates[key].meta, s.policyWorkers[ref].policy;
    assert GoodPolicy(s.owners, ref, p) && GoodMeta(s.owners, meta);
    CleanupIsWhole(meta, ref);
  }

  /** The policies that `LookForMatchedPolicy` and its cluster twin choose from. */
  ghost predicate Lists(listed: seq<Policy>, s: State, key: Key, namespaced: bool) {
    forall p :: p in listed <==>
      && p.ref in s.policies && s.policies[p.ref] == p && p.ref.PP? == namespaced && !p.deleting
      && (p.ref.PP? ==> key.namespace != "" && p.ref.namespace == key.namespace)
  }

  /** What the protocol takes as chosen is what `GetHighestPriorityPolicy` selects, in whatever order the policies are
      listed. */
  lemma SelectionIsChosen(
      s: State, key: Key, labels: map<LabelKey, string>, namespaced: bool, listed: seq<Policy>, found: Option<Policy>)
    requires Good(s) && Lists(listed, s, key, namespaced)
    ensures Best(listed, key, labels, found) <==> Chosen(s, key, labels, namespaced, found)
  {
    forall ref | ref in s.policies
      ensures s.policies[ref].ref == ref
      ensures ref.PP? == namespaced && Candidate(s, ref, key, labels) <==>
        s.policies[ref] in listed && Selects(s.policies[ref], key, labels)
    {
      assert GoodPolicy(s.owners, ref, s.policies[ref]);
    }
    hide Selects, AtLeastAsGood, Good;
  }

  /** What a write does: nothing if the metadata are the same, else they are stored under a new version, and the template
      is queued. */
  lemma WriteMeans(s: State, key: Key, meta: Meta, byKarmada: bool)
    ensures
      var t := Write(s, key, meta, byKarmada);
      if key in s.templates && s.templates[key].meta == meta then t == s
      else
        && t.templates == s.templates[key := Template(meta, s.nextVersion)] && t.nextVersion > s.nextVersion
        && t.queue == s.queue + {QueueKey(key, byKarmada)}
        && t == s.(templates := t.templates, nextVersion := t.nextVersion, queue := t.queue)
  {
  }

  /** What users and the take-over of a service may do to a template at any time, and what that does. */
  lemma UserStepMeans(s: State, key: Key, meta: Meta, byKarmada: bool)
    ensures Enabled(s, CreateTemplate(key, meta)) <==>
      && key !in s.templates
      && PropagationPolicyPermanentIDLabel !in meta.labels && ClusterPropagationPolicyPermanentIDLabel !in meta.labels
      && PropagationPolicyNamespaceAnnotation !in meta.annotations
      && PropagationPolicyNameAnnotation !in meta.annotations && ClusterPropagationPolicyAnnotation !in meta.annotations
    ensures Enabled(s, TakeOver(key, meta)) <==>
      && key in s.templates
      && PropagationPolicyPermanentIDLabel !in meta.labels && ClusterPropagationPolicyPermanentIDLabel !in meta.labels
      && PropagationPolicyNamespaceAnnotation !in meta.annotations
      && PropagationPolicyNameAnnotation !in meta.annotations && ClusterPropagationPolicyAnnotation !in meta.annotations
      && ResourceTemplateClaimedByLabel in meta.labels && meta.labels[ResourceTemplateClaimedByLabel] != ""
    ensures Enabled(s, DeleteTemplate(key)) <==> key in s.templates
    ensures key in s.templates && SameClaim(s.templates[key].meta, meta) ==> Enabled(s, EditTemplate(key, meta, false))
    ensures Do(s, CreateTemplate(key, meta)) == Do(s, TakeOver(key, meta)) == Write(s, key, meta, false)
    ensures Do(s, EditTemplate(key, meta, byKarmada)) == Write(s, key, meta, byKarmada)
    ensures var t := Do(s, DeleteTemplate(key));
      && t.templates == s.templates - {key} && t.queue == s.queue + {QueueKey(key, false)}
      && t == s.(templates := t.templates, queue := t.queue)
  {
    hide ClaimOf, Write;
  }

  /** What may be done to policies, and what that does: a new or changed policy replaces the one of its name and is
      queued; one that is to be deleted is marked and queued. */
  lemma PolicyEventMeans(s: State, p: Policy)
    ensures Admitted(p) && !p.deleting && p.ref !in s.policies && p.id !in s.owners ==> Enabled(s, PutPolicy(p))
    ensures Admitted(p) && !p.deleting && p.ref in s.policies && !s.policies[p.ref].deleting ==>
      s.policies[p.ref].id == p.id ==> Enabled(s, PutPolicy(p))
    ensures p.ref in s.policies ==> Enabled(s, MarkDeleting(p.ref))
    ensures var t := Do(s, PutPolicy(p));
      && t.policies == s.policies[p.ref := p] && t.policyQueue == s.policyQueue + {p.ref}
      && t == s.(policies := t.policies, policyQueue := t.policyQueue, owners := s.owners[p.id := p.ref])
    ensures p.ref in s.policies ==>
      var t := Do(s, MarkDeleting(p.ref));
      && t.policies == s.policies[p.ref := s.policies[p.ref].(deleting := true)]
      && t.policyQueue == s.policyQueue + {p.ref}
      && t == s.(policies := t.policies, policyQueue := t.policyQueue)
  {
  }

  /** What the handling of a deleted policy does to a template that carries the policy's ID: it takes the claim from it,
      and the ID from its binding. */
  lemma CleanupClaimMeans(s: State, ref: PolicyRef, key: Key)
    requires ref in s.policyWorkers && s.policyWorkers[ref].Fetched? && s.policyWorkers[ref].policy.deleting
    requires s.policyWorkers[ref].policy.ref == ref
    ensures
      var p, idLabel := s.policyWorkers[ref].policy,
        if ref.PP? then PropagationPolicyPermanentIDLabel else ClusterPropagationPolicyPermanentIDLabel;
      key in s.templates && idLabel in s.templates[key].meta.labels && s.templates[key].meta.labels[idLabel] == p.id ==>
        var t := Do(s, CleanupClaim(ref, key, false));
        && Enabled(s, CleanupClaim(ref, key, false))
        && t.templates.Keys == s.templates.Keys && t.templates[key].meta == Cleanup(s.templates[key].meta, ref)
        && (forall k <- s.templates :: k != key ==> t.templates[k] == s.templates[k])
        && t.bound == s.bound - {Mark(key, idLabel, p.id)} && t.policies == s.policies && t.waiting == s.waiting
  {
    hide Cleanup, ClaimOf;
  }

  /** And then the policy is gone. */
  lemma RemovePolicyMeans(s: State, ref: PolicyRef)
    requires ref in s.policyWorkers && s.policyWorkers[ref].Fetched? && s.policyWorkers[ref].policy.deleting
    requires ref in s.policies && s.policies[ref] == s.policyWorkers[ref].policy
    ensures Enabled(s, RemovePolicy(ref))
    ensures Do(s, RemovePolicy(ref)) ==
      s.(policies := s.policies - {ref}, policyWorkers := s.policyWorkers - {ref})
  {
  }
}
