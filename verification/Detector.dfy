/** The claim protocol as a state machine: template workers, policy workers and users take turns, one step at a
    time (pkg/detector/detector.go, policy.go, preemption.go; pkg/util/worker.go). */
module Detector {
  import opened Wrappers
  import opened Policies
  import opened Claims

  /** A stored template; every write gives it a new resource version. */
  datatype Template = Template(meta: Meta, version: nat)

  /** A key of the work queue. The flag says that the change came from Karmada itself. */
  datatype QueueKey = QueueKey(key: Key, byKarmada: bool)

  /** How far a worker has got with one queue key. */
  datatype Phase =
    | Started
    | Read(object_: Option<Template>)        // the object is read
    | NoPolicy(object_: Option<Template>)    // no propagation policy was found
    | NoMatch(object_: Option<Template>)     // no cluster policy was found either
    | Applying(object_: Option<Template>, policy: Policy)

  /** How far a policy worker has got. */
  datatype PolicyPhase =
    | Fetched(policy: Policy)
    | Releasing(policy: Policy, keys: set<Key>)  // waiting keys that matched, still to be released

  /** A permanent ID label on the binding of a template. */
  datatype Mark = Mark(key: Key, labelKey: LabelKey, id: string)

  function MarkOf(key: Key, policy: Policy): Mark {
    Mark(key, IDLabel(policy.ref), policy.id)
  }

  /** The labels once the policy is applied: its ID replaces the one of its kind, and a propagation policy removes
      that of a cluster policy. */
  function Marked(bound: set<Mark>, key: Key, policy: Policy): set<Mark> {
    (set m <- bound | m.key != key || (policy.ref.CPP? && m.labelKey == PropagationPolicyPermanentIDLabel))
    + {MarkOf(key, policy)}
  }

  datatype State = State(
    templates: map<Key, Template>,
    nextVersion: nat,
    policies: map<PolicyRef, Policy>,
    owners: map<string, PolicyRef>,       // the policy each permanent ID was given to
    waiting: set<Key>,
    queue: set<QueueKey>,
    workers: map<QueueKey, Phase>,
    policyQueue: set<PolicyRef>,
    policyWorkers: map<PolicyRef, PolicyPhase>,
    bound: set<Mark>)                     // the IDs that bindings carry

  const INIT := State(map[], 0, map[], map[], {}, {}, map[], {}, map[], {})

  function Current(s: State, key: Key): Option<Template> {
    if key in s.templates then Some(s.templates[key]) else None
  }

  function Enqueue(s: State, key: Key, byKarmada: bool): State {
    s.(queue := s.queue + {QueueKey(key, byKarmada)})
  }

  /** A write of changed metadata is stored under a new version, and its event enqueues the template. */
  function Write(s: State, key: Key, meta: Meta, byKarmada: bool): State {
    if key in s.templates && s.templates[key].meta == meta then s
    else Enqueue(s.(templates := s.templates[key := Template(meta, s.nextVersion)], nextVersion := s.nextVersion + 1),
                 key, byKarmada)
  }

  /** The worker forgets its key. */
  function Finish(s: State, q: QueueKey): State {
    s.(workers := s.workers - {q})
  }

  /** The worker returns an error, and its key is added again. */
  function Requeue(s: State, q: QueueKey): State {
    s.(workers := s.workers - {q}, queue := s.queue + {q})
  }

  function At(s: State, q: QueueKey, phase: Phase): State {
    s.(workers := s.workers[q := phase])
  }

  predicate TakenOver(meta: Meta) {
    meta.Label(ResourceTemplateClaimedByLabel) != ""
  }

  /** A live policy that can claim the template: in its namespace, or a cluster policy. */
  predicate Candidate(s: State, ref: PolicyRef, key: Key, labels: map<LabelKey, string>) {
    && ref in s.policies && !s.policies[ref].deleting
    && (ref.PP? ==> key.namespace != "" && ref.namespace == key.namespace)
    && Selects(s.policies[ref], key, labels)
  }

  /** What `LookForMatchedPolicy` (or its cluster twin) returns: see `Policies.Best`. */
  ghost predicate Chosen(s: State, key: Key, labels: map<LabelKey, string>, namespaced: bool, found: Option<Policy>) {
    match found
    case None => forall ref <- s.policies :: ref.PP? == namespaced ==> !Candidate(s, ref, key, labels)
    case Some(p) =>
      && p.ref in s.policies && s.policies[p.ref] == p && p.ref.PP? == namespaced && Candidate(s, p.ref, key, labels)
      && forall ref <- s.policies :: ref.PP? == namespaced && Candidate(s, ref, key, labels) ==>
        AtLeastAsGood(p, s.policies[ref], key, labels)
  }

  /** The flag of an event or a policy change can only be set on behalf of a lazy policy. */
  predicate FlagAllowed(s: State, meta: Meta, byKarmada: bool) {
    byKarmada ==>
      ClaimOf(meta).By? && ClaimOf(meta).ref in s.policies && s.policies[ClaimOf(meta).ref].isLazy
  }

  /** A selector that names the template outright: what preemption fetches. */
  predicate Names(policy: Policy, key: Key) {
    exists rs <- policy.selectors ::
      && rs.name != "" && rs.name == key.name && rs.apiVersion == key.apiVersion
      && rs.kind == key.kind && rs.namespace == key.namespace
  }

  /** The metadata after a preemption attempt: by priority against a policy of the same kind, and then, if that
      was no error, directly against a cluster policy. */
  function Preempted(policies: map<PolicyRef, Policy>, meta: Meta, policy: Policy): Meta {
    var byPriority := PreemptedByPriority(policies, meta, policy);
    if byPriority.None? then meta
    else if policy.ref.PP? then DirectlyPreempted(byPriority.value, policy)
    else byPriority.value
  }

  /** The policy of the same kind that the annotations name, if they do. */
  function ClaimedOfKind(meta: Meta, ref: PolicyRef): Option<PolicyRef> {
    if ref.PP? then
      var namespace := meta.Annotation(PropagationPolicyNamespaceAnnotation);
      var name := meta.Annotation(PropagationPolicyNameAnnotation);
      if namespace == "" || name == "" then None else Some(PP(namespace, name))
    else
      var name := meta.Annotation(ClusterPropagationPolicyAnnotation);
      if name == "" then None else Some(CPP(name))
  }

  /** None if the claiming policy cannot be found. */
  function PreemptedByPriority(policies: map<PolicyRef, Policy>, meta: Meta, policy: Policy): Option<Meta> {
    var claimed := ClaimedOfKind(meta, policy.ref);
    if claimed.None? || claimed.value == policy.ref then Some(meta)
    else if claimed.value !in policies then None
    else if policy.ExplicitPriority() <= policies[claimed.value].ExplicitPriority() then Some(meta)
    else Some(Claimed(meta, policy))
  }

  function DirectlyPreempted(meta: Meta, policy: Policy): Meta {
    if meta.Annotation(ClusterPropagationPolicyAnnotation) == "" then meta else Claimed(meta, policy)
  }

  datatype Action =
    // users and their clients, and the controller that takes over services
    | CreateTemplate(key: Key, meta: Meta)
    | EditTemplate(key: Key, meta: Meta, byKarmada: bool)
    | DeleteTemplate(key: Key)
    | TakeOver(key: Key, meta: Meta)
    | PutPolicy(policy: Policy)
    | MarkDeleting(ref: PolicyRef)
    // template workers
    | Dequeue(q: QueueKey)
    | ReadObject(q: QueueKey)
    | Fail(q: QueueKey)
    | Drop(q: QueueKey)
    | ReleaseDangling(q: QueueKey, byKarmada: bool)
    | FollowClaim(q: QueueKey)
    | LookForPolicy(q: QueueKey, found: Option<Policy>)
    | LookForClusterPolicy(q: QueueKey, found: Option<Policy>)
    | Settle(q: QueueKey)
    | Apply(q: QueueKey, byKarmada: bool, bindingWritten: bool)
    // policy workers
    | DequeuePolicy(ref: PolicyRef)
    | FailPolicy(ref: PolicyRef)
    | RemoveUnmatched(ref: PolicyRef, key: Key, byKarmada: bool, bindingWritten: bool)
    | Refresh(ref: PolicyRef, key: Key)
    | Match(ref: PolicyRef, unreadable: set<Key>)
    | Release(ref: PolicyRef, key: Key)
    | Preempt(ref: PolicyRef, key: Key, byKarmada: bool)
    | DonePolicy(ref: PolicyRef)
    | CleanupClaim(ref: PolicyRef, key: Key, byKarmada: bool)
    | RemovePolicy(ref: PolicyRef)

  /** Users do not touch the claim. */
  predicate SameClaim(before: Meta, after: Meta) {
    && SameKey(before.labels, after.labels, PropagationPolicyPermanentIDLabel)
    && SameKey(before.labels, after.labels, ClusterPropagationPolicyPermanentIDLabel)
    && SameKey(before.annotations, after.annotations, PropagationPolicyNamespaceAnnotation)
    && SameKey(before.annotations, after.annotations, PropagationPolicyNameAnnotation)
    && SameKey(before.annotations, after.annotations, ClusterPropagationPolicyAnnotation)
  }

  predicate SameKey<K>(before: map<K, string>, after: map<K, string>, k: K) {
    (k in before <==> k in after) && (k in before ==> before[k] == after[k])
  }

  function ObjectMeta(s: State, q: QueueKey): Meta
    requires q in s.workers && !s.workers[q].Started? && s.workers[q].object_.Some?
  {
    s.workers[q].object_.value.meta
  }

  predicate ReadSome(s: State, q: QueueKey) {
    q in s.workers && s.workers[q].Read? && s.workers[q].object_.Some?
  }

  predicate FetchedLive(s: State, ref: PolicyRef) {
    ref in s.policyWorkers && s.policyWorkers[ref].Fetched? && !s.policyWorkers[ref].policy.deleting
  }

  ghost predicate Enabled(s: State, a: Action) {
    match a
    case CreateTemplate(key, meta) => key !in s.templates && HasNoPP(meta) && HasNoCPP(meta)
    case EditTemplate(key, meta, byKarmada) =>
      key in s.templates && SameClaim(s.templates[key].meta, meta) && FlagAllowed(s, meta, byKarmada)
    case DeleteTemplate(key) => key in s.templates
    case TakeOver(key, meta) => key in s.templates && HasNoPP(meta) && HasNoCPP(meta) && TakenOver(meta)
    case PutPolicy(p) =>
      && Admitted(p) && !p.deleting
      && (if p.ref in s.policies then s.policies[p.ref].id == p.id && !s.policies[p.ref].deleting
          else p.id !in s.owners)
    case MarkDeleting(ref) => ref in s.policies
    case Dequeue(q) => q in s.queue && q !in s.workers
    case ReadObject(q) => q in s.workers && s.workers[q].Started?
    case Fail(q) => q in s.workers
    case Drop(q) =>
      && q in s.workers && s.workers[q].Read?
      && (s.workers[q].object_.Some? ==> TakenOver(ObjectMeta(s, q)))
    case ReleaseDangling(q, byKarmada) =>
      && ReadSome(s, q) && !TakenOver(ObjectMeta(s, q))
      && ClaimOf(ObjectMeta(s, q)).By? && ClaimOf(ObjectMeta(s, q)).ref !in s.policies
      && q.key in s.templates && !byKarmada
    case FollowClaim(q) =>
      && ReadSome(s, q) && !TakenOver(ObjectMeta(s, q))
      && ClaimOf(ObjectMeta(s, q)).By? && ClaimOf(ObjectMeta(s, q)).ref in s.policies
      && !s.policies[ClaimOf(ObjectMeta(s, q)).ref].deleting
    case LookForPolicy(q, found) =>
      && ReadSome(s, q) && !TakenOver(ObjectMeta(s, q)) && ClaimOf(ObjectMeta(s, q)).Unclaimed?
      && Chosen(s, q.key, ObjectMeta(s, q).labels, true, found)
    case LookForClusterPolicy(q, found) =>
      && q in s.workers && s.workers[q].NoPolicy? && s.workers[q].object_.Some?
      && Chosen(s, q.key, ObjectMeta(s, q).labels, false, found)
    case Settle(q) => q in s.workers && s.workers[q].NoMatch?
    case Apply(q, byKarmada, _) =>
      && q in s.workers && s.workers[q].Applying? && s.workers[q].object_.Some?
      && (AlreadyClaimed(ObjectMeta(s, q), s.workers[q].policy) || Current(s, q.key) == s.workers[q].object_)
      && FlagAllowed(s, Claimed(ObjectMeta(s, q), s.workers[q].policy), byKarmada)
    case DequeuePolicy(ref) => ref in s.policyQueue && ref !in s.policyWorkers
    case FailPolicy(ref) => ref in s.policyWorkers
    case RemoveUnmatched(ref, key, byKarmada, _) =>
      && FetchedLive(s, ref) && key in s.templates && MarkOf(key, s.policyWorkers[ref].policy) in s.bound
      && !Selects(s.policyWorkers[ref].policy, key, s.templates[key].meta.labels)
      && FlagAllowed(s, Cleanup(s.templates[key].meta, ref), byKarmada)
    case Refresh(ref, key) => FetchedLive(s, ref) && MarkOf(key, s.policyWorkers[ref].policy) in s.bound
    case Match(ref, _) => FetchedLive(s, ref)
    case Release(ref, key) =>
      ref in s.policyWorkers && s.policyWorkers[ref].Releasing? && key in s.policyWorkers[ref].keys
    case Preempt(ref, key, byKarmada) =>
      && ref in s.policyWorkers && s.policyWorkers[ref].Releasing? && s.policyWorkers[ref].keys == {}
      && s.policyWorkers[ref].policy.preempts && key in s.templates && Names(s.policyWorkers[ref].policy, key)
      && FlagAllowed(s, Preempted(s.policies, s.templates[key].meta, s.policyWorkers[ref].policy), byKarmada)
    case DonePolicy(ref) =>
      ref in s.policyWorkers && s.policyWorkers[ref].Releasing? && s.policyWorkers[ref].keys == {}
    case CleanupClaim(ref, key, byKarmada) =>
      && ref in s.policyWorkers && s.policyWorkers[ref].Fetched? && s.policyWorkers[ref].policy.deleting
      && key in s.templates
      && s.templates[key].meta.Label(IDLabel(ref)) == s.policyWorkers[ref].policy.id
      && FlagAllowed(s, Cleanup(s.templates[key].meta, ref), byKarmada)
    case RemovePolicy(ref) =>
      && ref in s.policyWorkers && s.policyWorkers[ref].Fetched? && s.policyWorkers[ref].policy.deleting
      && ref in s.policies && s.policies[ref] == s.policyWorkers[ref].policy
  }

  function Do(s: State, a: Action): State {
    match a
    case CreateTemplate(key, meta) => Write(s, key, meta, false)
    case EditTemplate(key, meta, byKarmada) => Write(s, key, meta, byKarmada)
    case DeleteTemplate(key) => Enqueue(s.(templates := s.templates - {key}), key, false)
    case TakeOver(key, meta) => Write(s, key, meta, false)
    case PutPolicy(p) =>
      s.(policies := s.policies[p.ref := p], owners := s.owners[p.id := p.ref], policyQueue := s.policyQueue + {p.ref})
    case MarkDeleting(ref) =>
      if ref in s.policies then
        s.(policies := s.policies[ref := s.policies[ref].(deleting := true)], policyQueue := s.policyQueue + {ref})
      else s
    case Dequeue(q) => At(s.(queue := s.queue - {q}), q, Started)
    case ReadObject(q) => At(s, q, Read(Current(s, q.key)))
    case Fail(q) => Requeue(s, q)
    case Drop(q) => Finish(s.(waiting := s.waiting - {q.key}), q)
    case ReleaseDangling(q, byKarmada) => DoReleaseDangling(s, q, byKarmada)
    case FollowClaim(q) => DoFollowClaim(s, q)
    case LookForPolicy(q, found) => DoLook(s, q, found, true)
    case LookForClusterPolicy(q, found) => DoLook(s, q, found, false)
    case Settle(q) =>
      if q.key in s.waiting then Finish(s, q) else Requeue(s.(waiting := s.waiting + {q.key}), q)
    case Apply(q, byKarmada, bindingWritten) => DoApply(s, q, byKarmada, bindingWritten)
    case DequeuePolicy(ref) =>
      var dequeued := s.(policyQueue := s.policyQueue - {ref});
      if ref in s.policies then dequeued.(policyWorkers := s.policyWorkers[ref := Fetched(s.policies[ref])]) else dequeued
    case FailPolicy(ref) => s.(policyWorkers := s.policyWorkers - {ref}, policyQueue := s.policyQueue + {ref})
    case RemoveUnmatched(ref, key, byKarmada, bindingWritten) => DoCleanup(s, ref, key, byKarmada, bindingWritten)
    case Refresh(ref, key) => if ref in s.policyWorkers then Enqueue(s, key, s.policyWorkers[ref].policy.isLazy) else s
    case Match(ref, unreadable) =>
      if ref in s.policyWorkers then
        var p := s.policyWorkers[ref].policy;
        var keys := set key | key in s.waiting && key !in unreadable && key in s.templates
          && Selects(p, key, s.templates[key].meta.labels);
        s.(policyWorkers := s.policyWorkers[ref := Releasing(p, keys)])
      else s
    case Release(ref, key) => DoRelease(s, ref, key)
    case Preempt(ref, key, byKarmada) =>
      if ref in s.policyWorkers && key in s.templates then
        Write(s, key, Preempted(s.policies, s.templates[key].meta, s.policyWorkers[ref].policy), byKarmada)
      else s
    case DonePolicy(ref) => s.(policyWorkers := s.policyWorkers - {ref})
    case CleanupClaim(ref, key, byKarmada) => DoCleanup(s, ref, key, byKarmada, true)
    case RemovePolicy(ref) => s.(policies := s.policies - {ref}, policyWorkers := s.policyWorkers - {ref})
  }

  /** The claim names a policy that is gone: it is removed if it is still the same claim. */
  function DoReleaseDangling(s: State, q: QueueKey, byKarmada: bool): State {
    if ReadSome(s, q) && ClaimOf(ObjectMeta(s, q)).By? then
      var claim, done := ClaimOf(ObjectMeta(s, q)), Finish(s, q);
      if q.key in s.templates && s.templates[q.key].meta.Label(IDLabel(claim.ref)) == claim.id then
        var unbound := done.(bound := s.bound - {Mark(q.key, IDLabel(claim.ref), claim.id)});
        Write(unbound, q.key, Cleanup(s.templates[q.key].meta, claim.ref), byKarmada)
      else done
    else s
  }

  /** The claiming policy is applied again, unless it no longer selects the object. */
  function DoFollowClaim(s: State, q: QueueKey): State {
    if ReadSome(s, q) && ClaimOf(ObjectMeta(s, q)).By? && ClaimOf(ObjectMeta(s, q)).ref in s.policies then
      var p := s.policies[ClaimOf(ObjectMeta(s, q)).ref];
      if Selects(p, q.key, ObjectMeta(s, q).labels) then At(s, q, Applying(s.workers[q].object_, p)) else Finish(s, q)
    else s
  }

  /** A policy that is found takes the template from the waiting list; otherwise the search goes on. */
  function DoLook(s: State, q: QueueKey, found: Option<Policy>, namespaced: bool): State {
    if q in s.workers && !s.workers[q].Started? then
      match found
      case Some(p) => At(s.(waiting := s.waiting - {q.key}), q, Applying(s.workers[q].object_, p))
      case None => At(s, q, if namespaced then NoPolicy(s.workers[q].object_) else NoMatch(s.workers[q].object_))
    else s
  }

  /** Claims the object, if need be by a write that only succeeds on the version that was read, then writes the
      binding, unless a lazy policy is to leave it for a change by the user. */
  function DoApply(s: State, q: QueueKey, byKarmada: bool, bindingWritten: bool): State {
    if q in s.workers && s.workers[q].Applying? && s.workers[q].object_.Some? then
      var p := s.workers[q].policy;
      var meta := ObjectMeta(s, q);
      var claimed := if AlreadyClaimed(meta, p) then s else Write(s, q.key, Claimed(meta, p), byKarmada);
      if q.byKarmada && p.isLazy then Finish(claimed, q)
      else if bindingWritten then Finish(claimed.(bound := Marked(s.bound, q.key, p)), q)
      else Requeue(claimed, q)
    else s
  }

  /** Removes the claim of the policy's kind from the template, and from the binding if that is written too. */
  function DoCleanup(s: State, ref: PolicyRef, key: Key, byKarmada: bool, bindingWritten: bool): State {
    if ref in s.policyWorkers && key in s.templates then
      var forgotten := if bindingWritten then {MarkOf(key, s.policyWorkers[ref].policy)} else {};
      Write(s.(bound := s.bound - forgotten), key, Cleanup(s.templates[key].meta, ref), byKarmada)
    else s
  }

  function DoRelease(s: State, ref: PolicyRef, key: Key): State {
    if ref in s.policyWorkers && s.policyWorkers[ref].Releasing? then
      var Releasing(p, keys) := s.policyWorkers[ref];
      Enqueue(s.(waiting := s.waiting - {key}, policyWorkers := s.policyWorkers[ref := Releasing(p, keys - {key})]),
              key, p.isLazy)
    else s
  }

  /** `actions` leads from `s` to `t`, each step enabled. */
  ghost predicate Runs(s: State, actions: seq<Action>, t: State)
    decreases |actions|
  {
    if actions == [] then s == t
    else Enabled(s, actions[0]) && Runs(Do(s, actions[0]), actions[1..], t)
  }
}
