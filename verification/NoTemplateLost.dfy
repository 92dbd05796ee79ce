/** No template is lost, and none waits in vain. */
module NoTemplateLost {
  import opened Wrappers
  import opened Policies
  import opened Claims
  import opened Detector
  import opened DetectorInvariants

  /** No policy's ID is on the object. */
  predicate Unclaiming(labels: map<LabelKey, string>) {
    PropagationPolicyPermanentIDLabel !in labels && ClusterPropagationPolicyPermanentIDLabel !in labels
  }

  /** The labels of an object that a policy may claim. */
  predicate Free(labels: map<LabelKey, string>) {
    Unclaiming(labels) && (ResourceTemplateClaimedByLabel in labels ==> labels[ResourceTemplateClaimedByLabel] == "")
  }

  /** The policy can select the template when a worker looks for one. */
  ghost predicate Claimable(p: Policy, key: Key) {
    exists labels :: Free(labels) && Selects(p, key, labels)
  }

  /** The policy can select the template on the waiting list, where it may meanwhile have been taken over. */
  ghost predicate Matchable(p: Policy, key: Key) {
    exists labels :: Unclaiming(labels) && Selects(p, key, labels)
  }

  /** Only a lazy policy makes a template travel under two queue keys at once. A policy whose name is in `lazy` may be
      lazy, but then does not find the template, and no policy of that name ever claims it. */
  ghost predicate Harmless(p: Policy, key: Key, lazy: iset<PolicyRef>) {
    if p.ref in lazy then !Claimable(p, key) && (p.isLazy ==> !Matchable(p, key)) else !p.isLazy
  }

  ghost predicate Tame(a: Action, key: Key, lazy: iset<PolicyRef>) {
    a.PutPolicy? ==> Harmless(a.policy, key, lazy)
  }

  /** A scan of the waiting list can read the template. */
  predicate Scans(a: Action, key: Key) {
    a.Match? ==> key !in a.unreadable
  }

  function Q(key: Key): QueueKey {
    QueueKey(key, false)
  }

  /** A live template that nobody has claimed or taken over. */
  predicate Loose(s: State, key: Key) {
    key in s.templates && ClaimOf(s.templates[key].meta).Unclaimed? && !TakenOver(s.templates[key].meta)
  }

  // What keeps lazy policies away from the template

  ghost predicate CalmPolicies(s: State, key: Key, lazy: iset<PolicyRef>) {
    && (forall ref <- s.policies :: Harmless(s.policies[ref], key, lazy))
    && (forall ref <- s.policyWorkers :: Harmless(s.policyWorkers[ref].policy, key, lazy))
    && (forall ref <- s.policyWorkers :: s.policyWorkers[ref].Releasing? && key in s.policyWorkers[ref].keys ==>
         !s.policyWorkers[ref].policy.isLazy)
  }

  predicate NotBy(meta: Meta, lazy: iset<PolicyRef>) {
    ClaimOf(meta).By? ==> ClaimOf(meta).ref !in lazy
  }

  predicate CalmPhase(phase: Phase, lazy: iset<PolicyRef>) {
    && (!phase.Started? && phase.object_.Some? ==> NotBy(phase.object_.value.meta, lazy))
    && (phase.Applying? ==> phase.policy.ref !in lazy)
  }

  /** No IDs of such policies are about, and the template travels under one queue key only. */
  predicate CalmKey(s: State, key: Key, lazy: iset<PolicyRef>) {
    && QueueKey(key, true) !in s.queue && QueueKey(key, true) !in s.workers
    && (key in s.templates ==> NotBy(s.templates[key].meta, lazy))
    && (Q(key) in s.workers ==> CalmPhase(s.workers[Q(key)], lazy))
    && (forall m <- s.bound :: m.key == key ==> m.id in s.owners && s.owners[m.id] !in lazy)
  }

  predicate ReadsUnclaimed(phase: Phase) {
    !phase.Started? && !phase.Applying? && phase.object_.Some? && ClaimOf(phase.object_.value.meta).Unclaimed?
  }

  predicate HoldsClaim(phase: Phase) {
    phase.Applying? || (phase.Read? && phase.object_.Some? && ClaimOf(phase.object_.value.meta).By?)
  }

  /** Only the one worker can claim the template, and takes it from the waiting list before. */
  predicate WaitsUnclaimed(s: State, key: Key) {
    && (key in s.waiting && key in s.templates ==> ClaimOf(s.templates[key].meta).Unclaimed?)
    && (Q(key) in s.workers && ReadsUnclaimed(s.workers[Q(key)]) && key in s.templates ==>
         ClaimOf(s.templates[key].meta).Unclaimed?)
    && (key in s.waiting && Q(key) in s.workers ==> !HoldsClaim(s.workers[Q(key)]))
  }

  // What keeps the template from being forgotten

  /** The policy still has to look at the waiting list, or has found the key there. */
  predicate Pending(s: State, ref: PolicyRef, key: Key) {
    || ref in s.policyQueue
    || (ref in s.policyWorkers && ref in s.policies && s.policyWorkers[ref] == Fetched(s.policies[ref]))
    || (ref in s.policyWorkers && s.policyWorkers[ref].Releasing? && key in s.policyWorkers[ref].keys)
  }

  /** The template still has to look for the policy, or will be queued once more. */
  predicate Searching(s: State, ref: PolicyRef, key: Key) {
    || Q(key) in s.queue
    || (Q(key) in s.workers &&
        match s.workers[Q(key)]
        case NoPolicy(_) => ref.CPP? || key !in s.waiting
        case NoMatch(_) => key !in s.waiting
        case _ => true)
  }

  /** What an outdated worker knows is outdated by a write, and that write is still queued. */
  predicate Fresh(s: State, key: Key) {
    Q(key) in s.workers && !s.workers[Q(key)].Started? && s.workers[Q(key)].object_ != Current(s, key) ==> Q(key) in s.queue
  }

  predicate Found(s: State, key: Key) {
    Loose(s, key) ==> key in s.waiting || Q(key) in s.queue || Q(key) in s.workers
  }

  ghost predicate Awaited(s: State, key: Key) {
    Loose(s, key) ==> forall ref <- s.policies :: Candidate(s, ref, key, s.templates[key].meta.labels) ==>
      Pending(s, ref, key) || Searching(s, ref, key)
  }

  ghost predicate KeyOk(s: State, key: Key, scans: bool) {
    Fresh(s, key) && Found(s, key) && (scans ==> Awaited(s, key))
  }

  ghost predicate Safe(s: State, key: Key, lazy: iset<PolicyRef>, scans: bool) {
    CalmPolicies(s, key, lazy) && CalmKey(s, key, lazy) && WaitsUnclaimed(s, key) && KeyOk(s, key, scans)
  }

  // Steps that do not concern the template

  predicate Untouched(s: State, t: State, key: Key) {
    && Current(t, key) == Current(s, key)
    && (key in t.waiting <==> key in s.waiting)
    && (forall flag: bool :: QueueKey(key, flag) in t.queue <==> QueueKey(key, flag) in s.queue)
    && (forall flag: bool :: QueueKey(key, flag) in t.workers <==> QueueKey(key, flag) in s.workers)
    && (Q(key) in s.workers ==> t.workers[Q(key)] == s.workers[Q(key)])
    && (forall m <- t.bound :: m.key == key ==> m in s.bound)
  }

  predicate OwnersGrow(s: State, t: State) {
    forall id <- s.owners :: id in t.owners && t.owners[id] == s.owners[id]
  }

  lemma CalmFrame(s: State, t: State, key: Key, lazy: iset<PolicyRef>)
    requires Untouched(s, t, key) && OwnersGrow(s, t)
    ensures CalmKey(s, key, lazy) ==> CalmKey(t, key, lazy)
    ensures WaitsUnclaimed(s, key) ==> WaitsUnclaimed(t, key)
  {
    assert key in t.templates <==> key in s.templates;
    hide CalmPhase, NotBy, ReadsUnclaimed, HoldsClaim, ClaimOf;
  }

  /** Every policy that is to be heard of stays so. */
  lemma KeyFrame(s: State, t: State, key: Key, scans: bool)
    requires KeyOk(s, key, scans) && Untouched(s, t, key)
    requires scans ==> forall ref <- t.policies ::
      Loose(t, key) && Candidate(t, ref, key, t.templates[key].meta.labels) ==>
        || Pending(t, ref, key) || Searching(t, ref, key)
        || (Candidate(s, ref, key, t.templates[key].meta.labels) && !Pending(s, ref, key))
    ensures KeyOk(t, key, scans)
  {
    if scans && Loose(t, key) {
      forall ref | ref in t.policies && Candidate(t, ref, key, t.templates[key].meta.labels)
        ensures Pending(t, ref, key) || Searching(t, ref, key)
      {
        if Candidate(s, ref, key, t.templates[key].meta.labels) && !Pending(s, ref, key) {
          assert Searching(s, ref, key);
        }
      }
    }
  }

  /** Nothing about the policies changed. */
  predicate SamePolicies(s: State, t: State) {
    t.policies == s.policies && t.policyQueue == s.policyQueue && t.policyWorkers == s.policyWorkers && t.owners == s.owners
  }

  lemma OtherStepKeepsSafe(s: State, t: State, key: Key, lazy: iset<PolicyRef>, scans: bool)
    requires Safe(s, key, lazy, scans) && Untouched(s, t, key) && SamePolicies(s, t)
    ensures Safe(t, key, lazy, scans)
  {
    CalmFrame(s, t, key, lazy);
    KeyFrame(s, t, key, scans);
  }

  predicate ByTemplateWorker(a: Action) {
    || a.Dequeue? || a.ReadObject? || a.Fail? || a.Drop? || a.ReleaseDangling? || a.FollowClaim?
    || a.LookForPolicy? || a.LookForClusterPolicy? || a.Settle? || a.Apply?
  }

  predicate ByUser(a: Action) {
    a.CreateTemplate? || a.EditTemplate? || a.DeleteTemplate? || a.TakeOver?
  }

  predicate WritesForPolicy(a: Action) {
    a.RemoveUnmatched? || a.Preempt? || a.CleanupClaim?
  }

  /** The template that a step is about. */
  function KeyOf(a: Action): Key
    requires ByTemplateWorker(a) || ByUser(a) || WritesForPolicy(a) || a.Refresh? || a.Release?
  {
    if ByTemplateWorker(a) then a.q.key else a.key
  }

  lemma WriteIsLocal(s: State, written: Key, meta: Meta, byKarmada: bool, key: Key)
    ensures var t := Write(s, written, meta, byKarmada);
      && SamePolicies(s, t) && t.waiting == s.waiting && t.workers == s.workers && t.bound == s.bound
      && (key != written ==> Untouched(s, t, key))
  {
  }

  lemma UserStepIsLocal(s: State, a: Action, key: Key)
    requires ByUser(a)
    ensures SamePolicies(s, Do(s, a)) && (key != a.key ==> Untouched(s, Do(s, a), key))
  {
    match a
    case CreateTemplate(k, meta) => WriteIsLocal(s, k, meta, false, key);
    case EditTemplate(k, meta, byKarmada) => WriteIsLocal(s, k, meta, byKarmada, key);
    case TakeOver(k, meta) => WriteIsLocal(s, k, meta, false, key);
    case DeleteTemplate(k) =>
  }

  lemma PreemptIsLocal(s: State, a: Action, key: Key)
    requires Enabled(s, a) && a.Preempt?
    ensures SamePolicies(s, Do(s, a)) && (key != a.key ==> Untouched(s, Do(s, a), key))
  {
    var after := Preempted(s.policies, s.templates[a.key].meta, s.policyWorkers[a.ref].policy);
    hide Preempted, Names, FlagAllowed, Write;
    assert Do(s, a) == Write(s, a.key, after, a.byKarmada);
    hide Enabled, Do;
    WriteIsLocal(s, a.key, after, a.byKarmada, key);
  }

  lemma CleanupIsLocal(s: State, ref: PolicyRef, cleaned: Key, byKarmada: bool, bindingWritten: bool, key: Key)
    ensures var t := DoCleanup(s, ref, cleaned, byKarmada, bindingWritten);
      SamePolicies(s, t) && (key != cleaned ==> Untouched(s, t, key))
  {
    hide Cleanup, Write;
    if ref in s.policyWorkers && cleaned in s.templates {
      var unbound := s.(bound := s.bound - if bindingWritten then {MarkOf(cleaned, s.policyWorkers[ref].policy)} else {});
      WriteIsLocal(unbound, cleaned, Cleanup(s.templates[cleaned].meta, ref), byKarmada, key);
    }
  }

  lemma PolicyWriteIsLocal(s: State, a: Action, key: Key)
    requires Enabled(s, a) && WritesForPolicy(a)
    ensures SamePolicies(s, Do(s, a)) && (key != a.key ==> Untouched(s, Do(s, a), key))
  {
    hide DoCleanup, Untouched;
    if a.Preempt? {
      hide Do;
      PreemptIsLocal(s, a, key);
    } else {
      hide Enabled;
      CleanupIsLocal(s, a.ref, a.key, a.byKarmada, a.CleanupClaim? || a.bindingWritten, key);
    }
  }

  /** A worker ends, is queued again, or moves on, and the waiting list changes at most at its own key. */
  predicate WorkerMoved(s: State, t: State, q: QueueKey) {
    && t.templates == s.templates && t.bound == s.bound && SamePolicies(s, t)
    && (t.queue == s.queue || t.queue == s.queue + {q} || t.queue == s.queue - {q})
    && (t.workers == s.workers - {q} || (q in t.workers && t.workers == s.workers[q := t.workers[q]]))
    && (t.waiting == s.waiting || t.waiting == s.waiting + {q.key} || t.waiting == s.waiting - {q.key})
  }

  lemma MovedIsLocal(s: State, t: State, q: QueueKey, key: Key)
    requires WorkerMoved(s, t, q) && q.key != key
    ensures Untouched(s, t, key)
  {
  }

  lemma MoveIsLocal(s: State, a: Action)
    requires Enabled(s, a) && (a.Dequeue? || a.ReadObject? || a.Fail? || a.Drop? || a.Settle?)
    ensures WorkerMoved(s, Do(s, a), a.q)
  {
  }

  lemma FollowIsLocal(s: State, a: Action)
    requires Enabled(s, a) && a.FollowClaim?
    ensures WorkerMoved(s, Do(s, a), a.q)
  {
    hide Selects, ClaimOf;
    assert Do(s, a) == DoFollowClaim(s, a.q);
  }

  lemma LookIsLocal(s: State, a: Action)
    requires Enabled(s, a) && (a.LookForPolicy? || a.LookForClusterPolicy?)
    ensures WorkerMoved(s, Do(s, a), a.q)
  {
    assert a.q in s.workers && !s.workers[a.q].Started?;
    hide Enabled;
    assert Do(s, a) == DoLook(s, a.q, a.found, a.LookForPolicy?);
  }

  /** A worker ends after a write of its own template and its binding. */
  predicate Ends(s: State, t: State, q: QueueKey) {
    || t == Finish(s.(bound := t.bound), q) || t == Requeue(s, q)
  }

  /** What the template is before the worker of an `Apply` or `ReleaseDangling` ends. */
  function Written(s: State, a: Action): State
    requires (a.Apply? || a.ReleaseDangling?) && Enabled(s, a)
  {
    var q, meta := a.q, ObjectMeta(s, a.q);
    if a.Apply? then
      if AlreadyClaimed(meta, s.workers[q].policy) then s
      else Write(s, q.key, Claimed(meta, s.workers[q].policy), a.byKarmada)
    else
      WrittenDangling(s, q.key, ClaimOf(meta), a.byKarmada)
  }

  function WrittenDangling(s: State, key: Key, claim: Claim, byKarmada: bool): State
    requires claim.By? && key in s.templates
  {
    var stored := s.templates[key].meta;
    if stored.Label(IDLabel(claim.ref)) == claim.id then Write(s, key, Cleanup(stored, claim.ref), byKarmada) else s
  }

  lemma WorkerEnds(s: State, a: Action)
    requires (a.Apply? || a.ReleaseDangling?) && Enabled(s, a)
    ensures Ends(Written(s, a), Do(s, a), a.q)
    ensures forall m <- Do(s, a).bound :: m in s.bound || (a.Apply? && m == MarkOf(a.q.key, s.workers[a.q].policy))
    ensures a.q in Written(s, a).workers
  {
    if a.Apply? {
      ApplyEnds(s, a);
    } else {
      ReleaseDanglingEnds(s, a);
    }
  }

  lemma ApplyEnds(s: State, a: Action)
    requires a.Apply? && Enabled(s, a)
    ensures Ends(Written(s, a), Do(s, a), a.q) && a.q in Written(s, a).workers
    ensures forall m <- Do(s, a).bound :: m in s.bound || m == MarkOf(a.q.key, s.workers[a.q].policy)
  {
    var meta, p := ObjectMeta(s, a.q), s.workers[a.q].policy;
    WriteIsLocal(s, a.q.key, Claimed(meta, p), a.byKarmada, a.q.key);
    hide Claimed, AlreadyClaimed, FlagAllowed, Write, Marked;
    assert Do(s, a) == DoApply(s, a.q, a.byKarmada, a.bindingWritten);
    assert Written(s, a).bound == s.bound;
    NewMarks(s.bound, a.q.key, p);
  }

  lemma NewMarks(bound: set<Mark>, key: Key, p: Policy)
    ensures forall m <- Marked(bound, key, p) :: m in bound || m == MarkOf(key, p)
  {
  }

  lemma ReleaseDanglingEnds(s: State, a: Action)
    requires a.ReleaseDangling? && Enabled(s, a)
    ensures Ends(Written(s, a), Do(s, a), a.q) && a.q in Written(s, a).workers
    ensures forall m <- Do(s, a).bound :: m in s.bound
  {
    hide Cleanup, ClaimOf, TakenOver;
    assert ReadSome(s, a.q) && ClaimOf(ObjectMeta(s, a.q)).By? && a.q.key in s.templates;
    assert Do(s, a) == DoReleaseDangling(s, a.q, a.byKarmada);
    DanglingWrite(s, a.q, a.byKarmada);
    hide Do;
  }

  lemma DanglingWrite(s: State, q: QueueKey, byKarmada: bool)
    requires ReadSome(s, q) && ClaimOf(ObjectMeta(s, q)).By? && q.key in s.templates
    ensures var t := DoReleaseDangling(s, q, byKarmada);
      var u := WrittenDangling(s, q.key, ClaimOf(ObjectMeta(s, q)), byKarmada);
      q in u.workers && t == Finish(u.(bound := t.bound), q) && t.bound <= s.bound
  {
    var claim := ClaimOf(ObjectMeta(s, q));
    var bound := s.bound - {Mark(q.key, IDLabel(claim.ref), claim.id)};
    WriteAside(s, q.key, Cleanup(s.templates[q.key].meta, claim.ref), byKarmada, s.workers - {q}, bound);
    WriteIsLocal(s, q.key, Cleanup(s.templates[q.key].meta, claim.ref), byKarmada, q.key);
    hide Cleanup, ClaimOf, Write;
  }

  /** A write does not look at workers and bindings. */
  lemma WriteAside(s: State, key: Key, meta: Meta, byKarmada: bool, workers: map<QueueKey, Phase>, bound: set<Mark>)
    ensures Write(s.(workers := workers, bound := bound), key, meta, byKarmada) ==
      Write(s, key, meta, byKarmada).(workers := workers, bound := bound)
  {
  }

  lemma WorkerWriteIsLocal(s: State, a: Action, key: Key)
    requires (a.Apply? || a.ReleaseDangling?) && Enabled(s, a)
    ensures SamePolicies(s, Do(s, a)) && (key != a.q.key ==> Untouched(s, Do(s, a), key))
  {
    WorkerEnds(s, a);
    WrittenIsLocal(s, a, key);
    hide Do, Enabled, Written;
    EndIsLocal(s, Written(s, a), Do(s, a), a.q, key);
  }

  lemma EndIsLocal(s: State, u: State, t: State, q: QueueKey, key: Key)
    requires SamePolicies(s, u) && Ends(u, t, q)
    requires key != q.key ==> Untouched(s, u, key) && forall m <- t.bound :: m.key == key ==> m in s.bound
    ensures SamePolicies(s, t) && (key != q.key ==> Untouched(s, t, key))
  {
  }

  lemma WrittenIsLocal(s: State, a: Action, key: Key)
    requires (a.Apply? || a.ReleaseDangling?) && Enabled(s, a)
    ensures var u := Written(s, a);
      && SamePolicies(s, u) && u.waiting == s.waiting && u.workers == s.workers && u.bound == s.bound
      && (key != a.q.key ==> Untouched(s, u, key))
  {
    var q, meta := a.q, ObjectMeta(s, a.q);
    var after := if a.Apply? then Claimed(meta, s.workers[q].policy)
      else Cleanup(s.templates[q.key].meta, ClaimOf(meta).ref);
    WriteIsLocal(s, q.key, after, a.byKarmada, key);
    hide Write, Claimed, AlreadyClaimed, Cleanup, ClaimOf, FlagAllowed;
  }

  lemma WorkerStepIsLocal(s: State, a: Action, key: Key)
    requires Enabled(s, a) && ByTemplateWorker(a)
    ensures SamePolicies(s, Do(s, a)) && (key != a.q.key ==> Untouched(s, Do(s, a), key))
  {
    hide Do, Enabled;
    if a.Apply? || a.ReleaseDangling? {
      WorkerWriteIsLocal(s, a, key);
    } else {
      if a.FollowClaim? {
        FollowIsLocal(s, a);
      } else if a.LookForPolicy? || a.LookForClusterPolicy? {
        LookIsLocal(s, a);
      } else {
        MoveIsLocal(s, a);
      }
      if key != a.q.key {
        MovedIsLocal(s, Do(s, a), a.q, key);
      }
    }
  }

  /** All steps that leave the policies alone, and all templates but one. */
  lemma TemplateStepIsLocal(s: State, a: Action, key: Key)
    requires Enabled(s, a) && (ByTemplateWorker(a) || ByUser(a) || WritesForPolicy(a) || a.Refresh?)
    ensures SamePolicies(s, Do(s, a)) && (key != KeyOf(a) ==> Untouched(s, Do(s, a), key))
  {
    if ByTemplateWorker(a) {
      WorkerStepIsLocal(s, a, key);
    } else if ByUser(a) {
      UserStepIsLocal(s, a, key);
    } else if WritesForPolicy(a) {
      PolicyWriteIsLocal(s, a, key);
    }
  }

  // Writes of the template

  /** The event of a write is not flagged: the claim is not a lazy policy's. */
  lemma NoFlag(s: State, key: Key, meta: Meta, byKarmada: bool, lazy: iset<PolicyRef>)
    requires Good(s) && CalmPolicies(s, key, lazy) && NotBy(meta, lazy) && FlagAllowed(s, meta, byKarmada)
    ensures !byKarmada
  {
    var claim := ClaimOf(meta);
    hide ClaimOf, Claimable, Matchable;
    assert claim.By? && claim.ref in s.policies ==>
      GoodPolicy(s.owners, claim.ref, s.policies[claim.ref]) && Harmless(s.policies[claim.ref], key, lazy);
  }

  /** No claim appears that was not there, unless the worker makes it. */
  predicate MayWrite(s: State, key: Key, meta: Meta) {
    ClaimOf(meta).By? ==>
      || (key in s.templates && ClaimOf(s.templates[key].meta).By?)
      || (Q(key) in s.workers && s.workers[Q(key)].Applying?)
  }

  lemma WriteKeepsSafe(s: State, key: Key, meta: Meta, lazy: iset<PolicyRef>, scans: bool)
    requires Safe(s, key, lazy, scans) && NotBy(meta, lazy) && MayWrite(s, key, meta)
    ensures Safe(Write(s, key, meta, false), key, lazy, scans)
  {
    var t := Write(s, key, meta, false);
    WriteIsLocal(s, key, meta, false, key);
    if t != s {
      assert Q(key) in t.queue && QueueKey(key, true) !in t.queue;
      assert t.templates[key].meta == meta;
      hide Write, ClaimOf, CalmPhase, Candidate, CalmPolicies, SamePolicies;
      assert CalmKey(t, key, lazy);
      assert KeyOk(t, key, scans);
      assert WaitsUnclaimed(t, key);
      assert CalmPolicies(t, key, lazy) by {
        SamePoliciesCalm(s, t, key, lazy);
      }
    }
  }

  lemma SamePoliciesCalm(s: State, t: State, key: Key, lazy: iset<PolicyRef>)
    requires CalmPolicies(s, key, lazy) && SamePolicies(s, t)
    ensures CalmPolicies(t, key, lazy)
  {
  }

  /** Labels of bindings may go, and those of other policies may come. */
  lemma BindingKeepsSafe(s: State, bound: set<Mark>, key: Key, lazy: iset<PolicyRef>, scans: bool)
    requires Safe(s, key, lazy, scans)
    requires forall m <- bound :: m in s.bound || (m.key == key ==> m.id in s.owners && s.owners[m.id] !in lazy)
    ensures Safe(s.(bound := bound), key, lazy, scans)
  {
    var t := s.(bound := bound);
    assert Untouched(s, t.(bound := {}), key);
    KeyFrame(s, t.(bound := {}), key, scans);
    assert KeyOk(t, key, scans);
  }

  lemma UserStepKeepsSafe(s: State, a: Action, key: Key, lazy: iset<PolicyRef>, scans: bool)
    requires Good(s) && Safe(s, key, lazy, scans) && Enabled(s, a) && ByUser(a) && a.key == key
    ensures Safe(Do(s, a), key, lazy, scans)
  {
    match a
    case CreateTemplate(_, meta) => WriteKeepsSafe(s, key, meta, lazy, scans);
    case EditTemplate(_, meta, byKarmada) =>
      assert GoodMeta(s.owners, s.templates[key].meta);
      SameClaimIsGood(s.owners, s.templates[key].meta, meta);
      NoFlag(s, key, meta, byKarmada, lazy);
      WriteKeepsSafe(s, key, meta, lazy, scans);
    case TakeOver(_, meta) => WriteKeepsSafe(s, key, meta, lazy, scans);
    case DeleteTemplate(_) => DeleteKeepsSafe(s, key, lazy, scans);
  }

  lemma DeleteKeepsSafe(s: State, key: Key, lazy: iset<PolicyRef>, scans: bool)
    requires Safe(s, key, lazy, scans)
    ensures Safe(Do(s, DeleteTemplate(key)), key, lazy, scans)
  {
    hide ClaimOf, Harmless;
  }

  lemma NamedIsClaimable(p: Policy, key: Key)
    requires Names(p, key)
    ensures Claimable(p, key)
  {
    var rs :| rs in p.selectors && rs.name != "" && rs.name == key.name && rs.apiVersion == key.apiVersion
      && rs.kind == key.kind && rs.namespace == key.namespace;
    assert ResourceSelectorPriority(key, map[], rs) == MATCH_NAME;
    assert Free(map[]) && Selects(p, key, map[]);
  }

  lemma PreemptKeepsSafe(s: State, a: Action, key: Key, lazy: iset<PolicyRef>, scans: bool)
    requires Good(s) && Safe(s, key, lazy, scans) && Enabled(s, a) && a.Preempt? && a.key == key
    ensures Safe(Do(s, a), key, lazy, scans)
  {
    var p, meta := s.policyWorkers[a.ref].policy, s.templates[key].meta;
    assert GoodPolicy(s.owners, a.ref, p) && GoodMeta(s.owners, meta) && Harmless(p, key, lazy);
    NamedIsClaimable(p, key);
    PreemptedIsGood(s, meta, p);
    hide Preempted, Names, Good, GoodMeta, GoodPolicy;
    var after := Preempted(s.policies, meta, p);
    assert NotBy(after, lazy) && MayWrite(s, key, after);
    NoFlag(s, key, after, a.byKarmada, lazy);
    WriteKeepsSafe(s, key, after, lazy, scans);
  }

  lemma CleanupKeepsSafe(s: State, a: Action, key: Key, lazy: iset<PolicyRef>, scans: bool)
    requires Good(s) && Safe(s, key, lazy, scans)
    requires (a.RemoveUnmatched? || a.CleanupClaim?) && Enabled(s, a) && a.key == key
    ensures Safe(Do(s, a), key, lazy, scans)
  {
    var p, meta := s.policyWorkers[a.ref].policy, s.templates[key].meta;
    assert GoodMeta(s.owners, meta);
    CleanupIsGood(s.owners, meta, a.ref);
    var after := Cleanup(meta, a.ref);
    var unbound := s.(bound := s.bound - if a.CleanupClaim? || a.bindingWritten then {MarkOf(key, p)} else {});
    assert NotBy(after, lazy) && MayWrite(s, key, after);
    hide Cleanup, Good, GoodMeta, Selects, Safe;
    NoFlagWhenSafe(s, key, after, a.byKarmada, lazy, scans);
    BindingKeepsSafe(s, unbound.bound, key, lazy, scans);
    WriteKeepsSafe(unbound, key, after, lazy, scans);
  }

  lemma NoFlagWhenSafe(s: State, key: Key, meta: Meta, byKarmada: bool, lazy: iset<PolicyRef>, scans: bool)
    requires Good(s) && Safe(s, key, lazy, scans) && NotBy(meta, lazy) && FlagAllowed(s, meta, byKarmada)
    ensures !byKarmada
  {
    NoFlag(s, key, meta, byKarmada, lazy);
  }

  /** A binding that carries a policy's ID is not a lazy policy's, so the template is queued as ever. */
  lemma RefreshKeepsSafe(s: State, a: Action, key: Key, lazy: iset<PolicyRef>, scans: bool)
    requires Good(s) && Safe(s, key, lazy, scans) && Enabled(s, a) && a.Refresh? && a.key == key
    ensures Safe(Do(s, a), key, lazy, scans)
  {
    var p := s.policyWorkers[a.ref].policy;
    assert GoodPolicy(s.owners, a.ref, p) && MarkOf(key, p) in s.bound;
    assert Harmless(p, key, lazy) && !p.isLazy;
    assert Do(s, a) == Enqueue(s, key, false);
    QueueKeepsSafe(s, key, lazy, scans);
  }

  lemma QueueKeepsSafe(s: State, key: Key, lazy: iset<PolicyRef>, scans: bool)
    requires Safe(s, key, lazy, scans)
    ensures Safe(Enqueue(s, key, false), key, lazy, scans)
  {
    var t := Enqueue(s, key, false);
    assert Q(key) in t.queue;
    hide Harmless, CalmPhase, ClaimOf, Candidate;
  }

  // Steps of the worker

  lemma MoveKeepsCalm(s: State, a: Action, key: Key, lazy: iset<PolicyRef>)
    requires a.Dequeue? || a.ReadObject? || a.Fail? || a.Drop?
    requires CalmKey(s, key, lazy) && WaitsUnclaimed(s, key) && Enabled(s, a) && a.q == Q(key)
    ensures CalmKey(Do(s, a), key, lazy) && WaitsUnclaimed(Do(s, a), key)
  {
    hide ClaimOf;
  }

  lemma MoveKeepsOk(s: State, a: Action, key: Key, scans: bool)
    requires a.Dequeue? || a.ReadObject? || a.Fail? || a.Drop?
    requires KeyOk(s, key, scans) && Enabled(s, a) && a.q == Q(key)
    ensures KeyOk(Do(s, a), key, scans)
  {
    hide Selects, ClaimOf;
  }

  lemma SettleKeepsCalm(s: State, a: Action, key: Key, lazy: iset<PolicyRef>)
    requires a.Settle? && Enabled(s, a) && a.q == Q(key)
    requires Good(s) && CalmKey(s, key, lazy) && WaitsUnclaimed(s, key)
    ensures CalmKey(Do(s, a), key, lazy) && WaitsUnclaimed(Do(s, a), key)
  {
    assert GoodPhase(s, key, s.workers[Q(key)]);
    hide ClaimOf, GoodObject;
  }

  lemma SettleKeepsOk(s: State, a: Action, key: Key, scans: bool)
    requires a.Settle? && KeyOk(s, key, scans) && Enabled(s, a) && a.q == Q(key)
    ensures KeyOk(Do(s, a), key, scans)
  {
    var t := Do(s, a);
    hide Selects, ClaimOf;
    if scans && Loose(t, key) && key in s.waiting && Q(key) !in s.queue {
      forall ref | ref in t.policies && Candidate(t, ref, key, t.templates[key].meta.labels)
        ensures Pending(t, ref, key)
      {
        assert Pending(s, ref, key) || Searching(s, ref, key);
      }
    }
  }

  /** A worker that follows a claim keeps to the claiming policy. */
  lemma FollowKeepsCalm(s: State, a: Action, key: Key, lazy: iset<PolicyRef>)
    requires a.FollowClaim? && Enabled(s, a) && a.q == Q(key)
    requires Good(s) && CalmKey(s, key, lazy) && WaitsUnclaimed(s, key)
    ensures CalmKey(Do(s, a), key, lazy) && WaitsUnclaimed(Do(s, a), key)
  {
    var ref := ClaimOf(ObjectMeta(s, a.q)).ref;
    assert GoodPolicy(s.owners, ref, s.policies[ref]);
    hide Selects, ClaimOf;
    assert Do(s, a) == DoFollowClaim(s, a.q);
  }

  lemma FollowKeepsOk(s: State, a: Action, key: Key, scans: bool)
    requires a.FollowClaim? && Enabled(s, a) && KeyOk(s, key, scans) && a.q == Q(key)
    ensures KeyOk(Do(s, a), key, scans)
  {
    hide Selects, Candidate;
    assert Q(key) in s.queue || !Loose(s, key);
  }

  lemma LookKeepsCalm(s: State, a: Action, key: Key, lazy: iset<PolicyRef>)
    requires (a.LookForPolicy? || a.LookForClusterPolicy?) && Enabled(s, a) && a.q == Q(key)
    requires Good(s) && CalmPolicies(s, key, lazy) && CalmKey(s, key, lazy) && WaitsUnclaimed(s, key)
    ensures CalmKey(Do(s, a), key, lazy) && WaitsUnclaimed(Do(s, a), key)
  {
    LookReadsFree(s, a);
    assert Do(s, a) == DoLook(s, a.q, a.found, a.LookForPolicy?);
    hide Good, Chosen, ClaimOf, TakenOver, GoodMeta, CalmPolicies, Enabled, Do;
    if a.found.Some? {
      FoundIsCalm(s, key, ObjectMeta(s, a.q), a.LookForPolicy?, a.found.value, lazy);
    }
    LookMoves(s, key, a.found, a.LookForPolicy?, lazy);
  }

  lemma LookMoves(s: State, key: Key, found: Option<Policy>, namespaced: bool, lazy: iset<PolicyRef>)
    requires Q(key) in s.workers && (s.workers[Q(key)].Read? || s.workers[Q(key)].NoPolicy?)
    requires s.workers[Q(key)].object_.Some? && ClaimOf(ObjectMeta(s, Q(key))).Unclaimed?
    requires CalmKey(s, key, lazy) && WaitsUnclaimed(s, key) && (found.Some? ==> found.value.ref !in lazy)
    ensures CalmKey(DoLook(s, Q(key), found, namespaced), key, lazy)
    ensures WaitsUnclaimed(DoLook(s, Q(key), found, namespaced), key)
  {
    var t := DoLook(s, Q(key), found, namespaced);
    assert t.templates == s.templates && t.queue == s.queue && t.bound == s.bound && t.owners == s.owners;
    assert Q(key) in t.workers && (QueueKey(key, true) in t.workers <==> QueueKey(key, true) in s.workers);
    assert t.workers[Q(key)].object_ == s.workers[Q(key)].object_;
    hide ClaimOf;
  }

  lemma LookReadsFree(s: State, a: Action)
    requires (a.LookForPolicy? || a.LookForClusterPolicy?) && Enabled(s, a) && Good(s)
    ensures a.q in s.workers && (s.workers[a.q].Read? || s.workers[a.q].NoPolicy?) && s.workers[a.q].object_.Some?
    ensures var meta := ObjectMeta(s, a.q);
      && GoodMeta(s.owners, meta) && ClaimOf(meta).Unclaimed? && !TakenOver(meta)
      && Chosen(s, a.q.key, meta.labels, a.LookForPolicy?, a.found)
  {
    assert GoodPhase(s, a.q.key, s.workers[a.q]);
    hide ClaimOf, TakenOver, GoodMeta, Chosen;
  }

  /** What a worker finds can claim the template, so it is not one of the policies in `lazy`. */
  lemma FoundIsCalm(s: State, key: Key, meta: Meta, namespaced: bool, p: Policy, lazy: iset<PolicyRef>)
    requires CalmPolicies(s, key, lazy) && Chosen(s, key, meta.labels, namespaced, Some(p))
    requires GoodMeta(s.owners, meta) && ClaimOf(meta).Unclaimed? && !TakenOver(meta)
    ensures p.ref !in lazy
  {
    assert Free(meta.labels) && Selects(p, key, meta.labels);
    assert Harmless(s.policies[p.ref], key, lazy);
  }

  /** Finding no policy means that none was there: only the other kind may still be awaited. */
  lemma NothingFound(s: State, a: Action, key: Key, scans: bool)
    requires (a.LookForPolicy? || a.LookForClusterPolicy?) && a.found.None?
    requires KeyOk(s, key, scans) && Enabled(s, a) && a.q == Q(key)
    ensures KeyOk(Do(s, a), key, scans)
  {
    var q, t := a.q, Do(s, a);
    assert t == At(s, q, if a.LookForPolicy? then NoPolicy(s.workers[q].object_) else NoMatch(s.workers[q].object_));
    if scans && Loose(t, key) && Q(key) !in s.queue {
      var labels := s.templates[key].meta.labels;
      assert s.workers[q].object_ == Current(s, key);
      forall ref | ref in t.policies && Candidate(t, ref, key, labels)
        ensures Pending(t, ref, key) || Searching(t, ref, key)
      {
        assert Candidate(s, ref, key, labels);
        assert Chosen(s, key, labels, a.LookForPolicy?, None);
        assert ref.PP? != a.LookForPolicy?;
        assert Pending(s, ref, key) || Searching(s, ref, key);
        hide Candidate, Chosen;
      }
    }
  }

  /** Finding a policy leads to a claim or to another try. */
  lemma SomethingFound(s: State, a: Action, key: Key, scans: bool)
    requires (a.LookForPolicy? || a.LookForClusterPolicy?) && a.found.Some?
    requires KeyOk(s, key, scans) && Enabled(s, a) && a.q == Q(key)
    ensures KeyOk(Do(s, a), key, scans)
  {
    hide Candidate, Chosen, Pending;
    assert forall ref :: Searching(Do(s, a), ref, key);
  }

  /** A worker ends whose template is claimed or queued. */
  lemma EndKeepsSafe(s: State, t: State, key: Key, lazy: iset<PolicyRef>, scans: bool)
    requires Safe(s, key, lazy, scans) && Q(key) in s.workers && Ends(s, t, Q(key))
    requires forall m <- t.bound :: m in s.bound || (m.key == key ==> m.id in s.owners && s.owners[m.id] !in lazy)
    requires Q(key) in t.queue || !Loose(t, key)
    ensures Safe(t, key, lazy, scans)
  {
    BindingKeepsSafe(s, t.bound, key, lazy, scans);
    var u := s.(bound := t.bound);
    assert CalmPolicies(u, key, lazy) && CalmKey(u, key, lazy) && WaitsUnclaimed(u, key) && KeyOk(u, key, scans);
    SamePoliciesCalm(u, t, key, lazy);
    hide CalmPolicies, KeyOk, Loose;
    EndKeepsCalm(u, t, key, lazy);
    EndKeepsOk(u, t, key, scans);
  }

  lemma EndKeepsCalm(s: State, t: State, key: Key, lazy: iset<PolicyRef>)
    requires CalmKey(s, key, lazy) && WaitsUnclaimed(s, key) && (t == Finish(s, Q(key)) || t == Requeue(s, Q(key)))
    ensures CalmKey(t, key, lazy) && WaitsUnclaimed(t, key)
  {
    hide NotBy, CalmPhase, ReadsUnclaimed, HoldsClaim, ClaimOf;
  }

  lemma EndKeepsOk(s: State, t: State, key: Key, scans: bool)
    requires KeyOk(s, key, scans) && (t == Finish(s, Q(key)) || t == Requeue(s, Q(key)))
    requires Q(key) in t.queue || !Loose(t, key)
    ensures KeyOk(t, key, scans)
  {
    hide Candidate, ClaimOf;
  }

  /** After a claim has been applied the template is claimed, or queued again. */
  lemma Applied(s: State, a: Action, key: Key, scans: bool)
    requires a.Apply? && Enabled(s, a) && Good(s) && KeyOk(s, key, scans) && a.q == Q(key) && !a.byKarmada
    ensures Q(key) in Do(s, a).queue || !Loose(Do(s, a), key)
  {
    assert GoodPhase(s, key, s.workers[a.q]);
    ClaimedIsGood(s.owners, ObjectMeta(s, a.q), s.workers[a.q].policy);
    ClaimedIsWhole(ObjectMeta(s, a.q), s.workers[a.q].policy);
  }

  lemma ClaimedIsCalm(s: State, a: Action, key: Key, lazy: iset<PolicyRef>, scans: bool)
    requires Good(s) && Safe(s, key, lazy, scans) && Enabled(s, a) && a.Apply? && a.q == Q(key)
    ensures var p, meta := s.workers[a.q].policy, ObjectMeta(s, a.q);
      && NotBy(Claimed(meta, p), lazy) && MayWrite(s, key, Claimed(meta, p)) && !a.byKarmada
      && p.id in s.owners && s.owners[p.id] !in lazy
  {
    var p, meta := s.workers[a.q].policy, ObjectMeta(s, a.q);
    assert GoodPhase(s, key, s.workers[a.q]);
    ClaimedIsGood(s.owners, meta, p);
    hide Claimed, AlreadyClaimed;
    NoFlag(s, key, Claimed(meta, p), a.byKarmada, lazy);
  }

  lemma ApplyKeepsSafe(s: State, a: Action, key: Key, lazy: iset<PolicyRef>, scans: bool)
    requires Good(s) && Safe(s, key, lazy, scans) && Enabled(s, a) && a.Apply? && a.q == Q(key)
    ensures Safe(Do(s, a), key, lazy, scans)
  {
    var p, meta := s.workers[a.q].policy, ObjectMeta(s, a.q);
    ClaimedIsCalm(s, a, key, lazy, scans);
    SafeIsOk(s, key, lazy, scans);
    Applied(s, a, key, scans);
    WriteKeepsSafe(s, key, Claimed(meta, p), lazy, scans);
    WorkerEnds(s, a);
    WrittenIsLocal(s, a, key);
    hide Safe, Good, KeyOk, Claimed, AlreadyClaimed, Write, Do, MayWrite, NotBy, FlagAllowed, Loose, Ends;
    EndKeepsSafe(Written(s, a), Do(s, a), key, lazy, scans);
  }

  lemma SafeIsOk(s: State, key: Key, lazy: iset<PolicyRef>, scans: bool)
    requires Safe(s, key, lazy, scans)
    ensures KeyOk(s, key, scans)
  {
  }

  /** The claim of a policy that is gone is removed, or has been replaced by a write that is still queued. */
  lemma DanglingIsQueued(s: State, a: Action, key: Key, scans: bool)
    requires a.ReleaseDangling? && Enabled(s, a) && Good(s) && KeyOk(s, key, scans) && a.q == Q(key)
    ensures Q(key) in Do(s, a).queue
  {
    assert GoodPhase(s, key, s.workers[a.q]);
  }

  lemma ReleaseDanglingKeepsSafe(s: State, a: Action, key: Key, lazy: iset<PolicyRef>, scans: bool)
    requires Good(s) && Safe(s, key, lazy, scans) && Enabled(s, a) && a.ReleaseDangling? && a.q == Q(key)
    ensures Safe(Do(s, a), key, lazy, scans)
  {
    var claim, stored := ClaimOf(ObjectMeta(s, a.q)), s.templates[key].meta;
    assert GoodMeta(s.owners, stored);
    CleanupIsGood(s.owners, stored, claim.ref);
    assert NotBy(Cleanup(stored, claim.ref), lazy) && MayWrite(s, key, Cleanup(stored, claim.ref));
    SafeIsOk(s, key, lazy, scans);
    DanglingIsQueued(s, a, key, scans);
    hide Safe, Good, KeyOk, Cleanup, Write, Do, MayWrite, NotBy, ClaimOf, GoodMeta, Ends;
    WriteKeepsSafe(s, key, Cleanup(stored, claim.ref), lazy, scans);
    WorkerEnds(s, a);
    WrittenIsLocal(s, a, key);
    EndKeepsSafe(Written(s, a), Do(s, a), key, lazy, scans);
  }

  lemma WorkerStepKeepsSafe(s: State, a: Action, key: Key, lazy: iset<PolicyRef>, scans: bool)
    requires Good(s) && Safe(s, key, lazy, scans) && Enabled(s, a) && ByTemplateWorker(a) && a.q.key == key
    ensures Safe(Do(s, a), key, lazy, scans)
  {
    assert a.q == Q(key);
    if a.ReleaseDangling? {
      ReleaseDanglingKeepsSafe(s, a, key, lazy, scans);
    } else if a.Apply? {
      ApplyKeepsSafe(s, a, key, lazy, scans);
    } else {
      WorkerStepIsLocal(s, a, key);
      SamePoliciesCalm(s, Do(s, a), key, lazy);
      hide Good, Do, Enabled, CalmKey, CalmPolicies, KeyOk, WaitsUnclaimed;
      WorkerMoveIsCalm(s, a, key, lazy);
      WorkerMoveIsOk(s, a, key, scans);
    }
  }

  lemma WorkerMoveIsCalm(s: State, a: Action, key: Key, lazy: iset<PolicyRef>)
    requires ByTemplateWorker(a) && !a.ReleaseDangling? && !a.Apply? && Enabled(s, a) && a.q == Q(key)
    requires Good(s) && CalmPolicies(s, key, lazy) && CalmKey(s, key, lazy) && WaitsUnclaimed(s, key)
    ensures CalmKey(Do(s, a), key, lazy) && WaitsUnclaimed(Do(s, a), key)
  {
    hide Good, Do, Enabled, CalmKey, CalmPolicies, WaitsUnclaimed;
    if a.FollowClaim? {
      FollowKeepsCalm(s, a, key, lazy);
    } else if a.Settle? {
      SettleKeepsCalm(s, a, key, lazy);
    } else if a.LookForPolicy? || a.LookForClusterPolicy? {
      LookKeepsCalm(s, a, key, lazy);
    } else {
      MoveKeepsCalm(s, a, key, lazy);
    }
  }

  lemma WorkerMoveIsOk(s: State, a: Action, key: Key, scans: bool)
    requires ByTemplateWorker(a) && !a.ReleaseDangling? && !a.Apply? && Enabled(s, a) && a.q == Q(key)
    requires KeyOk(s, key, scans)
    ensures KeyOk(Do(s, a), key, scans)
  {
    hide Do, Enabled, KeyOk;
    if a.FollowClaim? {
      FollowKeepsOk(s, a, key, scans);
    } else if a.Settle? {
      SettleKeepsOk(s, a, key, scans);
    } else if a.LookForPolicy? || a.LookForClusterPolicy? {
      if a.found.None? { NothingFound(s, a, key, scans); } else { SomethingFound(s, a, key, scans); }
    } else {
      MoveKeepsOk(s, a, key, scans);
    }
  }

  // Steps of the policies

  predicate SameTemplates(s: State, t: State) {
    && t.templates == s.templates && t.waiting == s.waiting && t.queue == s.queue && t.workers == s.workers
    && t.bound == s.bound
  }

  /** A policy's step that touches no template: every policy still to be heard of stays so. */
  lemma PolicyFrame(s: State, t: State, key: Key, lazy: iset<PolicyRef>, scans: bool)
    requires Safe(s, key, lazy, scans) && CalmPolicies(t, key, lazy) && SameTemplates(s, t) && OwnersGrow(s, t)
    requires scans ==> forall ref <- t.policies ::
      Loose(t, key) && Candidate(t, ref, key, t.templates[key].meta.labels) ==>
        || Pending(t, ref, key) || Searching(t, ref, key)
        || (Candidate(s, ref, key, t.templates[key].meta.labels) && !Pending(s, ref, key))
    ensures Safe(t, key, lazy, scans)
  {
    assert Untouched(s, t, key);
    CalmFrame(s, t, key, lazy);
    KeyFrame(s, t, key, scans);
  }

  predicate SameFor(s: State, t: State, ref: PolicyRef) {
    && (ref in t.policies <==> ref in s.policies) && (ref in s.policies ==> t.policies[ref] == s.policies[ref])
    && (ref in t.policyWorkers <==> ref in s.policyWorkers)
    && (ref in s.policyWorkers ==> t.policyWorkers[ref] == s.policyWorkers[ref])
    && (ref in t.policyQueue <==> ref in s.policyQueue)
  }

  /** A step of one policy: it is pending afterwards, no candidate, or as pending as before. */
  lemma OnePolicyFrame(s: State, t: State, changed: PolicyRef, key: Key, lazy: iset<PolicyRef>, scans: bool)
    requires Safe(s, key, lazy, scans) && CalmPolicies(t, key, lazy) && SameTemplates(s, t) && OwnersGrow(s, t)
    requires forall ref :: ref != changed ==> SameFor(s, t, ref)
    requires
      || changed in t.policyQueue || changed !in t.policies
      || (changed in t.policyWorkers && t.policyWorkers[changed] == Fetched(t.policies[changed]))
      || (changed in s.policies && t.policies[changed] == s.policies[changed]
          && changed !in s.policyQueue && changed in s.policyWorkers && s.policyWorkers[changed].Releasing?
          && s.policyWorkers[changed].keys == {})
    ensures Safe(t, key, lazy, scans)
  {
    forall ref | ref in t.policies && Loose(t, key) && Candidate(t, ref, key, t.templates[key].meta.labels)
      ensures Pending(t, ref, key) || (Candidate(s, ref, key, t.templates[key].meta.labels) && !Pending(s, ref, key))
    {
      assert ref != changed ==> SameFor(s, t, ref);
    }
    PolicyFrame(s, t, key, lazy, scans);
  }

  predicate OnePolicy(a: Action) {
    a.PutPolicy? || a.MarkDeleting? || a.DequeuePolicy? || a.FailPolicy? || a.DonePolicy? || a.RemovePolicy?
  }

  function Changed(a: Action): PolicyRef
    requires OnePolicy(a)
  {
    if a.PutPolicy? then a.policy.ref else a.ref
  }

  lemma PolicyEventIsLocal(s: State, a: Action)
    requires Good(s) && Enabled(s, a) && (a.PutPolicy? || a.MarkDeleting?)
    ensures SameTemplates(s, Do(s, a)) && OwnersGrow(s, Do(s, a))
    ensures forall ref :: ref != Changed(a) ==> SameFor(s, Do(s, a), ref)
  {
    assert Changed(a) in s.policies ==> GoodPolicy(s.owners, Changed(a), s.policies[Changed(a)]);
    hide Good, Admitted;
  }

  lemma PolicyStartIsLocal(s: State, a: Action)
    requires Enabled(s, a) && a.DequeuePolicy?
    ensures SameTemplates(s, Do(s, a)) && OwnersGrow(s, Do(s, a))
    ensures forall ref :: ref != Changed(a) ==> SameFor(s, Do(s, a), ref)
  {
  }

  lemma PolicyEndIsLocal(s: State, a: Action)
    requires Enabled(s, a) && (a.FailPolicy? || a.DonePolicy? || a.RemovePolicy?)
    ensures SameTemplates(s, Do(s, a)) && OwnersGrow(s, Do(s, a))
    ensures forall ref :: ref != Changed(a) ==> SameFor(s, Do(s, a), ref)
  {
    hide Enabled;
  }

  lemma OnePolicyIsLocal(s: State, a: Action)
    requires Good(s) && Enabled(s, a) && OnePolicy(a)
    ensures SameTemplates(s, Do(s, a)) && OwnersGrow(s, Do(s, a))
    ensures forall ref :: ref != Changed(a) ==> SameFor(s, Do(s, a), ref)
  {
    hide Good, Enabled, Do, SameTemplates, OwnersGrow, SameFor, Changed;
    if a.PutPolicy? || a.MarkDeleting? {
      PolicyEventIsLocal(s, a);
    } else if a.DequeuePolicy? {
      PolicyStartIsLocal(s, a);
    } else {
      PolicyEndIsLocal(s, a);
    }
  }

  /** Deletion changes neither whether a policy is lazy nor what it selects. */
  lemma DeletingIsHarmless(p: Policy, key: Key, lazy: iset<PolicyRef>)
    requires Harmless(p, key, lazy)
    ensures Harmless(p.(deleting := true), key, lazy)
  {
    assert forall labels :: Selects(p.(deleting := true), key, labels) <==> Selects(p, key, labels);
    hide Selects;
  }

  lemma OnePolicyStaysCalm(s: State, a: Action, key: Key, lazy: iset<PolicyRef>)
    requires CalmPolicies(s, key, lazy) && Enabled(s, a) && OnePolicy(a) && Tame(a, key, lazy)
    ensures CalmPolicies(Do(s, a), key, lazy)
  {
    hide Admitted, Claimable, Matchable;
    if a.MarkDeleting? {
      DeletingIsHarmless(s.policies[a.ref], key, lazy);
    }
    hide Harmless;
  }

  lemma OnePolicyKeepsSafe(s: State, a: Action, key: Key, lazy: iset<PolicyRef>, scans: bool)
    requires Good(s) && Safe(s, key, lazy, scans) && Enabled(s, a) && OnePolicy(a) && Tame(a, key, lazy)
    ensures Safe(Do(s, a), key, lazy, scans)
  {
    OnePolicyIsLocal(s, a);
    assert CalmPolicies(s, key, lazy);
    OnePolicyStaysCalm(s, a, key, lazy);
    OnePolicyPends(s, a);
    hide Do, Enabled, Tame, OnePolicy;
    hide Good, Safe, CalmPolicies, SameTemplates, OwnersGrow, SameFor, Admitted;
    OnePolicyFrame(s, Do(s, a), Changed(a), key, lazy, scans);
  }

  /** The policy is pending afterwards, no candidate, or done with what it had found. */
  lemma OnePolicyPends(s: State, a: Action)
    requires Enabled(s, a) && OnePolicy(a)
    ensures var t, changed := Do(s, a), Changed(a);
      || changed in t.policyQueue || changed !in t.policies
      || (changed in t.policyWorkers && t.policyWorkers[changed] == Fetched(t.policies[changed]))
      || (changed in s.policies && t.policies[changed] == s.policies[changed]
          && changed !in s.policyQueue && changed in s.policyWorkers && s.policyWorkers[changed].Releasing?
          && s.policyWorkers[changed].keys == {})
  {
    hide Admitted;
  }

  /** The waiting list holds no claimed template, so a lazy policy in `lazy` does not find this one there. */
  lemma MatchIsCalm(s: State, a: Action, key: Key, lazy: iset<PolicyRef>)
    requires Good(s) && CalmPolicies(s, key, lazy) && WaitsUnclaimed(s, key) && Enabled(s, a) && a.Match?
    ensures CalmPolicies(Do(s, a), key, lazy)
  {
    var t, p := Do(s, a), s.policyWorkers[a.ref].policy;
    if key in t.policyWorkers[a.ref].keys {
      assert GoodMeta(s.owners, s.templates[key].meta);
      assert Unclaiming(s.templates[key].meta.labels);
      assert Matchable(p, key);
      assert Harmless(p, key, lazy);
    }
    hide Selects, Harmless;
  }

  /** Once a policy has scanned the waiting list, a template it selects is to be released or not there yet. */
  lemma MatchKeepsSafe(s: State, a: Action, key: Key, lazy: iset<PolicyRef>, scans: bool)
    requires Good(s) && Safe(s, key, lazy, scans) && Enabled(s, a) && a.Match? && (scans ==> Scans(a, key))
    ensures Safe(Do(s, a), key, lazy, scans)
  {
    var t := Do(s, a);
    MatchIsCalm(s, a, key, lazy);
    if scans && Loose(t, key) {
      forall ref | ref in t.policies && Candidate(t, ref, key, t.templates[key].meta.labels)
        ensures || Pending(t, ref, key) || Searching(t, ref, key)
          || (Candidate(s, ref, key, t.templates[key].meta.labels) && !Pending(s, ref, key))
      {
        if ref == a.ref && Pending(s, ref, key) && ref !in s.policyQueue {
          assert s.policyWorkers[ref] == Fetched(s.policies[ref]);
          if key in s.waiting {
            assert key in t.policyWorkers[ref].keys;
          } else {
            assert Searching(t, ref, key);
          }
        }
      }
    }
    hide CalmPolicies, Candidate, Good;
    PolicyFrame(s, t, key, lazy, scans);
  }

  lemma ReleaseIsCalm(s: State, a: Action, key: Key, lazy: iset<PolicyRef>)
    requires CalmPolicies(s, key, lazy) && Enabled(s, a) && a.Release?
    ensures CalmPolicies(Do(s, a), key, lazy)
  {
    hide Harmless;
  }

  lemma ReleaseOther(s: State, a: Action, key: Key, lazy: iset<PolicyRef>, scans: bool)
    requires Safe(s, key, lazy, scans) && Enabled(s, a) && a.Release? && a.key != key
    ensures Safe(Do(s, a), key, lazy, scans)
  {
    var t := Do(s, a);
    ReleaseIsCalm(s, a, key, lazy);
    assert Untouched(s, t, key) && OwnersGrow(s, t);
    forall ref | ref in t.policies && Pending(s, ref, key)
      ensures Pending(t, ref, key)
    {
    }
    hide CalmPolicies;
    CalmFrame(s, t, key, lazy);
    KeyFrame(s, t, key, scans);
  }

  lemma ReleaseOwn(s: State, a: Action, key: Key, lazy: iset<PolicyRef>, scans: bool)
    requires Safe(s, key, lazy, scans) && Enabled(s, a) && a.Release? && a.key == key
    ensures Safe(Do(s, a), key, lazy, scans)
  {
    var t := Do(s, a);
    assert !s.policyWorkers[a.ref].policy.isLazy;
    ReleaseIsCalm(s, a, key, lazy);
    assert Q(key) in t.queue;
    hide CalmPolicies, CalmPhase, ClaimOf, Candidate;
  }

  /** Every step keeps what is safe about one template. */
  lemma StepKeepsSafe(s: State, a: Action, key: Key, lazy: iset<PolicyRef>, scans: bool)
    requires Good(s) && Safe(s, key, lazy, scans) && Enabled(s, a) && Tame(a, key, lazy) && (scans ==> Scans(a, key))
    ensures Safe(Do(s, a), key, lazy, scans)
  {
    hide Good, Do, Enabled, Safe, Tame;
    if OnePolicy(a) {
      OnePolicyKeepsSafe(s, a, key, lazy, scans);
    } else if a.Match? {
      MatchKeepsSafe(s, a, key, lazy, scans);
    } else if a.Release? {
      if a.key == key { ReleaseOwn(s, a, key, lazy, scans); } else { ReleaseOther(s, a, key, lazy, scans); }
    } else if KeyOf(a) != key {
      TemplateStepIsLocal(s, a, key);
      OtherStepKeepsSafe(s, Do(s, a), key, lazy, scans);
    } else if ByTemplateWorker(a) {
      WorkerStepKeepsSafe(s, a, key, lazy, scans);
    } else if ByUser(a) {
      UserStepKeepsSafe(s, a, key, lazy, scans);
    } else if a.Refresh? {
      RefreshKeepsSafe(s, a, key, lazy, scans);
    } else if a.Preempt? {
      PreemptKeepsSafe(s, a, key, lazy, scans);
    } else {
      CleanupKeepsSafe(s, a, key, lazy, scans);
    }
  }

  lemma {:induction false} RunKeepsSafe(
      s: State, actions: seq<Action>, t: State, key: Key, lazy: iset<PolicyRef>, scans: bool)
    requires Good(s) && Safe(s, key, lazy, scans) && Runs(s, actions, t)
    requires forall a <- actions :: Tame(a, key, lazy) && (scans ==> Scans(a, key))
    ensures Good(t) && Safe(t, key, lazy, scans)
    decreases |actions|
  {
    if actions != [] {
      assert actions[0] in actions && forall a <- actions[1..] :: a in actions;
      hide Tame, Scans, Good, Safe, Do, Enabled;
      StepKeepsGood(s, actions[0]);
      StepKeepsSafe(s, actions[0], key, lazy, scans);
      RunKeepsSafe(Do(s, actions[0]), actions[1..], t, key, lazy, scans);
    }
  }

  /** As long as no policy name has both a lazy version and one that can claim the template, nor a lazy version that
      can find it waiting, it is not lost: in every reachable state it is claimed, taken over, on the waiting list,
      queued, or in the hands of a worker. Other templates may have lazy policies. */
  lemma NoTemplateIsLost(actions: seq<Action>, t: State, key: Key, lazy: iset<PolicyRef>)
    requires Runs(INIT, actions, t) && forall a <- actions :: Tame(a, key, lazy)
    requires key in t.templates
    ensures
      || ClaimOf(t.templates[key].meta).By?
      || TakenOver(t.templates[key].meta)
      || key in t.waiting
      || Q(key) in t.queue
      || Q(key) in t.workers
  {
    RunKeepsSafe(INIT, actions, t, key, lazy, false);
  }

  /** And it does not wait in vain. When it rests unclaimed, it is on the waiting list, and every live policy that
      selects it has yet to scan that list or is about to release the template from it. */
  lemma NoTemplateWaitsInVain(actions: seq<Action>, t: State, key: Key, ref: PolicyRef, lazy: iset<PolicyRef>)
    requires Runs(INIT, actions, t) && forall a <- actions :: Tame(a, key, lazy) && Scans(a, key)
    requires key in t.templates && ClaimOf(t.templates[key].meta).Unclaimed? && !TakenOver(t.templates[key].meta)
    requires Q(key) !in t.queue && Q(key) !in t.workers
    ensures key in t.waiting
    ensures ref in t.policies && Candidate(t, ref, key, t.templates[key].meta.labels) ==>
      || ref in t.policyQueue
      || (ref in t.policyWorkers && t.policyWorkers[ref] == Fetched(t.policies[ref]))
      || (ref in t.policyWorkers && t.policyWorkers[ref].Releasing? && key in t.policyWorkers[ref].keys)
  {
    RunKeepsSafe(INIT, actions, t, key, lazy, true);
  }
}
