/** Preemption only moves a template upwards, so it comes to an end (pkg/detector/preemption.go). */
module PreemptionOrder {
  import opened FixedWidth
  import opened Policies
  import opened Claims
  import opened Detector
  import opened DetectorInvariants

  /** Cluster policies by priority, and above them all propagation policies by priority. */
  function PolicyRank(p: Policy): (r: nat)
    ensures r > 0
    ensures p.ref.PP? <==> r > 0x1_0000_0000
  {
    (if p.ref.PP? then 0x1_0000_0000 else 0) + 1 + p.ExplicitPriority() - MIN_INT32
  }

  /** No claim, or the claim of a policy that is gone, ranks lowest. */
  function Rank(policies: map<PolicyRef, Policy>, meta: Meta): nat {
    var claim := ClaimOf(meta);
    if claim.By? && claim.ref in policies && policies[claim.ref].ref == claim.ref then PolicyRank(policies[claim.ref]) else 0
  }

  function TemplateRank(s: State, key: Key): nat {
    if key in s.templates then Rank(s.policies, s.templates[key].meta) else 0
  }

  /** Policy workers know the policies as they are. */
  ghost predicate UpToDate(s: State) {
    forall ref <- s.policyWorkers :: ref in s.policies && s.policyWorkers[ref].policy == s.policies[ref]
  }

  predicate KeepsPolicies(a: Action) {
    !a.PutPolicy? && !a.MarkDeleting? && !a.RemovePolicy?
  }

  /** Steps that take a claim away: the policy is deleted or has stopped selecting the template, or the template
      is deleted or taken over. */
  predicate Releases(a: Action, key: Key) {
    (a.RemoveUnmatched? || a.CleanupClaim? || a.DeleteTemplate? || a.TakeOver?) && a.key == key
  }

  /** A preemption attempt by a worker that holds a policy as it no longer is. */
  predicate Outdated(s: State, a: Action, key: Key) {
    && a.Preempt? && a.key == key && a.ref in s.policyWorkers
    && !(a.ref in s.policies && s.policyWorkers[a.ref].policy == s.policies[a.ref])
  }

  /** What can lower the rank of a template while the policies stay as they are. */
  predicate Disturbs(s: State, a: Action, key: Key) {
    Releases(a, key) || Outdated(s, a, key)
  }

  predicate Preempts(s: State, a: Action, key: Key) {
    && a.Preempt? && a.key == key && key in s.templates && a.ref in s.policyWorkers
    && Preempted(s.policies, s.templates[key].meta, s.policyWorkers[a.ref].policy) != s.templates[key].meta
  }

  /** Exactly when a policy takes over a claimed template: it ranks above the claiming policy, and that policy
      exists or is a cluster policy that a propagation policy displaces unseen. */
  lemma PreemptedExactly(s: State, meta: Meta, p: Policy)
    requires Good(s) && GoodMeta(s.owners, meta) && p.ref in s.policies && s.policies[p.ref] == p
    ensures Preempted(s.policies, meta, p) != meta <==>
      && ClaimOf(meta).By? && Rank(s.policies, meta) < PolicyRank(p)
      && (ClaimOf(meta).ref in s.policies || (ClaimOf(meta).ref.CPP? && p.ref.PP?))
    ensures Preempted(s.policies, meta, p) != meta ==>
      Rank(s.policies, Preempted(s.policies, meta, p)) == PolicyRank(p)
  {
    assert GoodPolicy(s.owners, p.ref, p);
    PreemptedIsGood(s, meta, p);
    if ClaimOf(meta).By? {
      var ref := ClaimOf(meta).ref;
      assert ref in s.policies ==> GoodPolicy(s.owners, ref, s.policies[ref]);
      if p.ref.PP? || HasWholeCPP(meta) {
        ClaimedIsGood(s.owners, meta, p);
      }
      if ref != p.ref {
        assert ClaimOf(meta) != By(p.ref, p.id);
      }
    }
  }

  /** A takeover read off the policies. Between policies of one kind it happens exactly if the claiming policy exists
      and has the lower priority, where a missing one counts as zero; a propagation policy always takes over from a
      cluster policy, and a cluster policy never from a propagation policy; nothing happens to an unclaimed template. */
  lemma TakeoverByPriority(s: State, meta: Meta, p: Policy)
    requires Good(s) && GoodMeta(s.owners, meta) && p.ref in s.policies && s.policies[p.ref] == p
    ensures var after := Preempted(s.policies, meta, p);
      && (ClaimOf(meta).Unclaimed? ==> after == meta)
      && (ClaimOf(meta).By? ==>
           var ref := ClaimOf(meta).ref;
           && (ref.PP? == p.ref.PP? ==>
                (after != meta <==>
                  && ref in s.policies
                  && (if s.policies[ref].priority.Some? then s.policies[ref].priority.value else 0)
                    < (if p.priority.Some? then p.priority.value else 0)))
           && (ref.CPP? && p.ref.PP? ==> after != meta)
           && (ref.PP? && p.ref.CPP? ==> after == meta)
           && (after != meta ==> ClaimOf(after) == By(p.ref, p.id)))
  {
    PreemptedIsGood(s, meta, p);
    assert GoodPolicy(s.owners, p.ref, p);
    if ClaimOf(meta).By? {
      var ref := ClaimOf(meta).ref;
      assert ref in s.policies ==> GoodPolicy(s.owners, ref, s.policies[ref]);
      if p.ref.PP? || HasWholeCPP(meta) {
        ClaimedIsGood(s.owners, meta, p);
      }
      if ref != p.ref {
        assert ClaimOf(meta) != By(p.ref, p.id);
      }
    }
  }

  predicate SamePolicies(s: State, t: State) {
    t.policies == s.policies && t.policyWorkers == s.policyWorkers
  }

  lemma WorkerMoveIsLocal(s: State, a: Action)
    requires a.Dequeue? || a.ReadObject? || a.Fail? || a.Drop? || a.Settle?
    ensures SamePolicies(s, Do(s, a)) && Do(s, a).templates == s.templates
  {
  }

  lemma WorkerSearchIsLocal(s: State, a: Action)
    requires a.FollowClaim? || a.LookForPolicy? || a.LookForClusterPolicy?
    ensures SamePolicies(s, Do(s, a)) && Do(s, a).templates == s.templates
  {
    hide Selects, ClaimOf;
    match a
    case FollowClaim(q) => assert Do(s, a) == DoFollowClaim(s, q);
    case LookForPolicy(q, found) => assert Do(s, a) == DoLook(s, q, found, true);
    case LookForClusterPolicy(q, found) => assert Do(s, a) == DoLook(s, q, found, false);
  }

  lemma ApplyIsLocal(s: State, q: QueueKey, byKarmada: bool, written: bool)
    ensures SamePolicies(s, DoApply(s, q, byKarmada, written))
  {
    hide Claimed, AlreadyClaimed;
  }

  lemma ReleaseDanglingIsLocal(s: State, q: QueueKey, byKarmada: bool)
    ensures SamePolicies(s, DoReleaseDangling(s, q, byKarmada))
  {
    hide ClaimOf, Cleanup;
  }

  lemma WorkerWriteIsLocal(s: State, a: Action)
    requires a.ReleaseDangling? || a.Apply?
    ensures SamePolicies(s, Do(s, a))
  {
    hide DoApply, DoReleaseDangling;
    match a
    case ReleaseDangling(q, byKarmada) =>
      ReleaseDanglingIsLocal(s, q, byKarmada);
      assert Do(s, a) == DoReleaseDangling(s, q, byKarmada);
    case Apply(q, byKarmada, written) =>
      ApplyIsLocal(s, q, byKarmada, written);
      assert Do(s, a) == DoApply(s, q, byKarmada, written);
  }

  lemma UserWriteIsLocal(s: State, a: Action)
    requires a.CreateTemplate? || a.EditTemplate? || a.DeleteTemplate? || a.TakeOver?
    ensures SamePolicies(s, Do(s, a))
  {
  }

  lemma PolicyWriteIsLocal(s: State, a: Action)
    requires a.RemoveUnmatched? || a.Refresh? || a.Preempt? || a.CleanupClaim?
    ensures SamePolicies(s, Do(s, a))
  {
    hide Preempted, Cleanup;
  }

  lemma StepKeepsUpToDate(s: State, a: Action)
    requires Enabled(s, a) && KeepsPolicies(a)
    ensures Do(s, a).policies == s.policies
    ensures UpToDate(s) ==> UpToDate(Do(s, a))
  {
    if a.DequeuePolicy? || a.Match? || a.Release? {
      PolicyMoveIsLocal(s, a);
    } else if a.FailPolicy? || a.DonePolicy? {
      PolicyStepIsLocal(s, a);
    } else if a.ReleaseDangling? || a.Apply? {
      WorkerWriteIsLocal(s, a);
    } else if a.CreateTemplate? || a.EditTemplate? || a.DeleteTemplate? || a.TakeOver? {
      UserWriteIsLocal(s, a);
    } else if a.RemoveUnmatched? || a.Refresh? || a.Preempt? || a.CleanupClaim? {
      PolicyWriteIsLocal(s, a);
    } else if a.FollowClaim? || a.LookForPolicy? || a.LookForClusterPolicy? {
      WorkerSearchIsLocal(s, a);
    } else {
      WorkerMoveIsLocal(s, a);
    }
    hide Enabled;
  }

  lemma OtherWritesMissIt(s: State, a: Action, key: Key)
    requires key in s.templates
    requires a.CreateTemplate? || a.EditTemplate? || a.DeleteTemplate? || a.TakeOver? || a.RemoveUnmatched? || a.Preempt?
      || a.CleanupClaim?
    requires a.key != key
    ensures key in Do(s, a).templates && Do(s, a).templates[key] == s.templates[key]
  {
    hide Selects, Names, Chosen, FlagAllowed, Preempted, Claimed, AlreadyClaimed, Cleanup, ClaimOf, TakenOver, SameClaim;
  }

  /** Steps that do not write the template. */
  lemma OtherStepsWriteNothing(s: State, a: Action, key: Key)
    requires Enabled(s, a) && key in s.templates && KeepsPolicies(a)
    requires !(a.Preempt? && a.key == key) && !(a.EditTemplate? && a.key == key)
    requires !a.Apply? && !a.ReleaseDangling? && !Releases(a, key)
    ensures key in Do(s, a).templates && Do(s, a).templates[key] == s.templates[key]
  {
    if a.DequeuePolicy? || a.Match? || a.Release? {
      PolicyMoveIsLocal(s, a);
    } else if a.FailPolicy? || a.DonePolicy? || a.Refresh? {
      PolicyStepIsLocal(s, a);
    } else if a.CreateTemplate? || a.EditTemplate? || a.DeleteTemplate? || a.TakeOver? || a.RemoveUnmatched? || a.Preempt?
              || a.CleanupClaim? {
      OtherWritesMissIt(s, a, key);
    } else if a.FollowClaim? || a.LookForPolicy? || a.LookForClusterPolicy? {
      WorkerSearchIsLocal(s, a);
    } else {
      WorkerMoveIsLocal(s, a);
    }
    hide Do;
  }

  lemma WriteStores(s: State, written: Key, meta: Meta, byKarmada: bool, key: Key)
    requires key in s.templates
    ensures var t := Write(s, written, meta, byKarmada);
      && t.policies == s.policies && key in t.templates
      && t.templates[key].meta == if key == written then meta else s.templates[key].meta
  {
  }

  lemma ApplyWrites(s: State, q: QueueKey, byKarmada: bool, written: bool, key: Key)
    requires q in s.workers && s.workers[q].Applying? && s.workers[q].object_.Some? && key in s.templates
    ensures var t, p, meta := DoApply(s, q, byKarmada, written), s.workers[q].policy, ObjectMeta(s, q);
      && t.policies == s.policies && key in t.templates
      && t.templates[key].meta ==
        if key == q.key && !AlreadyClaimed(meta, p) then Claimed(meta, p) else s.templates[key].meta
  {
    WriteStores(s, q.key, Claimed(ObjectMeta(s, q), s.workers[q].policy), byKarmada, key);
    hide Claimed, AlreadyClaimed, Write, ObjectMeta;
  }

  lemma ApplyKeepsRank(s: State, a: Action, key: Key)
    requires Good(s) && Enabled(s, a) && a.Apply? && key in s.templates
    ensures TemplateRank(s, key) <= TemplateRank(Do(s, a), key)
  {
    var q := a.q;
    assert GoodPhase(s, q.key, s.workers[q]);
    var p, meta := s.workers[q].policy, ObjectMeta(s, q);
    ClaimedIsGood(s.owners, meta, p);
    assert Do(s, a) == DoApply(s, q, a.byKarmada, a.bindingWritten);
    assert key == q.key && !AlreadyClaimed(meta, p) ==> s.templates[key].meta == meta;
    hide Claimed, AlreadyClaimed, FlagAllowed, Good, GoodPhase, Do, DoApply, Enabled;
    ApplyWrites(s, q, a.byKarmada, a.bindingWritten, key);
  }

  lemma ReleaseDanglingKeepsRank(s: State, a: Action, key: Key)
    requires Good(s) && Enabled(s, a) && a.ReleaseDangling?
    ensures TemplateRank(s, key) <= TemplateRank(Do(s, a), key)
  {
    var q := a.q;
    assert GoodPhase(s, q.key, s.workers[q]);
    var claim, meta := ClaimOf(ObjectMeta(s, q)), s.templates[q.key].meta;
    assert GoodMeta(s.owners, meta);
    if meta.Label(IDLabel(claim.ref)) == claim.id {
      assert ClaimOf(meta) == claim;
    }
  }

  /** While the policies stay as they are, every step takes the claim away altogether, or is an attempt with an
      outdated policy, or leaves the template's rank at least where it was, and then a preemption raises it. */
  lemma RankOnlyRises(s: State, a: Action, key: Key)
    requires Good(s) && Enabled(s, a) && KeepsPolicies(a)
    requires !Disturbs(s, a, key)
    ensures TemplateRank(s, key) <= TemplateRank(Do(s, a), key)
    ensures Preempts(s, a, key) ==> TemplateRank(s, key) < TemplateRank(Do(s, a), key)
  {
    StepKeepsUpToDate(s, a);
    if key in s.templates {
      var meta := s.templates[key].meta;
      assert GoodMeta(s.owners, meta);
      if a.Apply? {
        ApplyKeepsRank(s, a, key);
      } else if a.ReleaseDangling? {
        ReleaseDanglingKeepsRank(s, a, key);
      } else if a.Preempt? && a.key == key {
        assert GoodPolicy(s.owners, a.ref, s.policies[a.ref]);
        PreemptedExactly(s, meta, s.policyWorkers[a.ref].policy);
      } else if a.EditTemplate? && a.key == key {
        SameClaimIsGood(s.owners, meta, a.meta);
      } else {
        OtherStepsWriteNothing(s, a, key);
      }
    }
  }

  /** The ranks that a claim can have. */
  function Ranks(policies: map<PolicyRef, Policy>): set<nat> {
    set ref | ref in policies && policies[ref].ref == ref :: PolicyRank(policies[ref])
  }

  function Above(ranks: set<nat>, r: nat): set<nat> {
    set x | x in ranks && x > r
  }

  function Preemptions(s: State, actions: seq<Action>, key: Key): nat
    decreases |actions|
  {
    if actions == [] then 0
    else (if Preempts(s, actions[0], key) then 1 else 0) + Preemptions(Do(s, actions[0]), actions[1..], key)
  }

  function Released(actions: seq<Action>, key: Key): nat
    decreases |actions|
  {
    if actions == [] then 0 else (if Releases(actions[0], key) then 1 else 0) + Released(actions[1..], key)
  }

  function OutdatedAttempts(s: State, actions: seq<Action>, key: Key): nat
    decreases |actions|
  {
    if actions == [] then 0
    else (if Outdated(s, actions[0], key) then 1 else 0) + OutdatedAttempts(Do(s, actions[0]), actions[1..], key)
  }

  /** What is counted, step by step: the policy workers' steps that change the metadata of the template although they do
      not take its claim away, the steps that do take it away, and the attempts with a policy that is not as it was read. */
  lemma CountsMean(s: State, a: Action, rest: seq<Action>, key: Key)
    requires Enabled(s, a)
    ensures Preemptions(s, [a] + rest, key) == Preemptions(Do(s, a), rest, key) +
      if a.Preempt? && a.key == key && Do(s, a).templates[key].meta != s.templates[key].meta then 1 else 0
    ensures Released([a] + rest, key) == Released(rest, key) +
      if (a.RemoveUnmatched? || a.CleanupClaim? || a.DeleteTemplate? || a.TakeOver?) && a.key == key then 1 else 0
    ensures OutdatedAttempts(s, [a] + rest, key) == OutdatedAttempts(Do(s, a), rest, key) +
      if a.Preempt? && a.key == key
         && !(a.ref in s.policies && s.policyWorkers[a.ref].policy == s.policies[a.ref]) then 1 else 0
    ensures Preemptions(s, [], key) == Released([], key) == OutdatedAttempts(s, [], key) == 0
  {
    assert ([a] + rest)[0] == a && ([a] + rest)[1..] == rest;
    hide Preempted, Names, FlagAllowed, Selects;
  }

  /** Workers that know the policies as they are make no outdated attempts. */
  lemma {:induction false} UpToDateAttempts(s: State, actions: seq<Action>, t: State, key: Key)
    requires UpToDate(s) && Runs(s, actions, t) && forall a <- actions :: KeepsPolicies(a)
    ensures OutdatedAttempts(s, actions, key) == 0
    decreases |actions|
  {
    if actions != [] {
      assert !Outdated(s, actions[0], key);
      StepKeepsUpToDate(s, actions[0]);
      UpToDateAttempts(Do(s, actions[0]), actions[1..], t, key);
    }
  }

  lemma {:induction false} RunKeepsPolicies(s: State, actions: seq<Action>, t: State)
    requires Runs(s, actions, t) && forall a <- actions :: KeepsPolicies(a)
    ensures t.policies == s.policies
    decreases |actions|
  {
    if actions != [] {
      StepKeepsUpToDate(s, actions[0]);
      RunKeepsPolicies(Do(s, actions[0]), actions[1..], t);
    }
  }

  /** While a template keeps its claim, its rank never falls over a whole run: no ping-pong. */
  lemma {:induction false} RunRankOnlyRises(s: State, actions: seq<Action>, t: State, key: Key)
    requires Good(s) && Runs(s, actions, t) && OutdatedAttempts(s, actions, key) == 0
    requires forall a <- actions :: KeepsPolicies(a) && !Releases(a, key)
    ensures TemplateRank(s, key) <= TemplateRank(t, key)
    ensures Preemptions(s, actions, key) > 0 ==> TemplateRank(s, key) < TemplateRank(t, key)
    decreases |actions|
  {
    if actions != [] {
      var next := Do(s, actions[0]);
      StepKeepsGood(s, actions[0]);
      StepKeepsUpToDate(s, actions[0]);
      RankOnlyRises(s, actions[0], key);
      RunRankOnlyRises(next, actions[1..], t, key);
    }
  }

  lemma AboveShrinks(ranks: set<nat>, low: nat, high: nat)
    requires low <= high
    ensures |Above(ranks, high)| <= |Above(ranks, low)| <= |ranks|
    ensures low < high && high in ranks ==> |Above(ranks, high)| < |Above(ranks, low)|
  {
    var higher, lower := Above(ranks, high), Above(ranks, low);
    Cardinality(higher, lower);
    Cardinality(lower, ranks);
    if low < high && high in ranks {
      Cardinality(higher + {high}, lower);
    }
  }

  lemma {:induction false} Cardinality(a: set<nat>, b: set<nat>)
    requires a <= b
    ensures |a| <= |b|
  {
    if a != {} {
      var x :| x in a;
      Cardinality(a - {x}, b - {x});
    }
  }

  lemma PreemptedRankIsARank(s: State, a: Action, key: Key)
    requires Good(s) && Enabled(s, a) && Preempts(s, a, key) && !Outdated(s, a, key)
    ensures TemplateRank(Do(s, a), key) in Ranks(s.policies)
  {
    assert GoodMeta(s.owners, s.templates[key].meta);
    assert GoodPolicy(s.owners, a.ref, s.policies[a.ref]);
    PreemptedExactly(s, s.templates[key].meta, s.policyWorkers[a.ref].policy);
    assert TemplateRank(Do(s, a), key) == PolicyRank(s.policies[a.ref]);
  }

  /** How far a template can still rise. */
  function Headroom(s: State, key: Key): nat {
    |Above(Ranks(s.policies), TemplateRank(s, key))|
  }

  /** How much headroom a step can restore, out of `n` ranks. An outdated preemption counts itself as well. */
  function Restores(s: State, a: Action, key: Key, n: nat): nat {
    if Releases(a, key) then n else if Outdated(s, a, key) then n + 1 else 0
  }

  lemma UndisturbedUsesHeadroom(s: State, a: Action, key: Key)
    requires Good(s) && Enabled(s, a) && KeepsPolicies(a) && !Disturbs(s, a, key) && Do(s, a).policies == s.policies
    ensures (if Preempts(s, a, key) then 1 else 0) + Headroom(Do(s, a), key) <= Headroom(s, key)
  {
    var before, after, ranks := TemplateRank(s, key), TemplateRank(Do(s, a), key), Ranks(s.policies);
    RankOnlyRises(s, a, key);
    if Preempts(s, a, key) {
      PreemptedRankIsARank(s, a, key);
    }
    hide Good, Enabled, KeepsPolicies, Disturbs, Preempts, Outdated, TemplateRank, Ranks, Above, Do;
    AboveShrinks(ranks, before, after);
  }

  /** A step that preempts the template uses up headroom; only a release or an outdated attempt can restore it. */
  lemma StepUsesHeadroom(s: State, a: Action, key: Key)
    requires Good(s) && Enabled(s, a) && KeepsPolicies(a)
    ensures (if Preempts(s, a, key) then 1 else 0) + Headroom(Do(s, a), key) <=
      Headroom(s, key) + Restores(s, a, key, |Ranks(s.policies)|)
  {
    assert Preempts(s, a, key) ==> !Releases(a, key);
    StepKeepsUpToDate(s, a);
    hide Good, Enabled, KeepsPolicies, Preempts, Outdated, Releases, TemplateRank, Ranks, Above, Do;
    if Disturbs(s, a, key) {
      AboveShrinks(Ranks(s.policies), 0, TemplateRank(Do(s, a), key));
    } else {
      UndisturbedUsesHeadroom(s, a, key);
    }
  }

  function Restored(s: State, actions: seq<Action>, key: Key, n: nat): nat
    decreases |actions|
  {
    if actions == [] then 0
    else Restores(s, actions[0], key, n) + Restored(Do(s, actions[0]), actions[1..], key, n)
  }

  lemma {:induction false} RestoredIsProduct(s: State, actions: seq<Action>, key: Key, n: nat)
    ensures Restored(s, actions, key, n) == n * Released(actions, key) + (n + 1) * OutdatedAttempts(s, actions, key)
    decreases |actions|
  {
    if actions != [] {
      var a, next, rest := actions[0], Do(s, actions[0]), actions[1..];
      assert !(Releases(a, key) && Outdated(s, a, key));
      hide Releases, Outdated, Do;
      RestoredIsProduct(next, rest, key, n);
      Distributes(n, 1, Released(rest, key));
      Distributes(n + 1, 1, OutdatedAttempts(next, rest, key));
    }
  }

  lemma {:induction false} RunUsesHeadroom(s: State, actions: seq<Action>, t: State, key: Key)
    requires Good(s) && Runs(s, actions, t)
    requires forall a <- actions :: KeepsPolicies(a)
    ensures Preemptions(s, actions, key) <= Headroom(s, key) + Restored(s, actions, key, |Ranks(s.policies)|)
    decreases |actions|
  {
    hide Good, Enabled, Do, Headroom, Ranks, Preempts, Restores, KeepsPolicies;
    if actions != [] {
      var a := actions[0];
      StepKeepsGood(s, a);
      StepKeepsUpToDate(s, a);
      StepUsesHeadroom(s, a, key);
      RunUsesHeadroom(Do(s, a), actions[1..], t, key);
    }
  }

  /** While the policies stay as they are, a template is preempted at most once for each distinct rank, counted
      anew each time its claim is taken away altogether or a worker with an outdated policy tries to preempt it. */
  lemma PreemptionsAreBounded(s: State, actions: seq<Action>, t: State, key: Key)
    requires Good(s) && Runs(s, actions, t)
    requires forall a <- actions :: KeepsPolicies(a)
    ensures Preemptions(s, actions, key) <= Headroom(s, key)
      + |Ranks(s.policies)| * Released(actions, key) + (|Ranks(s.policies)| + 1) * OutdatedAttempts(s, actions, key)
    ensures UpToDate(s) ==> OutdatedAttempts(s, actions, key) == 0
    ensures Headroom(s, key) <= |Ranks(s.policies)| <= |s.policies|
  {
    hide *;
    HeadroomIsBounded(s, key);
    if UpToDate(s) {
      UpToDateAttempts(s, actions, t, key);
    }
    RunIsBounded(s, actions, t, key, |Ranks(s.policies)|);
  }

  lemma RunIsBounded(s: State, actions: seq<Action>, t: State, key: Key, n: nat)
    requires Good(s) && Runs(s, actions, t) && n == |Ranks(s.policies)|
    requires forall a <- actions :: KeepsPolicies(a)
    ensures Preemptions(s, actions, key) <=
      Headroom(s, key) + n * Released(actions, key) + (n + 1) * OutdatedAttempts(s, actions, key)
  {
    hide *;
    RunUsesHeadroom(s, actions, t, key);
    RestoredIsProduct(s, actions, key, n);
  }

  lemma HeadroomIsBounded(s: State, key: Key)
    ensures Headroom(s, key) <= |Ranks(s.policies)| <= |s.policies|
  {
    AboveShrinks(Ranks(s.policies), 0, TemplateRank(s, key));
    RanksAreFew(s.policies, s.policies.Keys);
    assert Ranks(s.policies) == RanksOf(s.policies, s.policies.Keys);
    assert |s.policies| == |s.policies.Keys|;
  }

  function RanksOf(policies: map<PolicyRef, Policy>, refs: set<PolicyRef>): set<nat> {
    set ref | ref in refs && ref in policies && policies[ref].ref == ref :: PolicyRank(policies[ref])
  }

  lemma {:induction false} RanksAreFew(policies: map<PolicyRef, Policy>, refs: set<PolicyRef>)
    ensures |RanksOf(policies, refs)| <= |refs|
  {
    if refs != {} {
      var ref :| ref in refs;
      RanksAreFew(policies, refs - {ref});
      var own := if ref in policies && policies[ref].ref == ref then {PolicyRank(policies[ref])} else {};
      assert RanksOf(policies, refs) == RanksOf(policies, refs - {ref}) + own;
    }
  }
}
