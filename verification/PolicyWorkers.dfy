/** The detector's policy worker as it is written: each turn is a run of the protocol (pkg/detector/detector.go,
    policy.go, preemption.go). */
module PolicyWorkers {
  import opened Collections
  import opened Wrappers
  import opened Policies
  import opened Claims
  import opened Detector
  import opened DetectorInvariants
  import opened DetectorWorkers
  import opened PreemptionOrder
  import opened ProtocolRuns

  /** What can go wrong outside the detector while it handles a policy, template by template. */
  datatype Attempt = Attempt(
    unreadable: set<Key>, dependentsMissing: bool, updateFails: set<Key>, bindingFails: set<Key>,
    eventByKarmada: bool)  // how the event of a write is flagged if a lazy policy has claimed the template

  /** Halfway through a policy. */
  ghost predicate Handling(s: State, policy: Policy) {
    && Good(s) && policy.ref in s.policies && s.policies[policy.ref] == policy && !policy.deleting
    && policy.ref in s.policyWorkers && s.policyWorkers[policy.ref].policy == policy
  }

  lemma StepGoesOn(s: State, a: Action, t: State, policy: Policy)
    requires Handling(s, policy) && StepOf(a, PolicyWorker(policy.ref, true)) && Enabled(s, a) && t == Do(s, a)
    requires t.policies == s.policies && policy.ref in t.policyWorkers && t.policyWorkers[policy.ref].policy == policy
    ensures Handling(t, policy) && Works(s, t, PolicyWorker(policy.ref, true))
  {
    hide Good, Enabled, Do, StepOf, Works;
    StepKeepsGood(s, a);
    OneStep(s, a, t, PolicyWorker(policy.ref, true));
  }

  lemma StepStaysHandling(s: State, a: Action, t: State, policy: Policy)
    requires Handling(s, policy) && StepOf(a, PolicyWorker(policy.ref, true)) && Enabled(s, a) && t == Do(s, a)
    requires t.policies == s.policies && t.policyWorkers == s.policyWorkers
    ensures Handling(t, policy) && Works(s, t, PolicyWorker(policy.ref, true))
  {
    hide Good, Enabled, Do, StepOf, Works;
    StepGoesOn(s, a, t, policy);
  }

  /** `GetMatching`: the waiting keys whose templates can be read and match a selector, each once. */
  method GetMatching(d: ResourceDetector, policy: Policy, unreadable: set<Key>) returns (matchedResult: seq<Key>)
    ensures NoDuplicates(matchedResult)
    ensures forall key :: key in matchedResult <==>
      && key in d.waitingObjects && key !in unreadable && key in d.templates
      && Selects(policy, key, d.templates[key].meta.labels)
  {
    matchedResult := [];
    var waitKeys := d.waitingObjects;
    while waitKeys != {}
      invariant waitKeys <= d.waitingObjects && NoDuplicates(matchedResult)
      invariant forall key :: key in matchedResult <==>
        && key in d.waitingObjects && key !in waitKeys && key !in unreadable && key in d.templates
        && Selects(policy, key, d.templates[key].meta.labels)
    {
      var waitKey :| waitKey in waitKeys;
      waitKeys := waitKeys - {waitKey};
      if waitKey in unreadable || waitKey !in d.templates {
        continue;
      }
      var matches := MatchesSome(policy.selectors, waitKey, d.templates[waitKey].meta.labels);
      hide Selects;
      if matches {
        matchedResult := matchedResult + [waitKey];
      }
    }
  }

  /** `ResourceMatchSelectors`. */
  method MatchesSome(selectors: seq<ResourceSelector>, key: Key, labels: map<LabelKey, string>) returns (matches: bool)
    ensures matches <==> exists rs <- selectors :: ResourceSelectorPriority(key, labels, rs) > MISMATCH
  {
    for i := 0 to |selectors|
      invariant forall rs <- selectors[..i] :: ResourceSelectorPriority(key, labels, rs) == MISMATCH
    {
      if ResourceSelectorPriority(key, labels, selectors[i]) > MISMATCH {
        return true;
      }
    }
    assert selectors[..|selectors|] == selectors;
    return false;
  }

  /** The binding carries the policy's ID, but the policy does not select the template any more. */
  predicate Unmatched(s: State, policy: Policy, key: Key) {
    MarkOf(key, policy) in s.bound && key in s.templates && !Selects(policy, key, s.templates[key].meta.labels)
  }

  /** What is to become of a template. */
  function CleanedMeta(s: State, policy: Policy, key: Key, attempt: Attempt): Meta
    requires key in s.templates
  {
    var meta := s.templates[key].meta;
    if Unmatched(s, policy, key) && key !in attempt.unreadable && key !in attempt.updateFails
    then Cleanup(meta, policy.ref) else meta
  }

  /** Whether the binding is cleaned up, too. */
  predicate Forgotten(s: State, policy: Policy, key: Key, attempt: Attempt) {
    && Unmatched(s, policy, key)
    && key !in attempt.unreadable && key !in attempt.updateFails && key !in attempt.bindingFails
  }

  /** Whether all goes well with the template. */
  predicate Fine(s: State, policy: Policy, key: Key, attempt: Attempt) {
    key !in attempt.unreadable && (Unmatched(s, policy, key) ==> Forgotten(s, policy, key, attempt))
  }

  /** The state once one template is cleaned up. */
  function CleanedUp(s: State, policy: Policy, key: Key, attempt: Attempt): State {
    if Unmatched(s, policy, key) then
      Write(s.(bound := if Forgotten(s, policy, key, attempt) then s.bound - {MarkOf(key, policy)} else s.bound), key,
            CleanedMeta(s, policy, key, attempt), false)
    else s
  }

  lemma UnmatchedStep(s: State, policy: Policy, key: Key, attempt: Attempt)
    requires Handling(s, policy) && s.policyWorkers[policy.ref].Fetched? && Unmatched(s, policy, key)
    requires key !in attempt.unreadable && key !in attempt.updateFails
    ensures var a := RemoveUnmatched(policy.ref, key, false, key !in attempt.bindingFails);
      Enabled(s, a) && Do(s, a) == CleanedUp(s, policy, key, attempt)
  {
    hide Selects, Cleanup, Write, Good, ClaimOf;
    var a := RemoveUnmatched(policy.ref, key, false, key !in attempt.bindingFails);
    assert Do(s, a) == DoCleanup(s, policy.ref, key, false, a.bindingWritten);
    assert s.bound - {} == s.bound;
  }

  /** `removeResourceClaimMetadataIfNotMatched`, and the update of the binding. */
  method RemoveClaimMetadataIfNotMatched(d: ResourceDetector, policy: Policy, key: Key, attempt: Attempt)
    returns (ok: bool)
    requires Handling(d.Now(), policy) && d.policyWorkers[policy.ref].Fetched? && MarkOf(key, policy) in d.bound
    modifies d`templates, d`nextVersion, d`queue, d`bound
    ensures Handling(d.Now(), policy) && Works(old(d.Now()), d.Now(), PolicyWorker(policy.ref, true))
    ensures d.Now() == CleanedUp(old(d.Now()), policy, key, attempt)
    ensures ok <==> Fine(old(d.Now()), policy, key, attempt)
  {
    ghost var start := d.Now();
    NoStep(start, PolicyWorker(policy.ref, true));
    if key in attempt.unreadable || key in attempt.updateFails || !Unmatched(start, policy, key) {
      NothingWritten(start, policy, key, attempt);
    }
    hide Good, Works, ClaimOf, Write, Handling;
    if key in attempt.unreadable {
      return false;
    }
    if key !in d.templates {
      return true;
    }
    var matches := MatchesSome(policy.selectors, key, d.templates[key].meta.labels);
    assert matches <==> Selects(policy, key, d.templates[key].meta.labels);
    hide Selects;
    if matches {
      return true;
    }
    if key in attempt.updateFails {
      return false;
    }
    UnmatchedStep(start, policy, key, attempt);
    hide Enabled, Do;
    WriteCleaned(d, policy, key, key in attempt.bindingFails);
    StepStaysOn(start, RemoveUnmatched(policy.ref, key, false, key !in attempt.bindingFails), d.Now(), policy);
    return key !in attempt.bindingFails;
  }

  lemma StepStaysOn(s: State, a: Action, t: State, policy: Policy)
    requires Handling(s, policy) && StepOf(a, PolicyWorker(policy.ref, true)) && Enabled(s, a) && t == Do(s, a)
    requires a.RemoveUnmatched?
    ensures Handling(t, policy) && Works(s, t, PolicyWorker(policy.ref, true))
  {
    assert Do(s, a) == DoCleanup(s, a.ref, a.key, a.byKarmada, a.bindingWritten);
    assert t.policies == s.policies && t.policyWorkers == s.policyWorkers;
    hide Good, Enabled, Do, StepOf, Works, Write, Cleanup;
    StepStaysHandling(s, a, t, policy);
  }

  lemma NothingWritten(s: State, policy: Policy, key: Key, attempt: Attempt)
    requires key in attempt.unreadable || key in attempt.updateFails || !Unmatched(s, policy, key)
    ensures CleanedUp(s, policy, key, attempt) == s
  {
    hide Selects;
  }

  /** Writes the template, and the binding unless that fails. */
  method WriteCleaned(d: ResourceDetector, policy: Policy, key: Key, bindingFails: bool)
    requires key in d.templates
    modifies d`templates, d`nextVersion, d`queue, d`bound
    ensures d.Now() == Write(
      old(d.Now()).(bound := if bindingFails then old(d.bound) else old(d.bound) - {MarkOf(key, policy)}), key,
      Cleanup(old(d.templates[key].meta), policy.ref), false)
  {
    var object_ := new Object(d.templates[key].meta);
    if policy.ref.PP? {
      object_.CleanupPP();
    } else {
      object_.CleanupCPP();
    }
    hide Cleanup, Write;
    if !bindingFails {
      d.bound := d.bound - {MarkOf(key, policy)};
    }
    d.UpdateTemplate(key, object_.Value(), false);
  }

  /** `listPPDerivedRBs` and its cluster twin: the templates whose bindings carry the ID, each once. */
  method ListDerived(d: ResourceDetector, policy: Policy) returns (keys: seq<Key>)
    ensures NoDuplicates(keys) && forall key :: key in keys <==> MarkOf(key, policy) in d.bound
  {
    keys := [];
    var rest := d.bound;
    while rest != {}
      invariant rest <= d.bound && NoDuplicates(keys)
      invariant forall key :: key in keys <==> MarkOf(key, policy) in d.bound && MarkOf(key, policy) !in rest
    {
      var mark :| mark in rest;
      rest := rest - {mark};
      if mark.labelKey == IDLabel(policy.ref) && mark.id == policy.id {
        assert mark == MarkOf(mark.key, policy);
        keys := keys + [mark.key];
      }
    }
  }

  /** The templates in `done` are cleaned up, with their bindings, and all others are as they were. */
  ghost predicate Cleaned(s: State, t: State, policy: Policy, attempt: Attempt, done: set<Key>) {
    && t.templates.Keys == s.templates.Keys
    && (forall key <- s.templates ::
         t.templates[key].meta == if key in done then CleanedMeta(s, policy, key, attempt) else s.templates[key].meta)
    && (forall m: Mark :: m in t.bound <==>
         m in s.bound && !(m == MarkOf(m.key, policy) && m.key in done && Forgotten(s, policy, m.key, attempt)))
  }

  lemma CleanedUpIs(t: State, policy: Policy, key: Key, attempt: Attempt)
    ensures var u := CleanedUp(t, policy, key, attempt);
      && u.templates.Keys == t.templates.Keys
      && (forall k <- t.templates ::
           u.templates[k].meta == if k == key then CleanedMeta(t, policy, key, attempt) else t.templates[k].meta)
      && u.bound == if Forgotten(t, policy, key, attempt) then t.bound - {MarkOf(key, policy)} else t.bound
  {
    if Unmatched(t, policy, key) {
      var bound := if Forgotten(t, policy, key, attempt) then t.bound - {MarkOf(key, policy)} else t.bound;
      OneWritten(t.(bound := bound), key, CleanedMeta(t, policy, key, attempt), false);
    }
    hide Selects, Cleanup, Write;
  }

  lemma SameCleaning(s: State, t: State, policy: Policy, attempt: Attempt, done: set<Key>, key: Key)
    requires Cleaned(s, t, policy, attempt, done) && key !in done
    ensures Unmatched(t, policy, key) <==> Unmatched(s, policy, key)
    ensures key in s.templates ==> CleanedMeta(t, policy, key, attempt) == CleanedMeta(s, policy, key, attempt)
    ensures Forgotten(t, policy, key, attempt) <==> Forgotten(s, policy, key, attempt)
  {
    hide Selects, Cleanup;
  }

  lemma OneMoreCleaned(s: State, t: State, policy: Policy, attempt: Attempt, done: set<Key>, key: Key)
    requires Cleaned(s, t, policy, attempt, done) && key !in done
    ensures Cleaned(s, CleanedUp(t, policy, key, attempt), policy, attempt, done + {key})
    ensures Fine(t, policy, key, attempt) <==> Fine(s, policy, key, attempt)
  {
    SameCleaning(s, t, policy, attempt, done, key);
    CleanedUpIs(t, policy, key, attempt);
    hide Unmatched, CleanedMeta, Forgotten, CleanedUp;
  }

  /** One turn of the loop over the bindings. */
  method CleanOne(
      d: ResourceDetector, policy: Policy, key: Key, attempt: Attempt, ghost s: State, ghost done: set<Key>)
    returns (ok: bool)
    requires Handling(d.Now(), policy) && d.policyWorkers[policy.ref].Fetched?
    requires Works(s, d.Now(), PolicyWorker(policy.ref, true))
    requires Cleaned(s, d.Now(), policy, attempt, done) && key !in done && MarkOf(key, policy) in s.bound
    modifies d`templates, d`nextVersion, d`queue, d`bound
    ensures Handling(d.Now(), policy) && Works(s, d.Now(), PolicyWorker(policy.ref, true))
    ensures Cleaned(s, d.Now(), policy, attempt, done + {key})
    ensures ok <==> Fine(s, policy, key, attempt)
  {
    ghost var before := d.Now();
    OneMoreCleaned(s, before, policy, attempt, done, key);
    StillBound(s, before, policy, attempt, done, key);
    hide Good, Works, Handling, Fine, Cleaned, CleanedUp;
    ok := RemoveClaimMetadataIfNotMatched(d, policy, key, attempt);
    Then(s, before, d.Now(), PolicyWorker(policy.ref, true));
  }

  ghost predicate AllFine(s: State, policy: Policy, attempt: Attempt, keys: set<Key>) {
    forall key <- keys :: Fine(s, policy, key, attempt)
  }

  lemma OneMoreFine(s: State, policy: Policy, attempt: Attempt, done: set<Key>, key: Key)
    ensures AllFine(s, policy, attempt, done + {key}) <==>
      AllFine(s, policy, attempt, done) && Fine(s, policy, key, attempt)
  {
    hide Fine;
  }

  lemma NothingCleaned(s: State, policy: Policy, attempt: Attempt, keys: seq<Key>)
    ensures Cleaned(s, s, policy, attempt, SetOf(keys[..0])) && AllFine(s, policy, attempt, SetOf(keys[..0]))
  {
    assert SetOf(keys[..0]) == {};
    hide Forgotten, CleanedMeta;
  }

  /** The loop over the bindings. */
  method CleanAll(d: ResourceDetector, policy: Policy, keys: seq<Key>, attempt: Attempt) returns (ok: bool)
    requires Handling(d.Now(), policy) && d.policyWorkers[policy.ref].Fetched?
    requires NoDuplicates(keys) && forall j :: 0 <= j < |keys| ==> MarkOf(keys[j], policy) in d.bound
    modifies d`templates, d`nextVersion, d`queue, d`bound
    ensures Handling(d.Now(), policy) && Works(old(d.Now()), d.Now(), PolicyWorker(policy.ref, true))
    ensures Cleaned(old(d.Now()), d.Now(), policy, attempt, SetOf(keys))
    ensures ok <==> AllFine(old(d.Now()), policy, attempt, SetOf(keys))
  {
    ghost var start, who := d.Now(), PolicyWorker(policy.ref, true);
    assert policy.ref in d.policyWorkers && d.policyWorkers[policy.ref].Fetched?;
    hide *;
    NoStep(start, who);
    NothingCleaned(start, policy, attempt, keys);
    ok := true;
    ghost var done := SetOf(keys[..0]);
    for i := 0 to |keys|
      invariant Handling(d.Now(), policy) && Works(start, d.Now(), who)
      invariant Cleaned(start, d.Now(), policy, attempt, done) && done == SetOf(keys[..i])
      invariant ok <==> AllFine(start, policy, attempt, done)
    {
      NextKey(keys, i);
      var cleaned := CleanOne(d, policy, keys[i], attempt, start, done);
      OneMoreFine(start, policy, attempt, done, keys[i]);
      done := done + {keys[i]};
      ok := ok && cleaned;
    }
    assert keys[..|keys|] == keys;
  }

  /** `cleanPPUnmatchedRBs` and its cluster twin: every template whose binding carries the ID is tried, whatever fails
      with the others; those that the policy no longer selects lose their claims. */
  method CleanUnmatched(d: ResourceDetector, policy: Policy, attempt: Attempt) returns (ok: bool)
    requires Handling(d.Now(), policy) && d.policyWorkers[policy.ref].Fetched?
    modifies d`templates, d`nextVersion, d`queue, d`bound
    ensures Handling(d.Now(), policy) && Works(old(d.Now()), d.Now(), PolicyWorker(policy.ref, true))
    ensures Cleaned(old(d.Now()), d.Now(), policy, attempt, Derived(old(d.Now()), policy))
    ensures ok <==> AllFine(old(d.Now()), policy, attempt, Derived(old(d.Now()), policy))
  {
    ghost var start := d.Now();
    var keys := ListDerived(d, policy);
    AllDerived(start, policy, keys);
    assert forall j :: 0 <= j < |keys| ==> MarkOf(keys[j], policy) in start.bound;
    hide Handling, Works, Fine, Cleaned, Derived, NoDuplicates, SetOf;
    ok := CleanAll(d, policy, keys, attempt);
  }

  /** The templates whose bindings carry the policy's ID. */
  function Derived(s: State, policy: Policy): set<Key> {
    set m <- s.bound | m == MarkOf(m.key, policy) :: m.key
  }

  lemma DerivedKeys(s: State, policy: Policy)
    ensures forall key :: key in Derived(s, policy) <==> MarkOf(key, policy) in s.bound
  {
    forall key
      ensures key in Derived(s, policy) <==> MarkOf(key, policy) in s.bound
    {
      if MarkOf(key, policy) in s.bound {
        assert MarkOf(key, policy).key in Derived(s, policy);
      }
    }
  }

  lemma AllDerived(s: State, policy: Policy, keys: seq<Key>)
    requires forall key :: key in keys <==> MarkOf(key, policy) in s.bound
    ensures SetOf(keys) == Derived(s, policy)
    ensures forall key :: key in keys <==> key in Derived(s, policy)
  {
    DerivedKeys(s, policy);
  }

  lemma StillBound(s: State, t: State, policy: Policy, attempt: Attempt, done: set<Key>, key: Key)
    requires Cleaned(s, t, policy, attempt, done) && key !in done
    ensures MarkOf(key, policy) in t.bound <==> MarkOf(key, policy) in s.bound
  {
    hide Forgotten, CleanedMeta;
  }

  lemma NextKey(keys: seq<Key>, i: nat)
    requires NoDuplicates(keys) && i < |keys|
    ensures keys[i] !in SetOf(keys[..i]) && SetOf(keys[..i + 1]) == SetOf(keys[..i]) + {keys[i]}
  {
    assert keys[..i + 1] == keys[..i] + [keys[i]];
  }

  /** `enqueueResourceTemplateForPolicyChange`. */
  method EnqueueForPolicyChange(d: ResourceDetector, key: Key, isLazy: bool)
    modifies d`queue
    ensures d.Now() == Enqueue(old(d.Now()), key, isLazy)
    ensures d.queue == old(d.queue) + {QueueKey(key, isLazy)}
  {
    d.queue := d.queue + {QueueKey(key, isLazy)};
  }

  method RefreshOne(d: ResourceDetector, policy: Policy, key: Key, ghost start: State)
    requires Handling(d.Now(), policy) && d.policyWorkers[policy.ref].Fetched? && MarkOf(key, policy) in d.bound
    requires Works(start, d.Now(), PolicyWorker(policy.ref, true))
    modifies d`queue
    ensures Handling(d.Now(), policy) && Works(start, d.Now(), PolicyWorker(policy.ref, true))
    ensures d.queue == old(d.queue) + {QueueKey(key, policy.isLazy)}
  {
    ghost var before := d.Now();
    RefreshStep(before, policy, key);
    hide Handling, Works, Enabled, Do;
    EnqueueForPolicyChange(d, key, policy.isLazy);
    StepStaysHandling(before, Refresh(policy.ref, key), d.Now(), policy);
    Then(start, before, d.Now(), PolicyWorker(policy.ref, true));
  }

  /** Every template whose binding carries the policy's ID is queued, as changed by Karmada if the policy is lazy. */
  method RefreshBound(d: ResourceDetector, policy: Policy)
    requires Handling(d.Now(), policy) && d.policyWorkers[policy.ref].Fetched?
    modifies d`queue
    ensures Handling(d.Now(), policy) && Works(old(d.Now()), d.Now(), PolicyWorker(policy.ref, true))
    ensures forall key: Key :: MarkOf(key, policy) in d.bound ==> QueueKey(key, policy.isLazy) in d.queue
  {
    ghost var start, who := d.Now(), PolicyWorker(policy.ref, true);
    var keys := ListDerived(d, policy);
    NoStep(start, who);
    assert policy.ref in d.policyWorkers && d.policyWorkers[policy.ref].Fetched?;
    hide *;
    for i := 0 to |keys|
      invariant Handling(d.Now(), policy) && Works(start, d.Now(), who)
      invariant forall j :: 0 <= j < i ==> QueueKey(keys[j], policy.isLazy) in d.queue
    {
      assert keys[i] in keys;
      RefreshOne(d, policy, keys[i], start);
    }
  }

  lemma RefreshStep(s: State, policy: Policy, key: Key)
    requires Handling(s, policy) && s.policyWorkers[policy.ref].Fetched? && MarkOf(key, policy) in s.bound
    ensures Enabled(s, Refresh(policy.ref, key))
    ensures Do(s, Refresh(policy.ref, key)) == Enqueue(s, key, policy.isLazy)
  {
    hide Good;
  }

  /** Looks for the policy on the waiting list. */
  method MatchWaiting(d: ResourceDetector, policy: Policy, unreadable: set<Key>)
    returns (matchedKeys: seq<Key>)
    requires Handling(d.Now(), policy) && d.policyWorkers[policy.ref].Fetched?
    modifies d`policyWorkers
    ensures Handling(d.Now(), policy) && Works(old(d.Now()), d.Now(), PolicyWorker(policy.ref, true))
    ensures NoDuplicates(matchedKeys)
    ensures forall key :: key in matchedKeys <==>
      && key in d.waitingObjects && key !in unreadable && key in d.templates
      && Selects(policy, key, d.templates[key].meta.labels)
    ensures d.policyWorkers == old(d.policyWorkers)[policy.ref := Releasing(policy, SetOf(matchedKeys))]
  {
    matchedKeys := GetMatching(d, policy, unreadable);
    ghost var start := d.Now();
    MatchStep(start, policy, unreadable, SetOf(matchedKeys));
    d.policyWorkers := d.policyWorkers[policy.ref := Releasing(policy, SetOf(matchedKeys))];
    hide Enabled, Do, Good, SetOf, NoDuplicates, Works;
    StepGoesOn(start, Match(policy.ref, unreadable), d.Now(), policy);
  }

  lemma MatchStep(s: State, policy: Policy, unreadable: set<Key>, keys: set<Key>)
    requires Handling(s, policy)
    requires forall key :: key in keys <==>
      key in s.waiting && key !in unreadable && key in s.templates && Selects(policy, key, s.templates[key].meta.labels)
    requires s.policyWorkers[policy.ref].Fetched?
    ensures Enabled(s, Match(policy.ref, unreadable))
    ensures Do(s, Match(policy.ref, unreadable)) ==
      s.(policyWorkers := s.policyWorkers[policy.ref := Releasing(policy, keys)])
  {
    hide Good, Selects;
    assert keys == set key | key in s.waiting && key !in unreadable && key in s.templates
      && Selects(policy, key, s.templates[key].meta.labels);
  }

  method ReleaseOne(d: ResourceDetector, policy: Policy, key: Key, ghost keys: set<Key>)
    requires Handling(d.Now(), policy) && d.policyWorkers[policy.ref] == Releasing(policy, keys) && key in keys
    modifies d`waitingObjects, d`queue, d`policyWorkers
    ensures Handling(d.Now(), policy) && Works(old(d.Now()), d.Now(), PolicyWorker(policy.ref, true))
    ensures d.policyWorkers[policy.ref] == Releasing(policy, keys - {key})
    ensures d.waitingObjects == old(d.waitingObjects) - {key}
    ensures d.queue == old(d.queue) + {QueueKey(key, policy.isLazy)}
  {
    ghost var before := d.Now();
    ReleaseStep(before, policy, key, keys);
    d.RemoveWaiting(key);
    EnqueueForPolicyChange(d, key, policy.isLazy);
    d.policyWorkers := d.policyWorkers[policy.ref := Releasing(policy, keys - {key})];
    hide Enabled, Do, Good, Works;
    StepGoesOn(before, Release(policy.ref, key), d.Now(), policy);
  }

  /** Every matching template leaves the waiting list and is queued. */
  method ReleaseMatched(d: ResourceDetector, policy: Policy, matchedKeys: seq<Key>)
    requires Handling(d.Now(), policy) && NoDuplicates(matchedKeys)
    requires d.policyWorkers[policy.ref] == Releasing(policy, SetOf(matchedKeys))
    modifies d`waitingObjects, d`queue, d`policyWorkers
    ensures Handling(d.Now(), policy) && Works(old(d.Now()), d.Now(), PolicyWorker(policy.ref, true))
    ensures d.policyWorkers[policy.ref] == Releasing(policy, {})
    ensures d.waitingObjects == old(d.waitingObjects) - SetOf(matchedKeys)
    ensures forall key <- matchedKeys :: QueueKey(key, policy.isLazy) in d.queue
    ensures old(d.queue) <= d.queue
  {
    ghost var start, who := d.Now(), PolicyWorker(policy.ref, true);
    NoStep(start, who);
    assert matchedKeys[0..] == matchedKeys && SetOf(matchedKeys[..0]) == {} by { SetOfNone<Key>(); }
    hide Good, Works, Handling, NoDuplicates, SetOf;
    for i := 0 to |matchedKeys|
      invariant Handling(d.Now(), policy) && Works(start, d.Now(), who)
      invariant d.policyWorkers[policy.ref] == Releasing(policy, SetOf(matchedKeys[i..]))
      invariant d.waitingObjects == start.waiting - SetOf(matchedKeys[..i])
      invariant forall j :: 0 <= j < i ==> QueueKey(matchedKeys[j], policy.isLazy) in d.queue
      invariant start.queue <= d.queue
    {
      ghost var before := d.Now();
      RestOfKeys(matchedKeys, i);
      ReleaseOne(d, policy, matchedKeys[i], SetOf(matchedKeys[i..]));
      Then(start, before, d.Now(), who);
    }
    assert matchedKeys[..|matchedKeys|] == matchedKeys && SetOf(matchedKeys[|matchedKeys|..]) == {} by { SetOfNone<Key>(); }
  }

  lemma SetOfNone<T>()
    ensures SetOf<T>([]) == {}
  {
  }

  lemma RestOfKeys(keys: seq<Key>, i: nat)
    requires NoDuplicates(keys) && i < |keys|
    ensures keys[i] in SetOf(keys[i..]) && SetOf(keys[i..]) - {keys[i]} == SetOf(keys[i + 1..])
    ensures SetOf(keys[..i + 1]) == SetOf(keys[..i]) + {keys[i]}
  {
    assert keys[i..] == [keys[i]] + keys[i + 1..];
    assert keys[..i + 1] == keys[..i] + [keys[i]];
    assert keys[i] !in keys[i + 1..];
  }

  lemma ReleaseStep(s: State, policy: Policy, key: Key, keys: set<Key>)
    requires Handling(s, policy) && s.policyWorkers[policy.ref] == Releasing(policy, keys) && key in keys
    ensures Enabled(s, Release(policy.ref, key))
    ensures Do(s, Release(policy.ref, key)) ==
      Enqueue(s.(waiting := s.waiting - {key},
                 policyWorkers := s.policyWorkers[policy.ref := Releasing(policy, keys - {key})]), key, policy.isLazy)
  {
    hide Good;
    assert Do(s, Release(policy.ref, key)) == DoRelease(s, policy.ref, key);
  }

  /** `preemptPropagationPolicy`. */
  method PreemptPropagationPolicy(
      d: ResourceDetector, key: Key, template: Object, policy: Policy, byKarmada: bool, updateFails: bool)
    returns (ok: bool)
    requires policy.ref.PP? && key in d.templates && d.templates[key].meta == template.Value()
    modifies template, d`templates, d`nextVersion, d`queue
    ensures ok ==>
      && PreemptedByPriority(d.policies, old(template.Value()), policy) == Some(template.Value())
      && d.Now() == Write(old(d.Now()), key, template.Value(), byKarmada)
      && (updateFails ==> template.Value() == old(template.Value()))
    ensures !ok ==> d.Now() == old(d.Now())
    ensures !ok ==> updateFails || PreemptedByPriority(d.policies, old(template.Value()), policy).None?
  {
    hide Claimed;
    var claimedPolicyNamespace := template.Value().Annotation(PropagationPolicyNamespaceAnnotation);
    var claimedPolicyName := template.Value().Annotation(PropagationPolicyNameAnnotation);
    if claimedPolicyName == "" || claimedPolicyNamespace == "" {
      return true;
    }
    if claimedPolicyNamespace == policy.ref.namespace && claimedPolicyName == policy.ref.name {
      return true;
    }
    var claimed := PP(claimedPolicyNamespace, claimedPolicyName);
    if claimed !in d.policies {
      return false;
    }
    if policy.ExplicitPriority() <= d.policies[claimed].ExplicitPriority() {
      return true;
    }
    ok := d.ClaimTemplate(key, template, policy, byKarmada, updateFails);
  }

  /** `preemptClusterPropagationPolicyDirectly`. */
  method PreemptClusterPropagationPolicyDirectly(
      d: ResourceDetector, key: Key, template: Object, policy: Policy, byKarmada: bool, updateFails: bool)
    returns (ok: bool)
    requires policy.ref.PP? && key in d.templates && d.templates[key].meta == template.Value()
    modifies template, d`templates, d`nextVersion, d`queue
    ensures template.Value() == DirectlyPreempted(old(template.Value()), policy)
    ensures ok ==> d.Now() == Write(old(d.Now()), key, template.Value(), byKarmada)
    ensures ok && updateFails ==> template.Value() == old(template.Value())
    ensures !ok ==> updateFails && d.Now() == old(d.Now())
    ensures !ok ==> old(template.Value()).Annotation(ClusterPropagationPolicyAnnotation) != ""
  {
    hide Claimed;
    var claimedPolicyName := template.Value().Annotation(ClusterPropagationPolicyAnnotation);
    if claimedPolicyName == "" {
      return true;
    }
    ok := d.ClaimTemplate(key, template, policy, byKarmada, updateFails);
  }

  /** `preemptClusterPropagationPolicy`. */
  method PreemptClusterPropagationPolicy(
      d: ResourceDetector, key: Key, template: Object, policy: Policy, byKarmada: bool, updateFails: bool)
    returns (ok: bool)
    requires policy.ref.CPP? && key in d.templates && d.templates[key].meta == template.Value()
    modifies template, d`templates, d`nextVersion, d`queue
    ensures ok ==>
      && PreemptedByPriority(d.policies, old(template.Value()), policy) == Some(template.Value())
      && d.Now() == Write(old(d.Now()), key, template.Value(), byKarmada)
      && (updateFails ==> template.Value() == old(template.Value()))
    ensures !ok ==> d.Now() == old(d.Now())
    ensures !ok ==> updateFails || PreemptedByPriority(d.policies, old(template.Value()), policy).None?
  {
    hide Claimed;
    var claimedPolicyName := template.Value().Annotation(ClusterPropagationPolicyAnnotation);
    if claimedPolicyName == "" {
      return true;
    }
    if claimedPolicyName == policy.ref.name {
      return true;
    }
    var claimed := CPP(claimedPolicyName);
    if claimed !in d.policies {
      return false;
    }
    if policy.ExplicitPriority() <= d.policies[claimed].ExplicitPriority() {
      return true;
    }
    ok := d.ClaimTemplate(key, template, policy, byKarmada, updateFails);
  }

  /** On good metadata the two ways to preempt a template do not both take place. */
  lemma OneOfTwo(s: State, policy: Policy, key: Key)
    requires Handling(s, policy) && key in s.templates
    ensures var meta := s.templates[key].meta;
      var first := PreemptedByPriority(s.policies, meta, policy);
      first.Some? && first.value != meta && policy.ref.PP? ==>
        && first.value.Annotation(ClusterPropagationPolicyAnnotation) == ""
        && DirectlyPreempted(first.value, policy) == first.value
  {
    var meta := s.templates[key].meta;
    assert GoodMeta(s.owners, meta) && GoodPolicy(s.owners, policy.ref, policy);
    if policy.ref.PP? {
      ClaimedIsGood(s.owners, meta, policy);
    }
  }

  /** The write of a preemption is one step of the protocol. */
  lemma PreemptFlagAllowed(s: State, policy: Policy, key: Key, byKarmada: bool)
    requires Handling(s, policy) && key in s.templates && (byKarmada ==> policy.isLazy)
    requires Preempted(s.policies, s.templates[key].meta, policy) != s.templates[key].meta
    ensures FlagAllowed(s, Preempted(s.policies, s.templates[key].meta, policy), byKarmada)
  {
    var meta := s.templates[key].meta;
    assert GoodMeta(s.owners, meta) && GoodPolicy(s.owners, policy.ref, policy);
    PreemptedIsGood(s, meta, policy);
    hide Preempted, GoodMeta, GoodPolicy;
  }

  lemma WriteKeepsPolicies(s: State, key: Key, meta: Meta, byKarmada: bool)
    ensures Write(s, key, meta, byKarmada).policies == s.policies
    ensures Write(s, key, meta, byKarmada).policyWorkers == s.policyWorkers
  {
  }

  lemma PreemptStep(s: State, policy: Policy, key: Key, byKarmada: bool)
    requires Handling(s, policy) && s.policyWorkers[policy.ref] == Releasing(policy, {})
    requires policy.preempts && key in s.templates && Names(policy, key)
    requires FlagAllowed(s, Preempted(s.policies, s.templates[key].meta, policy), byKarmada)
    ensures var a := Preempt(policy.ref, key, byKarmada);
      && Enabled(s, a) && StepOf(a, PolicyWorker(policy.ref, true))
      && Do(s, a) == Write(s, key, Preempted(s.policies, s.templates[key].meta, policy), byKarmada)
  {
    hide Preempted, Names, Good, FlagAllowed, Write;
  }

  lemma PreemptPath(s: State, policy: Policy, key: Key, byKarmada: bool)
    requires Handling(s, policy) && s.policyWorkers[policy.ref] == Releasing(policy, {})
    requires policy.preempts && key in s.templates && Names(policy, key) && (byKarmada ==> policy.isLazy)
    ensures var t := Write(s, key, Preempted(s.policies, s.templates[key].meta, policy), byKarmada);
      Handling(t, policy) && Works(s, t, PolicyWorker(policy.ref, true))
  {
    var after := Preempted(s.policies, s.templates[key].meta, policy);
    NoStep(s, PolicyWorker(policy.ref, true));
    if after != s.templates[key].meta {
      PreemptFlagAllowed(s, policy, key, byKarmada);
      PreemptStep(s, policy, key, byKarmada);
      WriteKeepsPolicies(s, key, after, byKarmada);
      hide *;
      StepStaysHandling(s, Preempt(policy.ref, key, byKarmada), Write(s, key, after, byKarmada), policy);
    }
  }

  /** What is to become of the metadata of a named template: an update that fails stores nothing. */
  function PreemptedMeta(s: State, policy: Policy, key: Key, attempt: Attempt): Meta
    requires key in s.templates
  {
    var meta := s.templates[key].meta;
    if key in attempt.unreadable || key in attempt.updateFails then meta else Preempted(s.policies, meta, policy)
  }

  /** The claiming policy of the same kind is gone. */
  predicate ClaimantGone(s: State, policy: Policy, key: Key)
    requires key in s.templates
  {
    PreemptedByPriority(s.policies, s.templates[key].meta, policy).None?
  }

  /** One template in `handlePropagationPolicyPreemption` or its cluster twin: at most one write, of exactly the
      preempted metadata. */
  method PreemptTemplate(d: ResourceDetector, policy: Policy, key: Key, attempt: Attempt) returns (ok: bool)
    requires Handling(d.Now(), policy) && d.policyWorkers[policy.ref] == Releasing(policy, {})
    requires policy.preempts && key in d.templates && Names(policy, key) && key !in attempt.unreadable
    modifies d`templates, d`nextVersion, d`queue
    ensures Handling(d.Now(), policy) && Works(old(d.Now()), d.Now(), PolicyWorker(policy.ref, true))
    ensures d.Now() == Write(old(d.Now()), key, PreemptedMeta(old(d.Now()), policy, key, attempt),
                             attempt.eventByKarmada && policy.isLazy)
    ensures ClaimantGone(old(d.Now()), policy, key) ==> !ok
    ensures !ok ==> key in attempt.updateFails || ClaimantGone(old(d.Now()), policy, key)
    ensures ok ==>
      PreemptedMeta(old(d.Now()), policy, key, attempt) == Preempted(d.policies, old(d.templates[key].meta), policy)
  {
    ghost var start, meta := d.Now(), d.templates[key].meta;
    var byKarmada := attempt.eventByKarmada && policy.isLazy;
    OneOfTwo(start, policy, key);
    PreemptPath(start, policy, key, byKarmada);
    NoStep(start, PolicyWorker(policy.ref, true));
    WriteSame(start, key, byKarmada);
    hide Handling, Works, Names, Claimed, PreemptedByPriority, DirectlyPreempted;
    var resourceTemplate := new Object(d.templates[key].meta);
    if policy.ref.PP? {
      ok := PreemptPropagationPolicy(d, key, resourceTemplate, policy, byKarmada, key in attempt.updateFails);
      if !ok {
        return;
      }
      ghost var first := resourceTemplate.Value();
      WriteTwice(start, key, meta, first, DirectlyPreempted(first, policy), byKarmada);
      ok := PreemptClusterPropagationPolicyDirectly(
        d, key, resourceTemplate, policy, byKarmada, key in attempt.updateFails);
    } else {
      ok := PreemptClusterPropagationPolicy(d, key, resourceTemplate, policy, byKarmada, key in attempt.updateFails);
    }
  }

  lemma WriteSame(s: State, key: Key, byKarmada: bool)
    requires key in s.templates
    ensures Write(s, key, s.templates[key].meta, byKarmada) == s
  {
  }

  lemma WriteTwice(s: State, key: Key, meta: Meta, first: Meta, second: Meta, byKarmada: bool)
    requires key in s.templates && s.templates[key].meta == meta && (first == meta || first == second)
    ensures first == meta ==> Write(s, key, first, byKarmada) == s
    ensures Write(Write(s, key, first, byKarmada), key, second, byKarmada) == Write(s, key, second, byKarmada)
    ensures key in Write(s, key, second, byKarmada).templates
    ensures Write(s, key, second, byKarmada).templates[key].meta == second
  {
  }

  /** Preempting a template again changes nothing more. */
  lemma PreemptedTwice(s: State, policy: Policy, key: Key)
    requires Handling(s, policy) && key in s.templates
    ensures var after := Preempted(s.policies, s.templates[key].meta, policy);
      && Preempted(s.policies, after, policy) == after
      && (PreemptedByPriority(s.policies, after, policy).None? <==> ClaimantGone(s, policy, key))
  {
    var meta := s.templates[key].meta;
    var after := Preempted(s.policies, meta, policy);
    assert GoodMeta(s.owners, meta) && GoodPolicy(s.owners, policy.ref, policy);
    PreemptedExactly(s, meta, policy);
    PreemptedIsGood(s, meta, policy);
    PreemptedExactly(s, after, policy);
    if after != meta {
      assert ClaimedOfKind(after, policy.ref) == Some(policy.ref);
    }
  }

  function KeyOf(rs: ResourceSelector): Key {
    Key(rs.apiVersion, rs.kind, rs.namespace, rs.name)
  }

  /** The templates in `done` have been tried, and all others are as they were. */
  ghost predicate Tried(s: State, t: State, policy: Policy, attempt: Attempt, done: set<Key>) {
    && t.templates.Keys == s.templates.Keys && t.policies == s.policies
    && forall key <- s.templates ::
      t.templates[key].meta == if key in done then PreemptedMeta(s, policy, key, attempt) else s.templates[key].meta
  }

  /** Tried once more, a template gets the same metadata. */
  lemma TriedAgain(s: State, t: State, policy: Policy, attempt: Attempt, done: set<Key>, key: Key)
    requires Handling(s, policy) && Tried(s, t, policy, attempt, done) && key in s.templates
    ensures ClaimantGone(t, policy, key) <==> ClaimantGone(s, policy, key)
    ensures PreemptedMeta(t, policy, key, attempt) == PreemptedMeta(s, policy, key, attempt)
    ensures Preempted(t.policies, t.templates[key].meta, policy) == Preempted(s.policies, s.templates[key].meta, policy)
  {
    PreemptedTwice(s, policy, key);
    assert t.templates[key].meta == if key in done then PreemptedMeta(s, policy, key, attempt) else s.templates[key].meta;
    hide Preempted, PreemptedByPriority, Handling, Tried;
  }

  lemma OneWritten(t: State, key: Key, meta: Meta, byKarmada: bool)
    requires key in t.templates
    ensures var after := Write(t, key, meta, byKarmada);
      && after.policies == t.policies && after.templates.Keys == t.templates.Keys && after.bound == t.bound
      && forall k <- t.templates :: after.templates[k].meta == if k == key then meta else t.templates[k].meta
  {
  }

  lemma OneMoreTried(s: State, t: State, policy: Policy, attempt: Attempt, done: set<Key>, key: Key, byKarmada: bool)
    requires Tried(s, t, policy, attempt, done) && key in s.templates
    ensures Tried(s, Write(t, key, PreemptedMeta(s, policy, key, attempt), byKarmada), policy, attempt, done + {key})
  {
    hide PreemptedMeta, Write;
    OneWritten(t, key, PreemptedMeta(s, policy, key, attempt), byKarmada);
  }

  /** The selector's template is tried without an error. */
  ghost predicate Succeeds(s: State, policy: Policy, rs: ResourceSelector, attempt: Attempt) {
    && rs.name != "" && KeyOf(rs) !in attempt.unreadable
    && (KeyOf(rs) in s.templates ==>
         && !ClaimantGone(s, policy, KeyOf(rs))
         && PreemptedMeta(s, policy, KeyOf(rs), attempt) ==
           Preempted(s.policies, s.templates[KeyOf(rs)].meta, policy))
  }

  /** There is reason for an error. */
  ghost predicate Trouble(s: State, policy: Policy, rs: ResourceSelector, attempt: Attempt) {
    || rs.name == "" || KeyOf(rs) in attempt.unreadable
    || (KeyOf(rs) in s.templates && (KeyOf(rs) in attempt.updateFails || ClaimantGone(s, policy, KeyOf(rs))))
  }

  /** The keys that the selectors name. */
  function NamedKeys(selectors: seq<ResourceSelector>): set<Key> {
    set rs <- selectors | rs.name != "" :: KeyOf(rs)
  }

  lemma NamedByKeys(policy: Policy, key: Key)
    ensures key in NamedKeys(policy.selectors) <==> Names(policy, key)
  {
  }

  /** One turn of the loop over the selectors. */
  method PreemptNamed(
      d: ResourceDetector, policy: Policy, rs: ResourceSelector, attempt: Attempt, ghost s: State, ghost done: set<Key>)
    returns (ok: bool)
    requires rs in policy.selectors && policy.preempts
    requires Handling(s, policy) && Handling(d.Now(), policy) && d.policyWorkers[policy.ref] == Releasing(policy, {})
    requires Tried(s, d.Now(), policy, attempt, done)
    modifies d`templates, d`nextVersion, d`queue
    ensures Handling(d.Now(), policy) && Works(old(d.Now()), d.Now(), PolicyWorker(policy.ref, true))
    ensures Tried(s, d.Now(), policy, attempt, done + if rs.name == "" then {} else {KeyOf(rs)})
    ensures ok ==> Succeeds(s, policy, rs, attempt)
    ensures !ok ==> Trouble(s, policy, rs, attempt)
    ensures old(d.queue) <= d.queue
  {
    var key := KeyOf(rs);
    NoStep(d.Now(), PolicyWorker(policy.ref, true));
    assert rs.name != "" ==> Names(policy, key);
    if key in s.templates {
      TriedAgain(s, d.Now(), policy, attempt, done, key);
      OneMoreTried(s, d.Now(), policy, attempt, done, key, attempt.eventByKarmada && policy.isLazy);
    }
    if key !in s.templates || key in attempt.unreadable {
      NotStored(s, d.Now(), policy, attempt, done, key);
    }
    QueueGrows(d.Now(), key);
    assert done + {} == done;
    hide Handling, Works, Names, Tried, ClaimantGone, Preempted, Write;
    if rs.name == "" {
      return false;
    }
    if key in attempt.unreadable {
      return false;
    }
    if key !in d.templates {
      return true;
    }
    ok := PreemptTemplate(d, policy, key, attempt);
  }

  lemma QueueGrows(s: State, key: Key)
    ensures forall meta: Meta, byKarmada: bool :: s.queue <= Write(s, key, meta, byKarmada).queue
  {
  }

  /** A key that is not stored, or cannot be read, changes nothing. */
  lemma NotStored(s: State, t: State, policy: Policy, attempt: Attempt, done: set<Key>, key: Key)
    requires Tried(s, t, policy, attempt, done) && (key !in s.templates || key in attempt.unreadable)
    ensures Tried(s, t, policy, attempt, done + {key})
  {
    hide Preempted;
  }

  /** `handlePropagationPolicyPreemption` and its cluster twin: every named template is tried, whatever fails with the
      others. */
  method HandlePreemption(d: ResourceDetector, policy: Policy, attempt: Attempt) returns (ok: bool)
    requires Handling(d.Now(), policy) && d.policyWorkers[policy.ref] == Releasing(policy, {}) && policy.preempts
    modifies d`templates, d`nextVersion, d`queue
    ensures Handling(d.Now(), policy) && Works(old(d.Now()), d.Now(), PolicyWorker(policy.ref, true))
    ensures Tried(old(d.Now()), d.Now(), policy, attempt, NamedKeys(policy.selectors))
    ensures ok ==> forall rs <- policy.selectors :: Succeeds(old(d.Now()), policy, rs, attempt)
    ensures !ok ==> exists rs <- policy.selectors :: Trouble(old(d.Now()), policy, rs, attempt)
    ensures old(d.queue) <= d.queue
  {
    ghost var start, who := d.Now(), PolicyWorker(policy.ref, true);
    NoStep(start, who);
    assert policy.ref in start.policyWorkers;
    assert NamedKeys(policy.selectors[..0]) == {};
    assert Tried(start, start, policy, attempt, {});
    hide Handling, Works, Tried, Succeeds, Trouble, NamedKeys;
    ok := true;
    for i := 0 to |policy.selectors|
      invariant Handling(d.Now(), policy) && Works(start, d.Now(), who)
      invariant Tried(start, d.Now(), policy, attempt, NamedKeys(policy.selectors[..i]))
      invariant ok ==> forall rs <- policy.selectors[..i] :: Succeeds(start, policy, rs, attempt)
      invariant !ok ==> exists rs <- policy.selectors[..i] :: Trouble(start, policy, rs, attempt)
      invariant start.queue <= d.queue
    {
      var rs := policy.selectors[i];
      ghost var before := d.Now();
      NextSelector(policy.selectors, i);
      var tried := PreemptNamed(d, policy, rs, attempt, start, NamedKeys(policy.selectors[..i]));
      Then(start, before, d.Now(), who);
      ok := ok && tried;
    }
    assert policy.selectors[..|policy.selectors|] == policy.selectors;
  }

  lemma NextSelector(selectors: seq<ResourceSelector>, i: nat)
    requires i < |selectors|
    ensures selectors[i] in selectors && selectors[..i + 1] == selectors[..i] + [selectors[i]]
    ensures NamedKeys(selectors[..i + 1]) ==
      NamedKeys(selectors[..i]) + if selectors[i].name == "" then {} else {KeyOf(selectors[i])}
  {
    assert selectors[..i + 1] == selectors[..i] + [selectors[i]];
  }

  /** What a policy leaves of a template when all goes well. */
  function Outcome(s: State, policy: Policy, key: Key): Meta
    requires key in s.templates
  {
    var meta := s.templates[key].meta;
    if Unmatched(s, policy, key) then Cleanup(meta, policy.ref)
    else if policy.preempts && Names(policy, key) then Preempted(s.policies, meta, policy)
    else meta
  }

  /** A waiting template that the policy finds once the others are cleaned up. */
  predicate Found(s: State, policy: Policy, key: Key, attempt: Attempt) {
    && key in s.waiting && key !in attempt.unreadable && key in s.templates
    && Selects(policy, key, CleanedMeta(s, policy, key, attempt).labels)
  }

  /** Everything is done: unselected templates have lost their claims and their bindings the ID, those whose bindings
      carry the ID are queued, found templates have left the waiting list and are queued, named templates are
      preempted, and nothing else has happened to any template or to the waiting list. */
  ghost predicate Handled(s: State, t: State, policy: Policy, attempt: Attempt) {
    && t.templates.Keys == s.templates.Keys
    && (forall key <- s.templates :: t.templates[key].meta == Outcome(s, policy, key))
    && (forall m: Mark :: m in t.bound <==> m in s.bound && !(m == MarkOf(m.key, policy) && Unmatched(s, policy, m.key)))
    && (forall key: Key :: MarkOf(key, policy) in t.bound ==> QueueKey(key, policy.isLazy) in t.queue)
    && (forall key: Key :: key in t.waiting <==> key in s.waiting && !Found(s, policy, key, attempt))
    && (forall key: Key :: Found(s, policy, key, attempt) ==> QueueKey(key, policy.isLazy) in t.queue)
  }

  /** A whole turn without an error: the policy as it is now is handled, all policies stay, and no binding gets an ID. */
  ghost predicate Turn(s: State, t: State, policy: Policy, attempt: Attempt) {
    && policy.ref in s.policies && s.policies[policy.ref] == policy && Handled(s, t, policy, attempt)
    && t.policies == s.policies && t.owners == s.owners
  }

  /** The reasons for which a policy is not handled to the end. */
  ghost predicate WentWrong(s: State, policy: Policy, attempt: Attempt) {
    || (exists key <- Derived(s, policy) :: !Fine(s, policy, key, attempt))
    || attempt.dependentsMissing
    || (policy.preempts && exists rs <- policy.selectors :: Trouble(s, policy, rs, attempt))
  }

  /** What a turn without an error does to each template and its binding, read off the policy: a template whose binding
      carries the policy's ID, and that no selector matches, loses its claim of that kind, and its binding the ID; one
      that a selector names outright is taken over if the policy preempts and ranks higher; all others stay. Those whose
      bindings carry the ID still are queued. */
  lemma PolicyTurnMeans(s: State, t: State, policy: Policy, attempt: Attempt, key: Key)
    requires Good(s) && Turn(s, t, policy, attempt) && key in s.templates
    ensures
      var meta, idLabel := s.templates[key].meta,
        if policy.ref.PP? then PropagationPolicyPermanentIDLabel else ClusterPropagationPolicyPermanentIDLabel;
      var mark := Mark(key, idLabel, policy.id);
      var selected := exists rs <- policy.selectors :: ResourceSelectorPriority(key, meta.labels, rs) > 0;
      var named := exists rs <- policy.selectors ::
        rs.name != "" && Key(rs.apiVersion, rs.kind, rs.namespace, rs.name) == key;
      && key in t.templates
      && t.templates[key].meta ==
        (if mark in s.bound && !selected then Cleanup(meta, policy.ref)
         else if policy.preempts && named then Preempted(s.policies, meta, policy)
         else meta)
      && (forall m: Mark | m.key == key :: m in t.bound <==> m in s.bound && !(m == mark && !selected))
      && (mark in s.bound && selected ==> QueueKey(key, policy.isLazy) in t.queue)
      && (!(mark in s.bound && !selected) ==>
           && (key in t.waiting <==> key in s.waiting && !(selected && key !in attempt.unreadable))
           && (key in s.waiting && selected && key !in attempt.unreadable ==> QueueKey(key, policy.isLazy) in t.queue))
  {
    assert MarkOf(key, policy) == Mark(key,
      if policy.ref.PP? then PropagationPolicyPermanentIDLabel else ClusterPropagationPolicyPermanentIDLabel, policy.id);
    assert Unmatched(s, policy, key) <==>
      MarkOf(key, policy) in s.bound && !Selects(policy, key, s.templates[key].meta.labels);
    assert Names(policy, key) <==> exists rs <- policy.selectors ::
      rs.name != "" && Key(rs.apiVersion, rs.kind, rs.namespace, rs.name) == key;
    assert t.templates[key].meta == Outcome(s, policy, key);
    assert !Unmatched(s, policy, key) ==> CleanedMeta(s, policy, key, attempt) == s.templates[key].meta;
    hide Preempted, Cleanup, ResourceSelectorPriority, Unmatched, CleanedMeta, Names;
  }

  /** The reasons for an error, read off what fails outside the detector, the policy and the claims: without a failure a
      turn ends with an error only if the policy preempts and one of its selectors names nothing, or names a template
      whose claim of the policy's kind is that of a policy which does not exist. */
  lemma WentWrongMeans(s: State, policy: Policy, attempt: Attempt)
    requires WentWrong(s, policy, attempt)
    ensures
      || attempt.unreadable != {} || attempt.updateFails != {} || attempt.bindingFails != {} || attempt.dependentsMissing
      || (policy.preempts && exists rs <- policy.selectors ::
           || rs.name == ""
           || (var key := Key(rs.apiVersion, rs.kind, rs.namespace, rs.name);
               && key in s.templates
               && var annotations := s.templates[key].meta.annotations;
                 if policy.ref.PP? then
                   && PropagationPolicyNamespaceAnnotation in annotations && PropagationPolicyNameAnnotation in annotations
                   && PP(annotations[PropagationPolicyNamespaceAnnotation], annotations[PropagationPolicyNameAnnotation])
                        !in s.policies
                 else
                   && ClusterPropagationPolicyAnnotation in annotations
                   && CPP(annotations[ClusterPropagationPolicyAnnotation]) !in s.policies))
  {
    hide Selects, Claimed;
    if attempt.unreadable == {} && attempt.updateFails == {} && attempt.bindingFails == {}
       && !attempt.dependentsMissing {
      assert forall key :: Fine(s, policy, key, attempt);
      var rs :| policy.preempts && rs in policy.selectors && Trouble(s, policy, rs, attempt);
    }
  }

  lemma NamesSelects(policy: Policy, key: Key, labels: map<LabelKey, string>)
    requires Names(policy, key)
    ensures Selects(policy, key, labels)
  {
    var rs :| rs in policy.selectors && rs.name != "" && rs.name == key.name && rs.apiVersion == key.apiVersion
      && rs.kind == key.kind && rs.namespace == key.namespace;
    assert |rs.name| > 0;
    assert ResourceSelectorPriority(key, labels, rs) == MATCH_NAME;
  }

  /** When all templates are fine, cleaning up has its full effect. */
  lemma CleanedWell(s: State, t: State, policy: Policy, attempt: Attempt)
    requires Cleaned(s, t, policy, attempt, Derived(s, policy))
    requires AllFine(s, policy, attempt, Derived(s, policy))
    ensures t.templates.Keys == s.templates.Keys
    ensures forall key <- s.templates :: t.templates[key].meta == CleanedMeta(s, policy, key, attempt)
    ensures forall key <- s.templates ::
      if Unmatched(s, policy, key) then CleanedMeta(s, policy, key, attempt) == Cleanup(s.templates[key].meta, policy.ref)
      else CleanedMeta(s, policy, key, attempt) == s.templates[key].meta
    ensures forall m: Mark :: m in t.bound <==>
      m in s.bound && !(m == MarkOf(m.key, policy) && Unmatched(s, policy, m.key))
  {
    DerivedKeys(s, policy);
    hide Selects, Cleanup, Derived;
  }

  /** Once all is cleaned up, the named templates are as they were at first. */
  lemma NamedAsBefore(s: State, u: State, policy: Policy, attempt: Attempt)
    requires u.policies == s.policies && u.templates.Keys == s.templates.Keys
    requires forall key <- s.templates ::
      u.templates[key].meta == if Unmatched(s, policy, key) then Cleanup(s.templates[key].meta, policy.ref)
        else s.templates[key].meta
    ensures forall key <- s.templates :: Names(policy, key) ==>
      !Unmatched(s, policy, key) && u.templates[key].meta == s.templates[key].meta
    ensures forall rs <- policy.selectors :: Trouble(u, policy, rs, attempt) ==> Trouble(s, policy, rs, attempt)
  {
    forall key | key in s.templates && Names(policy, key)
      ensures !Unmatched(s, policy, key) && u.templates[key].meta == s.templates[key].meta
    {
      NamesSelects(policy, key, s.templates[key].meta.labels);
    }
    forall rs | rs in policy.selectors
      ensures Trouble(u, policy, rs, attempt) ==> Trouble(s, policy, rs, attempt)
    {
      assert rs.name != "" ==> Names(policy, KeyOf(rs));
      hide Names, Selects, Unmatched, Cleanup;
    }
  }

  /** The outcome for each template, with preemption. */
  lemma OutcomeReached(s: State, u: State, t: State, policy: Policy, attempt: Attempt)
    requires u.policies == s.policies && u.templates.Keys == s.templates.Keys
    requires forall key <- s.templates ::
      u.templates[key].meta == if Unmatched(s, policy, key) then Cleanup(s.templates[key].meta, policy.ref)
        else s.templates[key].meta
    requires if policy.preempts then Tried(u, t, policy, attempt, NamedKeys(policy.selectors))
      else t.templates == u.templates
    requires policy.preempts ==> forall rs <- policy.selectors :: Succeeds(u, policy, rs, attempt)
    ensures t.templates.Keys == s.templates.Keys
    ensures forall key <- s.templates :: t.templates[key].meta == Outcome(s, policy, key)
  {
    NamedAsBefore(s, u, policy, attempt);
    forall key | key in s.templates
      ensures t.templates[key].meta == Outcome(s, policy, key)
    {
      NamedByKeys(policy, key);
      if policy.preempts && Names(policy, key) {
        var rs :| rs in policy.selectors && rs.name != "" && KeyOf(rs) == key;
        assert Succeeds(u, policy, rs, attempt);
      }
      hide Names, Selects, Unmatched, Cleanup, Preempted, PreemptedByPriority, NamedKeys;
    }
  }

  /** All parts together. */
  lemma HandledWell(s: State, u: State, t: State, policy: Policy, attempt: Attempt, matchedKeys: seq<Key>)
    requires t.templates.Keys == s.templates.Keys
    requires forall key <- s.templates :: t.templates[key].meta == Outcome(s, policy, key)
    requires u.templates.Keys == s.templates.Keys && u.waiting == s.waiting
    requires forall key <- s.templates :: u.templates[key].meta == CleanedMeta(s, policy, key, attempt)
    requires forall m: Mark :: m in u.bound <==>
      m in s.bound && !(m == MarkOf(m.key, policy) && Unmatched(s, policy, m.key))
    requires forall key :: key in matchedKeys <==>
      && key in u.waiting && key !in attempt.unreadable && key in u.templates
      && Selects(policy, key, u.templates[key].meta.labels)
    requires t.bound == u.bound && t.waiting == u.waiting - SetOf(matchedKeys)
    requires forall key: Key :: MarkOf(key, policy) in u.bound ==> QueueKey(key, policy.isLazy) in t.queue
    requires forall key <- matchedKeys :: QueueKey(key, policy.isLazy) in t.queue
    ensures Handled(s, t, policy, attempt)
  {
    hide Outcome, Unmatched, Selects, CleanedMeta;
    assert forall key: Key :: Found(s, policy, key, attempt) <==> key in matchedKeys;
    hide Found;
  }

  /** The middle of `HandlePropagationPolicyCreationOrUpdate`: what carries the ID is queued, and so is what waits for
      the policy. */
  method HandleQueues(d: ResourceDetector, policy: Policy, attempt: Attempt) returns (ok: bool, matchedKeys: seq<Key>)
    requires Handling(d.Now(), policy) && d.policyWorkers[policy.ref].Fetched?
    modifies d`queue, d`policyWorkers, d`waitingObjects
    ensures Handling(d.Now(), policy) && Works(old(d.Now()), d.Now(), PolicyWorker(policy.ref, true))
    ensures forall key :: key in matchedKeys <==>
      && key in old(d.waitingObjects) && key !in attempt.unreadable && key in d.templates
      && Selects(policy, key, d.templates[key].meta.labels)
    ensures forall key: Key :: MarkOf(key, policy) in d.bound ==> QueueKey(key, policy.isLazy) in d.queue
    ensures ok ==>
      && d.policyWorkers[policy.ref] == Releasing(policy, {})
      && d.waitingObjects == old(d.waitingObjects) - SetOf(matchedKeys)
      && forall key <- matchedKeys :: QueueKey(key, policy.isLazy) in d.queue
    ensures !ok ==> attempt.dependentsMissing && matchedKeys != []
  {
    ghost var start, who := d.Now(), PolicyWorker(policy.ref, true);
    hide *;
    RefreshBound(d, policy);
    ghost var s2 := d.Now();
    matchedKeys := MatchWaiting(d, policy, attempt.unreadable);
    ghost var s3 := d.Now();
    Then(start, s2, s3, who);
    if |matchedKeys| > 0 {
      if attempt.dependentsMissing {
        return false, matchedKeys;
      }
    }
    ReleaseMatched(d, policy, matchedKeys);
    Then(start, s3, d.Now(), who);
    return true, matchedKeys;
  }

  /** `HandlePropagationPolicyCreationOrUpdate` and its cluster twin, up to the end of the worker's turn: without an
      error everything is done, and an error has a reason. */
  method HandlePolicyCreationOrUpdate(d: ResourceDetector, policy: Policy, attempt: Attempt)
    returns (ok: bool)
    requires Handling(d.Now(), policy) && d.policyWorkers[policy.ref].Fetched?
    modifies d`templates, d`nextVersion, d`queue, d`bound, d`policyWorkers, d`waitingObjects
    ensures Handling(d.Now(), policy) && Works(old(d.Now()), d.Now(), PolicyWorker(policy.ref, true))
    ensures ok ==> d.policyWorkers[policy.ref] == Releasing(policy, {})
    ensures ok ==> Handled(old(d.Now()), d.Now(), policy, attempt)
    ensures !ok ==> WentWrong(old(d.Now()), policy, attempt)
    ensures d.bound <= old(d.bound)
  {
    ghost var start, who := d.Now(), PolicyWorker(policy.ref, true);
    assert policy.ref in start.policyWorkers;
    assert attempt.dependentsMissing ==> WentWrong(start, policy, attempt);
    var cleaned := CleanUnmatched(d, policy, attempt);
    ghost var s1 := d.Now();
    assert s1.bound <= start.bound;
    if !cleaned {
      return false;
    }
    CleanedWell(start, s1, policy, attempt);
    hide Handling, Works, NoDuplicates, SetOf, Cleaned, Fine, Selects, CleanedMeta, Derived, Outcome, Unmatched;
    hide Cleanup, Handled, Tried, Succeeds, Trouble, NamedKeys, Found;
    var queued, matchedKeys := HandleQueues(d, policy, attempt);
    ghost var s4 := d.Now();
    Then(start, s1, s4, who);
    if !queued {
      return false;
    }
    NamedAsBefore(start, s4, policy, attempt);
    ok := true;
    if policy.preempts {
      ok := HandlePreemption(d, policy, attempt);
      Then(start, s4, d.Now(), who);
    }
    if ok {
      hide WentWrong;
      OutcomeReached(start, s4, d.Now(), policy, attempt);
      HandledWell(start, s1, d.Now(), policy, attempt, matchedKeys);
    }
  }

  /** One turn of the policy worker for a policy that is not being deleted: on an error the policy is queued again.
      The whole turn is a run of the protocol by this worker alone. */
  method ReconcilePolicy(d: ResourceDetector, ref: PolicyRef, attempt: Attempt) returns (ok: bool)
    requires Good(d.Now()) && ref in d.policies && !d.policies[ref].deleting
    requires ref in d.policyQueue && ref !in d.policyWorkers
    modifies d
    ensures exists actions :: actions != [] && IsWork(old(d.Now()), actions, d.Now(), PolicyWorker(ref, ok))
    ensures Good(d.Now()) && ref !in d.policyWorkers && (ok || ref in d.policyQueue)
    ensures ok ==> Turn(old(d.Now()), d.Now(), old(d.policies[ref]), attempt)
    ensures !ok ==> WentWrong(old(d.Now()), old(d.policies[ref]), attempt)
  {
    var policy := d.policies[ref];
    ghost var start := d.Now();
    assert GoodPolicy(d.owners, ref, policy);
    d.policyQueue := d.policyQueue - {ref};
    d.policyWorkers := d.policyWorkers[ref := Fetched(policy)];
    ghost var fetched := d.Now();
    FetchStep(start, ref, fetched);
    ok := HandlePolicyCreationOrUpdate(d, policy, attempt);
    ghost var handled := d.Now();
    d.policyWorkers := d.policyWorkers - {ref};
    if !ok {
      d.policyQueue := d.policyQueue + {ref};
    }
    SameOutcome(start, fetched, handled, d.Now(), policy, attempt);
    LastStep(handled, d.Now(), policy, ok);
    hide Good, Handling, Works, Handled, WentWrong;
    EndStep(start, fetched, handled, d.Now(), policy, ok);
  }

  /** Who is working on what makes no difference to the outcome. */
  lemma SameOutcome(s: State, fetched: State, handled: State, t: State, policy: Policy, attempt: Attempt)
    requires fetched == s.(policyQueue := fetched.policyQueue, policyWorkers := fetched.policyWorkers)
    requires t == handled.(policyQueue := t.policyQueue, policyWorkers := t.policyWorkers)
    ensures Handled(fetched, handled, policy, attempt) ==> Handled(s, t, policy, attempt)
    ensures WentWrong(fetched, policy, attempt) ==> WentWrong(s, policy, attempt)
  {
    SameUnmatched(s, fetched, policy, attempt);
    SameTrouble(s, fetched, policy, attempt);
    hide Selects, Cleanup, Preempted, PreemptedByPriority, Unmatched, CleanedMeta, Forgotten;
  }

  lemma SameTrouble(s: State, t: State, policy: Policy, attempt: Attempt)
    requires t.templates == s.templates && t.bound == s.bound && t.policies == s.policies
    ensures WentWrong(t, policy, attempt) ==> WentWrong(s, policy, attempt)
  {
    SameUnmatched(s, t, policy, attempt);
    assert Derived(t, policy) == Derived(s, policy);
    hide Unmatched, Forgotten, PreemptedByPriority, Derived;
    forall rs | rs in policy.selectors
      ensures Trouble(t, policy, rs, attempt) ==> Trouble(s, policy, rs, attempt)
    {
    }
    hide Trouble;
    if key :| key in Derived(t, policy) && !Fine(t, policy, key, attempt) {
      assert !Fine(s, policy, key, attempt);
    }
  }

  lemma SameUnmatched(s: State, t: State, policy: Policy, attempt: Attempt)
    requires t.templates == s.templates && t.bound == s.bound
    ensures forall key: Key :: Unmatched(t, policy, key) <==> Unmatched(s, policy, key)
    ensures forall key: Key :: Forgotten(t, policy, key, attempt) <==> Forgotten(s, policy, key, attempt)
    ensures forall key: Key :: key in s.templates ==>
      CleanedMeta(t, policy, key, attempt) == CleanedMeta(s, policy, key, attempt)
  {
    hide Selects, Cleanup;
  }

  lemma FetchStep(s: State, ref: PolicyRef, t: State)
    requires Good(s) && ref in s.policies && !s.policies[ref].deleting && ref in s.policyQueue && ref !in s.policyWorkers
    requires t == s.(policyQueue := s.policyQueue - {ref}, policyWorkers := s.policyWorkers[ref := Fetched(s.policies[ref])])
    ensures Handling(t, s.policies[ref])
    ensures Enabled(s, DequeuePolicy(ref)) && Do(s, DequeuePolicy(ref)) == t
  {
    assert GoodPolicy(s.owners, ref, s.policies[ref]);
    StepKeepsGood(s, DequeuePolicy(ref));
    hide Good;
  }

  /** The turn ends: without an error it is done, with one it fails. */
  lemma LastStep(s: State, t: State, policy: Policy, ok: bool)
    requires Handling(s, policy) && (ok ==> s.policyWorkers[policy.ref] == Releasing(policy, {}))
    requires t == s.(
      policyWorkers := s.policyWorkers - {policy.ref},
      policyQueue := s.policyQueue + if ok then {} else {policy.ref})
    ensures Works(s, t, PolicyWorker(policy.ref, ok)) && Good(t)
  {
    hide Good;
    var last := if ok then DonePolicy(policy.ref) else FailPolicy(policy.ref);
    assert Enabled(s, last);
    assert s.policyQueue + {} == s.policyQueue;
    assert Do(s, last) == t;
    hide Enabled, Do, Handling;
    StepKeepsGood(s, last);
    OneStep(s, last, t, PolicyWorker(policy.ref, ok));
  }

  lemma EndStep(s: State, fetched: State, handled: State, t: State, policy: Policy, ok: bool)
    requires Enabled(s, DequeuePolicy(policy.ref)) && Do(s, DequeuePolicy(policy.ref)) == fetched
    requires Works(fetched, handled, PolicyWorker(policy.ref, true))
    requires Works(handled, t, PolicyWorker(policy.ref, ok))
    ensures exists actions :: actions != [] && IsWork(s, actions, t, PolicyWorker(policy.ref, ok))
  {
    hide Enabled, Do;
    var ref, who := policy.ref, PolicyWorker(policy.ref, ok);
    var turn :| IsWork(fetched, turn, handled, PolicyWorker(ref, true));
    assert IsWork(fetched, turn, handled, who);
    Then(fetched, handled, t, who);
    var rest :| IsWork(fetched, rest, t, who);
    var actions := [DequeuePolicy(ref)] + rest;
    assert actions[1..] == rest;
    assert Runs(s, actions, t);
    assert IsWork(s, actions, t, who);
  }
}
