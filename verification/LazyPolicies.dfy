/** Exactly when a template can get lost: two queue keys for one template let an outdated worker take it from the
    waiting list. */
module LazyPolicies {
  import opened Wrappers
  import opened Policies
  import opened Claims
  import opened Detector
  import opened NoTemplateLost
  import opened ProtocolRuns

  const NO_META := Meta(map[], map[])

  /** Live, unclaimed, and nowhere remembered. */
  predicate Lost(s: State, key: Key) {
    && Loose(s, key) && key !in s.waiting
    && forall byKarmada :: QueueKey(key, byKarmada) !in s.queue && QueueKey(key, byKarmada) !in s.workers
  }

  predicate Puttable(p: Policy) {
    Admitted(p) && !p.deleting
  }

  /** A lazy version of a policy, and a version of the same policy that can claim the template; or a lazy version that
      can find it waiting. */
  ghost predicate Harmful(p: Policy, q: Policy, k: Key) {
    && Puttable(p) && Puttable(q) && p.ref == q.ref && p.isLazy
    && (Claimable(q, k) || Matchable(p, k))
  }

  // Moves of the worker that is to find no policy

  /** Every policy is being deleted. */
  predicate Barren(s: State) {
    forall ref <- s.policies :: s.policies[ref].deleting
  }

  /** The template waits in the queue, unclaimed, and its worker is free. */
  predicate Queued(s: State, k: Key) {
    Loose(s, k) && Q(k) in s.queue && Q(k) !in s.workers
  }

  function Taken(s: State, k: Key, phase: Phase): State {
    At(s.(queue := s.queue - {Q(k)}), Q(k), phase)
  }

  lemma ToRead(s: State, k: Key, who: Actor)
    requires Queued(s, k) && who.Everyone?
    ensures Works(s, Taken(s, k, Read(Some(s.templates[k]))), who)
  {
    var started, read := Taken(s, k, Started), Taken(s, k, Read(Some(s.templates[k])));
    OneStep(s, Dequeue(Q(k)), started, who);
    assert s.workers[Q(k) := Started][Q(k) := read.workers[Q(k)]] == read.workers;
    OneStep(started, ReadObject(Q(k)), read, who);
    hide *;
    Then(s, started, read, who);
  }

  lemma NothingToFind(s: State, k: Key, labels: map<LabelKey, string>, namespaced: bool)
    requires Barren(s)
    ensures Chosen(s, k, labels, namespaced, None)
  {
    hide Selects;
  }

  lemma ToNoPolicy(s: State, k: Key, who: Actor)
    requires Queued(s, k) && Barren(s) && who.Everyone?
    ensures var o := Some(s.templates[k]);
      Works(Taken(s, k, Read(o)), Taken(s, k, NoPolicy(o)), who)
  {
    var o := Some(s.templates[k]);
    var read, next := Taken(s, k, Read(o)), Taken(s, k, NoPolicy(o));
    NothingToFind(read, k, o.value.meta.labels, true);
    assert s.workers[Q(k) := Read(o)][Q(k) := NoPolicy(o)] == s.workers[Q(k) := NoPolicy(o)];
    hide Chosen, ClaimOf, TakenOver;
    assert Enabled(read, LookForPolicy(Q(k), None));
    assert Do(read, LookForPolicy(Q(k), None)) == DoLook(read, Q(k), None, true);
    OneStep(read, LookForPolicy(Q(k), None), next, who);
  }

  lemma ToNoMatch(s: State, k: Key, who: Actor)
    requires Queued(s, k) && Barren(s) && who.Everyone?
    ensures var o := Some(s.templates[k]);
      Works(Taken(s, k, NoPolicy(o)), Taken(s, k, NoMatch(o)), who)
  {
    var o := Some(s.templates[k]);
    var read, next := Taken(s, k, NoPolicy(o)), Taken(s, k, NoMatch(o));
    NothingToFind(read, k, o.value.meta.labels, false);
    assert s.workers[Q(k) := NoPolicy(o)][Q(k) := NoMatch(o)] == s.workers[Q(k) := NoMatch(o)];
    hide Chosen, ClaimOf, TakenOver;
    assert Enabled(read, LookForClusterPolicy(Q(k), None));
    assert Do(read, LookForClusterPolicy(Q(k), None)) == DoLook(read, Q(k), None, false);
    OneStep(read, LookForClusterPolicy(Q(k), None), next, who);
  }

  /** The first time the template is put on the waiting list and queued once more, then it rests. */
  function Searched(s: State, k: Key): State {
    if k in s.waiting then s.(queue := s.queue - {Q(k)}) else s.(waiting := s.waiting + {k})
  }

  lemma ToSearched(s: State, k: Key, who: Actor)
    requires Queued(s, k) && who.Everyone?
    ensures Works(Taken(s, k, NoMatch(Some(s.templates[k]))), Searched(s, k), who)
  {
    var from := Taken(s, k, NoMatch(Some(s.templates[k])));
    assert from.workers - {Q(k)} == s.workers && s.queue - {Q(k)} + {Q(k)} == s.queue;
    OneStep(from, Settle(Q(k)), Searched(s, k), who);
  }

  lemma SearchInVain(s: State, k: Key, who: Actor)
    requires Queued(s, k) && Barren(s) && who.Everyone?
    ensures Works(s, Searched(s, k), who)
  {
    var o := Some(s.templates[k]);
    ToRead(s, k, who);
    ToNoPolicy(s, k, who);
    ToNoMatch(s, k, who);
    ToSearched(s, k, who);
    hide *;
    Then(s, Taken(s, k, Read(o)), Taken(s, k, NoPolicy(o)), who);
    Then(s, Taken(s, k, NoPolicy(o)), Taken(s, k, NoMatch(o)), who);
    Then(s, Taken(s, k, NoMatch(o)), Searched(s, k), who);
  }

  // From two queue keys to the loss

  /** The template is deleted, and queued under both keys. */
  predicate Doubled(s: State, k: Key, p: Policy) {
    && s.templates == map[] && s.waiting == {} && s.workers == map[]
    && s.queue == {Q(k), QueueKey(k, true)} && s.policies == map[p.ref := p]
  }

  function Gone(s: State, k: Key): State {
    s.(queue := {Q(k)}, workers := map[QueueKey(k, true) := Read(None)])
  }

  /** One worker has found the template gone; the policy is being deleted, and the template was created anew. */
  function Outdated(s: State, k: Key, p: Policy): State {
    Gone(s, k).(templates := map[k := Template(NO_META, s.nextVersion)], nextVersion := s.nextVersion + 1,
                policies := map[p.ref := p.(deleting := true)], policyQueue := s.policyQueue + {p.ref})
  }

  lemma ToGone(s: State, k: Key, p: Policy, who: Actor)
    requires Doubled(s, k, p) && who.Everyone?
    ensures Works(s, Gone(s, k), who)
  {
    var q := QueueKey(k, true);
    var started := s.(queue := {Q(k)}, workers := map[q := Started]);
    assert s.queue - {q} == {Q(k)};
    OneStep(s, Dequeue(q), started, who);
    OneStep(started, ReadObject(q), Gone(s, k), who);
    hide *;
    Then(s, started, Gone(s, k), who);
  }

  lemma ToOutdated(s: State, k: Key, p: Policy, who: Actor)
    requires Doubled(s, k, p) && who.Everyone?
    ensures Works(Gone(s, k), Outdated(s, k, p), who)
  {
    var gone, t := Gone(s, k), Outdated(s, k, p);
    var deleting := gone.(policies := t.policies, policyQueue := t.policyQueue);
    OneStep(gone, MarkDeleting(p.ref), deleting, who);
    OneStep(deleting, CreateTemplate(k, NO_META), t, who);
    hide *;
    Then(gone, deleting, t, who);
  }

  lemma CanSearch(s: State, k: Key, p: Policy, waiting: set<Key>)
    requires Doubled(s, k, p)
    ensures var t := Outdated(s, k, p).(waiting := waiting);
      && Queued(t, k) && Barren(t)
      && Searched(t, k) == if k in waiting then t.(queue := {}) else t.(waiting := waiting + {k})
  {
    assert {Q(k)} - {Q(k)} == {};
  }

  lemma ToResting(s: State, k: Key, p: Policy, who: Actor)
    requires Doubled(s, k, p) && who.Everyone?
    ensures Works(Outdated(s, k, p), Outdated(s, k, p).(waiting := {k}, queue := {}), who)
  {
    var outdated := Outdated(s, k, p);
    var once := outdated.(waiting := {k});
    var resting := once.(queue := {});
    CanSearch(s, k, p, {});
    CanSearch(s, k, p, {k});
    assert outdated.(waiting := {}) == outdated && {} + {k} == {k};
    assert Searched(outdated, k) == once && Searched(once, k) == resting;
    hide *;
    SearchInVain(outdated, k, who);
    SearchInVain(once, k, who);
    Then(outdated, once, resting, who);
  }

  /** The outdated worker takes the template from the waiting list, where it has just come to rest. */
  lemma ToLost(s: State, k: Key, p: Policy, who: Actor)
    requires Doubled(s, k, p) && who.Everyone?
    ensures var t := Outdated(s, k, p).(queue := {}, workers := map[]);
      Works(Outdated(s, k, p).(waiting := {k}, queue := {}), t, who) && Lost(t, k)
  {
    var t := Outdated(s, k, p).(queue := {}, workers := map[]);
    OneStep(Outdated(s, k, p).(waiting := {k}, queue := {}), Drop(QueueKey(k, true)), t, who);
  }

  lemma DoubledIsLost(s: State, k: Key, p: Policy, who: Actor)
    requires Doubled(s, k, p) && who.Everyone?
    ensures exists t :: Works(s, t, who) && Lost(t, k)
  {
    hide *;
    var outdated := Outdated(s, k, p);
    var t := outdated.(queue := {}, workers := map[]);
    ToGone(s, k, p, who);
    ToOutdated(s, k, p, who);
    ToResting(s, k, p, who);
    ToLost(s, k, p, who);
    Then(s, Gone(s, k), outdated, who);
    Then(s, outdated, outdated.(waiting := {k}, queue := {}), who);
    Then(s, outdated.(waiting := {k}, queue := {}), t, who);
  }

  // From the start to two queue keys: a lazy version finds the template on the waiting list

  function Waiting(k: Key, meta: Meta): State {
    INIT.(templates := map[k := Template(meta, 0)], nextVersion := 1, queue := {Q(k)}, waiting := {k})
  }

  lemma ToWaiting(k: Key, meta: Meta, who: Actor)
    requires Free(meta.labels) && meta.annotations == map[] && who.Everyone?
    ensures Works(INIT, Waiting(k, meta), who)
  {
    var created := Waiting(k, meta).(waiting := {});
    OneStep(INIT, CreateTemplate(k, meta), created, who);
    SearchInVain(created, k, who);
    assert Searched(created, k) == Waiting(k, meta);
    hide *;
    Then(INIT, created, Waiting(k, meta), who);
  }

  /** The template is taken over while it waits. */
  function Labelled(k: Key, meta: Meta, after: Meta): State {
    if meta == after then Waiting(k, meta)
    else Waiting(k, meta).(templates := map[k := Template(after, 1)], nextVersion := 2)
  }

  lemma ToLabelled(k: Key, meta: Meta, after: Meta, who: Actor)
    requires SameClaim(meta, after) && who.Everyone?
    ensures Works(Waiting(k, meta), Labelled(k, meta, after), who)
  {
    OneStep(Waiting(k, meta), EditTemplate(k, after, false), Labelled(k, meta, after), who);
  }

  function Put(s: State, p: Policy, phase: PolicyPhase): State {
    s.(policies := map[p.ref := p], owners := map[p.id := p.ref], policyWorkers := map[p.ref := phase])
  }

  lemma ToFetched(s: State, p: Policy, who: Actor)
    requires s.policies == map[] && s.owners == map[] && s.policyWorkers == map[] && s.policyQueue == {}
    requires Puttable(p) && who.Everyone? && p.(id := "") in who.versions
    ensures Works(s, Put(s, p, Fetched(p)), who)
  {
    var put := s.(policies := map[p.ref := p], owners := map[p.id := p.ref], policyQueue := {p.ref});
    hide Admitted;
    OneStep(s, PutPolicy(p), put, who);
    OneStep(put, DequeuePolicy(p.ref), Put(s, p, Fetched(p)), who);
    hide *;
    Then(s, put, Put(s, p, Fetched(p)), who);
  }

  lemma ToMatched(s: State, k: Key, p: Policy, who: Actor)
    requires s.waiting == {k} && k in s.templates && Selects(p, k, s.templates[k].meta.labels)
    requires !p.deleting && who.Everyone?
    ensures Works(Put(s, p, Fetched(p)), Put(s, p, Releasing(p, {k})), who)
  {
    var from, t := Put(s, p, Fetched(p)), Put(s, p, Releasing(p, {k}));
    hide Selects;
    var next := Do(from, Match(p.ref, {}));
    assert next.policyWorkers[p.ref].keys == {k};
    assert next.policyWorkers == t.policyWorkers;
    OneStep(from, Match(p.ref, {}), t, who);
  }

  lemma ToReleased(s: State, k: Key, p: Policy, who: Actor)
    requires s.waiting == {k} && s.templates.Keys == {k} && s.queue == {Q(k)} && s.workers == map[]
    requires p.isLazy && who.Everyone?
    ensures exists t :: Works(Put(s, p, Releasing(p, {k})), t, who) && Doubled(t, k, p)
  {
    var matched := Put(s, p, Releasing(p, {k}));
    var released := Put(s, p, Releasing(p, {})).(waiting := {}, queue := {Q(k), QueueKey(k, true)});
    assert {k} - {k} == {};
    OneStep(matched, Release(p.ref, k), released, who);
    var t := released.(templates := map[]);
    assert s.templates - {k} == map[];
    OneStep(released, DeleteTemplate(k), t, who);
    assert Doubled(t, k, p);
    hide *;
    Then(matched, released, t, who);
  }

  lemma FoundWaiting(p: Policy, k: Key, who: Actor)
    requires Puttable(p) && p.isLazy && Matchable(p, k) && who.Everyone? && p.(id := "") in who.versions
    ensures exists t :: Works(INIT, t, who) && Doubled(t, k, p)
  {
    var labels :| Unclaiming(labels) && Selects(p, k, labels);
    var meta, after := Meta(labels - {ResourceTemplateClaimedByLabel}, map[]), Meta(labels, map[]);
    hide Selects, Admitted;
    ToWaiting(k, meta, who);
    ToLabelled(k, meta, after, who);
    var s := Labelled(k, meta, after);
    ToFetched(s, p, who);
    ToMatched(s, k, p, who);
    ToReleased(s, k, p, who);
    var t :| Works(Put(s, p, Releasing(p, {k})), t, who) && Doubled(t, k, p);
    hide *;
    Then(INIT, Waiting(k, meta), s, who);
    Then(INIT, s, Put(s, p, Fetched(p)), who);
    Then(INIT, Put(s, p, Fetched(p)), Put(s, p, Releasing(p, {k})), who);
    Then(INIT, Put(s, p, Releasing(p, {k})), t, who);
  }

  // The same after a claim: one version claims the template, a lazy version queues it again

  function Created(q: Policy, k: Key, meta: Meta): State {
    State(map[k := Template(meta, 0)], 1, map[q.ref := q], map[q.id := q.ref], {}, {Q(k)}, map[], {q.ref}, map[], {})
  }

  lemma ToCreated(q: Policy, k: Key, meta: Meta, who: Actor)
    requires Puttable(q) && Free(meta.labels) && meta.annotations == map[]
    requires who.Everyone? && q.(id := "") in who.versions
    ensures Works(INIT, Created(q, k, meta), who)
  {
    var put := INIT.(policies := map[q.ref := q], owners := map[q.id := q.ref], policyQueue := {q.ref});
    hide Admitted;
    OneStep(INIT, PutPolicy(q), put, who);
    OneStep(put, CreateTemplate(k, meta), Created(q, k, meta), who);
    hide *;
    Then(INIT, put, Created(q, k, meta), who);
  }

  lemma IsCandidate(s: State, q: Policy, k: Key, labels: map<LabelKey, string>)
    requires Puttable(q) && s.policies == map[q.ref := q] && Selects(q, k, labels)
    ensures Chosen(s, k, labels, q.ref.PP?, Some(q))
    ensures q.ref.CPP? ==> Chosen(s, k, labels, true, None)
  {
    var rs :| rs in q.selectors && ResourceSelectorPriority(k, labels, rs) > MISMATCH;
    LessTotal(q.ref.name, q.ref.name);
    assert AtLeastAsGood(q, q, k, labels);
    assert q.ref.PP? ==> |rs.namespace| > 0 && k.namespace == rs.namespace;
    hide Selects, AtLeastAsGood;
  }

  lemma ToFound(s: State, q: Policy, k: Key, who: Actor)
    requires Queued(s, k) && Puttable(q) && s.policies == map[q.ref := q] && s.waiting == {}
    requires Selects(q, k, s.templates[k].meta.labels) && who.Everyone?
    ensures var o := Some(s.templates[k]);
      Works(Taken(s, k, if q.ref.PP? then Read(o) else NoPolicy(o)), Taken(s, k, Applying(o, q)), who)
  {
    var o := Some(s.templates[k]);
    var from := Taken(s, k, if q.ref.PP? then Read(o) else NoPolicy(o));
    var a := if q.ref.PP? then LookForPolicy(Q(k), Some(q)) else LookForClusterPolicy(Q(k), Some(q));
    IsCandidate(from, q, k, o.value.meta.labels);
    assert from.workers[Q(k) := Applying(o, q)] == s.workers[Q(k) := Applying(o, q)];
    hide Chosen, ClaimOf, TakenOver, Admitted, Selects;
    assert Enabled(from, a);
    assert Do(from, a) == DoLook(from, Q(k), Some(q), q.ref.PP?);
    OneStep(from, a, Taken(s, k, Applying(o, q)), who);
  }

  lemma ToNoNamespaced(s: State, q: Policy, k: Key, who: Actor)
    requires Queued(s, k) && Puttable(q) && s.policies == map[q.ref := q] && q.ref.CPP?
    requires Selects(q, k, s.templates[k].meta.labels) && who.Everyone?
    ensures var o := Some(s.templates[k]);
      Works(Taken(s, k, Read(o)), Taken(s, k, NoPolicy(o)), who)
  {
    var o := Some(s.templates[k]);
    var from, t := Taken(s, k, Read(o)), Taken(s, k, NoPolicy(o));
    IsCandidate(from, q, k, o.value.meta.labels);
    assert from.workers[Q(k) := NoPolicy(o)] == s.workers[Q(k) := NoPolicy(o)];
    hide Chosen, ClaimOf, TakenOver, Admitted, Selects;
    assert Enabled(from, LookForPolicy(Q(k), None));
    assert Do(from, LookForPolicy(Q(k), None)) == DoLook(from, Q(k), None, true);
    OneStep(from, LookForPolicy(Q(k), None), t, who);
  }

  lemma ToApplying(s: State, q: Policy, k: Key, who: Actor)
    requires Queued(s, k) && Puttable(q) && s.policies == map[q.ref := q] && s.waiting == {}
    requires Selects(q, k, s.templates[k].meta.labels) && who.Everyone?
    ensures Works(s, Taken(s, k, Applying(Some(s.templates[k]), q)), who)
  {
    var o := Some(s.templates[k]);
    ToRead(s, k, who);
    ToFound(s, q, k, who);
    if q.ref.CPP? {
      ToNoNamespaced(s, q, k, who);
      hide *;
      Then(s, Taken(s, k, Read(o)), Taken(s, k, NoPolicy(o)), who);
      Then(s, Taken(s, k, NoPolicy(o)), Taken(s, k, Applying(o, q)), who);
    } else {
      hide *;
      Then(s, Taken(s, k, Read(o)), Taken(s, k, Applying(o, q)), who);
    }
  }

  /** The claim is written, and its event flagged if the policy is lazy. */
  function Claiming(q: Policy, k: Key, meta: Meta): State {
    Created(q, k, meta).(
      templates := map[k := Template(Claimed(meta, q), 1)], nextVersion := 2, bound := {MarkOf(k, q)},
      queue := {QueueKey(k, q.isLazy)})
  }

  lemma ClaimIsNew(meta: Meta, q: Policy)
    requires Puttable(q) && Free(meta.labels) && meta.annotations == map[]
    ensures !AlreadyClaimed(meta, q) && Claimed(meta, q) != meta && ClaimOf(Claimed(meta, q)) == By(q.ref, q.id)
  {
    ClaimedIsWhole(meta, q);
    assert IDLabel(q.ref) in Claimed(meta, q).labels;
  }

  lemma ToClaiming(q: Policy, k: Key, meta: Meta, who: Actor)
    requires Puttable(q) && Free(meta.labels) && meta.annotations == map[] && who.Everyone?
    ensures Works(Taken(Created(q, k, meta), k, Applying(Some(Template(meta, 0)), q)), Claiming(q, k, meta), who)
  {
    var from, a := Taken(Created(q, k, meta), k, Applying(Some(Template(meta, 0)), q)), Apply(Q(k), q.isLazy, true);
    ClaimIsNew(meta, q);
    hide AlreadyClaimed, Claimed, ClaimOf, Admitted;
    assert Enabled(from, a);
    assert Do(from, a) == DoApply(from, Q(k), q.isLazy, true);
    ClaimingIsApplied(q, k, meta);
    hide Enabled, Do, DoApply;
    OneStep(from, a, Claiming(q, k, meta), who);
  }

  lemma ClaimingIsApplied(q: Policy, k: Key, meta: Meta)
    requires !AlreadyClaimed(meta, q) && Claimed(meta, q) != meta
    ensures DoApply(Taken(Created(q, k, meta), k, Applying(Some(Template(meta, 0)), q)), Q(k), q.isLazy, true)
      == Claiming(q, k, meta)
  {
    hide AlreadyClaimed, Claimed;
    var from := Taken(Created(q, k, meta), k, Applying(Some(Template(meta, 0)), q));
    assert Marked({}, k, q) == {MarkOf(k, q)};
    assert from.workers - {Q(k)} == map[] && {Q(k)} - {Q(k)} == {};
  }

  /** The policy becomes lazy, and the template is deleted. */
  function Deleted(p: Policy, q: Policy, k: Key, meta: Meta): State {
    Claiming(q, k, meta).(templates := map[], policies := map[p.ref := p], queue := {QueueKey(k, q.isLazy), Q(k)})
  }

  lemma ToDeleted(p: Policy, q: Policy, k: Key, meta: Meta, who: Actor)
    requires Puttable(p) && p.ref == q.ref && p.id == q.id && !q.deleting
    requires who.Everyone? && p.(id := "") in who.versions
    ensures Works(Claiming(q, k, meta), Deleted(p, q, k, meta), who)
  {
    var s := Claiming(q, k, meta);
    var put := s.(policies := map[p.ref := p]);
    hide Admitted, Claimed;
    OneStep(s, PutPolicy(p), put, who);
    OneStep(put, DeleteTemplate(k), Deleted(p, q, k, meta), who);
    hide *;
    Then(s, put, Deleted(p, q, k, meta), who);
  }

  lemma ToRefreshed(p: Policy, q: Policy, k: Key, meta: Meta, who: Actor)
    requires Puttable(p) && p.ref == q.ref && p.id == q.id && p.isLazy && who.Everyone?
    ensures exists t :: Works(Deleted(p, q, k, meta), t, who) && Doubled(t, k, p)
  {
    var s := Deleted(p, q, k, meta);
    var fetched := s.(policyQueue := {}, policyWorkers := map[p.ref := Fetched(p)]);
    var t := fetched.(queue := {Q(k), QueueKey(k, true)});
    hide Admitted, Claimed;
    OneStep(s, DequeuePolicy(p.ref), fetched, who);
    RefreshAgain(fetched, k, p, q.isLazy, who);
    assert Doubled(t, k, p);
    hide *;
    Then(s, fetched, t, who);
  }

  lemma RefreshAgain(s: State, k: Key, p: Policy, flag: bool, who: Actor)
    requires s.policyWorkers == map[p.ref := Fetched(p)] && !p.deleting && p.isLazy && MarkOf(k, p) in s.bound
    requires s.queue == {QueueKey(k, flag), Q(k)} && who.Everyone?
    ensures Works(s, s.(queue := {Q(k), QueueKey(k, true)}), who)
  {
    OneStep(s, Refresh(p.ref, k), s.(queue := {Q(k), QueueKey(k, true)}), who);
  }

  lemma ClaimedBefore(p: Policy, q: Policy, k: Key, who: Actor)
    requires Puttable(p) && Puttable(q) && p.ref == q.ref && p.id == q.id && p.isLazy && Claimable(q, k)
    requires who.Everyone? && p.(id := "") in who.versions && q.(id := "") in who.versions
    ensures exists t :: Works(INIT, t, who) && Doubled(t, k, p)
  {
    var labels :| Free(labels) && Selects(q, k, labels);
    var meta := Meta(labels, map[]);
    hide Selects, Admitted, Claimed;
    var created, applying := Created(q, k, meta), Taken(Created(q, k, meta), k, Applying(Some(Template(meta, 0)), q));
    ToCreated(q, k, meta, who);
    ToApplying(created, q, k, who);
    ToClaiming(q, k, meta, who);
    ToDeleted(p, q, k, meta, who);
    ToRefreshed(p, q, k, meta, who);
    var t :| Works(Deleted(p, q, k, meta), t, who) && Doubled(t, k, p);
    hide *;
    Then(INIT, created, applying, who);
    Then(INIT, applying, Claiming(q, k, meta), who);
    Then(INIT, Claiming(q, k, meta), Deleted(p, q, k, meta), who);
    Then(INIT, Deleted(p, q, k, meta), t, who);
  }

  // The theorems

  ghost predicate LosingRun(actions: seq<Action>, t: State, k: Key, versions: iset<Policy>) {
    Runs(INIT, actions, t) && Lost(t, k) && forall a <- actions :: Puts(a, versions)
  }

  lemma CalmRun(t: State, k: Key, versions: iset<Policy>)
    requires Works(INIT, t, Everyone(versions)) && Lost(t, k)
    ensures exists actions: seq<Action> ::
      LosingRun(actions, t, k, versions) && forall a <- actions :: !a.Fail? && !a.FailPolicy?
  {
    var actions :| IsWork(INIT, actions, t, Everyone(versions));
    hide Runs, Lost, Puts;
    forall a | a in actions
      ensures Puts(a, versions) && !a.Fail? && !a.FailPolicy?
    {
      assert StepOf(a, Everyone(versions));
    }
    assert LosingRun(actions, t, k, versions);
  }

  /** With such versions of a policy, the same one or two, there is a run without any failure, in which no other policy
      occurs, after which a live template that nobody has claimed is neither waiting nor queued nor being worked on. */
  lemma LazyPolicyLosesTemplate(p: Policy, q: Policy, k: Key)
    requires Harmful(p, q, k)
    ensures exists actions: seq<Action>, t: State ::
      && LosingRun(actions, t, k, iset{p.(id := ""), q.(id := "")})
      && forall a <- actions :: !a.Fail? && !a.FailPolicy?
  {
    var versions := iset{p.(id := ""), q.(id := "")};
    var who, own := Everyone(versions), p.(id := q.id);
    SameSelectors(p, own, k);
    assert own.(id := "") == p.(id := "");
    hide Claimable, Matchable, Works, Doubled, Lost;
    if Claimable(q, k) {
      ClaimedBefore(own, q, k, who);
    } else {
      FoundWaiting(own, k, who);
    }
    var s :| Works(INIT, s, who) && Doubled(s, k, own);
    DoubledIsLost(s, k, own, who);
    var t :| Works(s, t, who) && Lost(t, k);
    Then(INIT, s, t, who);
    CalmRun(t, k, versions);
  }

  lemma SameSelectors(p: Policy, q: Policy, k: Key)
    requires q == p.(id := q.id)
    ensures Claimable(p, k) <==> Claimable(q, k)
    ensures Matchable(p, k) <==> Matchable(q, k)
  {
    assert forall labels :: Selects(p, k, labels) <==> Selects(q, k, labels);
    hide Selects;
  }

  /** The names that have a lazy version. */
  ghost function Lazy(versions: iset<Policy>): iset<PolicyRef> {
    iset p: Policy | Puttable(p) && p.isLazy && p.(id := "") in versions :: p.ref
  }

  lemma {:induction false} PutsAreTame(s: State, actions: seq<Action>, t: State, k: Key, versions: iset<Policy>)
    requires Runs(s, actions, t) && forall a <- actions :: Puts(a, versions)
    requires !exists p, q :: Harmful(p, q, k) && p.(id := "") in versions && q.(id := "") in versions
    ensures forall a <- actions :: Tame(a, k, Lazy(versions))
    decreases |actions|
  {
    if actions != [] {
      var a := actions[0];
      PutsAreTame(Do(s, a), actions[1..], t, k, versions);
      if a.PutPolicy? {
        PutIsTame(s, a, k, versions);
      }
      assert forall b <- actions :: b == a || b in actions[1..];
      hide Tame, Puts;
    }
  }

  lemma PutIsTame(s: State, a: Action, k: Key, versions: iset<Policy>)
    requires a.PutPolicy? && Enabled(s, a) && Puts(a, versions)
    requires !exists p, q :: Harmful(p, q, k) && p.(id := "") in versions && q.(id := "") in versions
    ensures Tame(a, k, Lazy(versions))
  {
    var q := a.policy;
    hide Claimable, Matchable, Admitted;
    assert Puttable(q);
    if q.ref in Lazy(versions) {
      var p :| Puttable(p) && p.isLazy && p.(id := "") in versions && p.ref == q.ref;
      assert !Harmful(p, q, k);
      assert q.isLazy ==> !Harmful(q, q, k);
    }
  }

  /** Exactly which policies can make a template get lost, if they are put in the given versions only: one name has a
      lazy version and a version that can claim the template, or a lazy version that can find it waiting. */
  lemma LostExactlyIfLazy(k: Key, versions: iset<Policy>)
    ensures (exists actions, t :: LosingRun(actions, t, k, versions)) <==>
      exists p, q :: Harmful(p, q, k) && p.(id := "") in versions && q.(id := "") in versions
  {
    if p, q :| Harmful(p, q, k) && p.(id := "") in versions && q.(id := "") in versions {
      LazyPolicyLosesTemplate(p, q, k);
      var two := iset{p.(id := ""), q.(id := "")};
      var actions, t :| LosingRun(actions, t, k, two);
      assert forall a <- actions :: Puts(a, two) ==> Puts(a, versions);
      assert LosingRun(actions, t, k, versions);
    } else if actions, t :| LosingRun(actions, t, k, versions) {
      PutsAreTame(INIT, actions, t, k, versions);
      NoTemplateIsLost(actions, t, k, Lazy(versions));
    }
  }
}
