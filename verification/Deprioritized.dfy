/** What happens to the other policies when one policy loses priority (pkg/detector/preemption.go). */
module Deprioritized {
  import opened Wrappers
  import opened Policies
  import opened Claims
  import opened Detector
  import opened DetectorInvariants
  import opened PreemptionOrder
  import opened PolicyWorkers

  /** Negative if `a` goes first: the higher priority does. */
  function PriorityDescendingComparator(a: Policy, b: Policy): int {
    if b.ExplicitPriority() > a.ExplicitPriority() then 1
    else if b.ExplicitPriority() < a.ExplicitPriority() then -1
    else 0
  }

  /** The priority queue, by what it promises: an element that none precedes is dequeued, whichever of several. */
  class PriorityQueue {
    var items: seq<Policy>

    constructor ()
      ensures items == []
    {
      items := [];
    }

    method Enqueue(p: Policy)
      modifies this
      ensures multiset(items) == multiset(old(items)) + multiset{p}
    {
      items := items + [p];
    }

    method Dequeue() returns (first: Option<Policy>)
      modifies this
      ensures old(items) == [] ==> first.None? && items == []
      ensures old(items) != [] ==>
        && first.Some? && first.value in old(items)
        && multiset(items) == multiset(old(items)) - multiset{first.value}
        && |items| == |old(items)| - 1
        && forall q <- old(items) :: PriorityDescendingComparator(first.value, q) <= 0
    {
      if items == [] {
        return None;
      }
      var at := 0;
      for i := 1 to |items|
        invariant 0 <= at < |items|
        invariant forall j :: 0 <= j < i ==> PriorityDescendingComparator(items[at], items[j]) <= 0
      {
        if PriorityDescendingComparator(items[i], items[at]) < 0 {
          at := i;
        }
      }
      first := Some(items[at]);
      assert items == items[..at] + [items[at]] + items[at + 1..];
      items := items[..at] + items[at + 1..];
    }
  }

  /** Whether a policy is put on the queue again: it preempts, and has a priority that now is high enough and
      was not before. */
  predicate Potential(p: Policy, oldPolicy: Policy, newPolicy: Policy) {
    && p.priority.Some? && p.preempts
    && newPolicy.ExplicitPriority() < p.ExplicitPriority() < oldPolicy.ExplicitPriority()
  }

  ghost predicate NonIncreasing(queue: seq<Policy>) {
    forall i, j :: 0 <= i < j < |queue| ==> queue[i].ExplicitPriority() >= queue[j].ExplicitPriority()
  }

  ghost predicate Exactly(items: seq<Policy>, listed: seq<Policy>, oldPolicy: Policy, newPolicy: Policy) {
    forall p ::
      multiset(items)[p] == (if Potential(p, oldPolicy, newPolicy) then multiset(listed)[p] else 0)
  }

  ghost predicate Requeued(requeued: seq<Policy>, listed: seq<Policy>, oldPolicy: Policy, newPolicy: Policy) {
    NonIncreasing(requeued) && Exactly(requeued, listed, oldPolicy, newPolicy)
  }

  /** What is put on the queue again, read off the policies: those listed that preempt and have a priority of their own,
      above the new one and below the old one (a missing one counts as zero), each as often as listed, the higher
      priority first. */
  lemma RequeuedMeans(requeued: seq<Policy>, listed: seq<Policy>, oldPolicy: Policy, newPolicy: Policy)
    requires Requeued(requeued, listed, oldPolicy, newPolicy)
    ensures
      var above := if newPolicy.priority.Some? then newPolicy.priority.value else 0;
      var below := if oldPolicy.priority.Some? then oldPolicy.priority.value else 0;
      && (forall p :: multiset(requeued)[p] ==
           if p.preempts && p.priority.Some? && above < p.priority.value < below then multiset(listed)[p] else 0)
      && (forall p <- requeued :: p.priority.Some?)
      && (forall i, j :: 0 <= i < j < |requeued| ==> requeued[i].priority.value >= requeued[j].priority.value)
  {
    forall p | p in requeued
      ensures p.priority.Some?
    {
      assert multiset(requeued)[p] > 0;
    }
  }

  /** `HandleDeprioritizedPropagationPolicy` and its cluster twin: exactly the potential policies are put on the
      queue again, as often as they are listed, highest priority first. */
  method HandleDeprioritizedPolicy(oldPolicy: Policy, newPolicy: Policy, listed: seq<Policy>)
    returns (requeued: seq<Policy>)
    ensures Requeued(requeued, listed, oldPolicy, newPolicy)
  {
    var sortedPotentialKeys := new PriorityQueue();
    for i := 0 to |listed|
      invariant fresh(sortedPotentialKeys)
      invariant Exactly(sortedPotentialKeys.items, listed[..i], oldPolicy, newPolicy)
    {
      assert listed[..i + 1] == listed[..i] + [listed[i]];
      hide Potential;
      if Potential(listed[i], oldPolicy, newPolicy) {
        sortedPotentialKeys.Enqueue(listed[i]);
      }
    }
    assert listed[..|listed|] == listed;
    requeued := RequeuePotentialKeys(sortedPotentialKeys);
  }

  /** Drains the queue. */
  method RequeuePotentialKeys(sortedPotentialKeys: PriorityQueue) returns (requeued: seq<Policy>)
    modifies sortedPotentialKeys
    ensures NonIncreasing(requeued) && multiset(requeued) == multiset(old(sortedPotentialKeys.items))
    ensures sortedPotentialKeys.items == []
  {
    requeued := [];
    while true
      invariant multiset(requeued) + multiset(sortedPotentialKeys.items) == multiset(old(sortedPotentialKeys.items))
      invariant NonIncreasing(requeued)
      invariant forall p, q :: p in requeued && q in sortedPotentialKeys.items ==>
        p.ExplicitPriority() >= q.ExplicitPriority()
      decreases |sortedPotentialKeys.items|
    {
      ghost var items := sortedPotentialKeys.items;
      var key := sortedPotentialKeys.Dequeue();
      if key.None? {
        break;
      }
      RestIsIn(items, key.value, sortedPotentialKeys.items);
      requeued := requeued + [key.value];
    }
  }

  lemma RestIsIn(items: seq<Policy>, first: Policy, rest: seq<Policy>)
    requires multiset(rest) == multiset(items) - multiset{first}
    ensures forall q :: q in rest ==> q in items
  {
    forall q | q in rest
      ensures q in items
    {
      assert q in multiset(rest);
      assert q in multiset(items);
    }
  }

  /** A template after each of the policies in turn has tried to preempt it. */
  function AfterAll(policies: map<PolicyRef, Policy>, key: Key, meta: Meta, queue: seq<Policy>): Meta
    decreases |queue|
  {
    if queue == [] then meta
    else AfterAll(policies, key, AfterOne(policies, key, meta, queue[0]), queue[1..])
  }

  function AfterOne(policies: map<PolicyRef, Policy>, key: Key, meta: Meta, p: Policy): Meta {
    if Names(p, key) then Preempted(policies, meta, p) else meta
  }

  function Changes(policies: map<PolicyRef, Policy>, key: Key, meta: Meta, queue: seq<Policy>): nat
    decreases |queue|
  {
    if queue == [] then 0
    else
      var after := AfterOne(policies, key, meta, queue[0]);
      (if after != meta then 1 else 0) + Changes(policies, key, after, queue[1..])
  }

  ghost predicate AllCurrent(s: State, queue: seq<Policy>) {
    forall p <- queue :: p.ref in s.policies && s.policies[p.ref] == p
  }

  ghost predicate Outranked(s: State, key: Key, meta: Meta, queue: seq<Policy>) {
    forall p <- queue :: Names(p, key) ==> PolicyRank(p) <= Rank(s.policies, meta)
  }

  lemma {:induction false} NothingOutranked(s: State, key: Key, meta: Meta, queue: seq<Policy>)
    requires Good(s) && GoodMeta(s.owners, meta) && AllCurrent(s, queue)
    requires Outranked(s, key, meta, queue)
    ensures AfterAll(s.policies, key, meta, queue) == meta && Changes(s.policies, key, meta, queue) == 0
  {
    if queue != [] {
      PreemptedExactly(s, meta, queue[0]);
      NothingOutranked(s, key, meta, queue[1..]);
    }
  }

  /** The queue goes downwards in rank; within one kind of policy that is downwards in priority. */
  ghost predicate Descending(queue: seq<Policy>) {
    forall i, j :: 0 <= i < j < |queue| ==> PolicyRank(queue[i]) >= PolicyRank(queue[j])
  }

  lemma PriorityIsRank(queue: seq<Policy>, namespaced: bool)
    requires NonIncreasing(queue) && forall p <- queue :: p.ref.PP? == namespaced
    ensures Descending(queue)
  {
    forall i, j | 0 <= i < j < |queue|
      ensures PolicyRank(queue[i]) >= PolicyRank(queue[j])
    {
      assert queue[i] in queue && queue[j] in queue;
    }
  }

  /** `p` names the template and is one of the highest that do. */
  ghost predicate Highest(queue: seq<Policy>, key: Key, p: Policy) {
    p in queue && Names(p, key) && forall q <- queue :: Names(q, key) ==> PolicyRank(q) <= PolicyRank(p)
  }

  /** Taken in this order, the policies change the claim of a template at most once: it goes to a highest one of
      those that name it if that is higher than the claiming policy, and stays otherwise. */
  lemma {:induction false} HighestWinsAtOnce(s: State, key: Key, meta: Meta, queue: seq<Policy>)
    requires Good(s) && GoodMeta(s.owners, meta) && ClaimOf(meta).By? && ClaimOf(meta).ref in s.policies
    requires AllCurrent(s, queue) && Descending(queue)
    ensures Changes(s.policies, key, meta, queue) <= 1
    ensures Outranked(s, key, meta, queue) ==> AfterAll(s.policies, key, meta, queue) == meta
    ensures !Outranked(s, key, meta, queue) ==>
      exists p :: Highest(queue, key, p) && ClaimOf(AfterAll(s.policies, key, meta, queue)) == By(p.ref, p.id)
    decreases |queue|
  {
    if Outranked(s, key, meta, queue) {
      NothingOutranked(s, key, meta, queue);
    } else {
      var p, rest := queue[0], queue[1..];
      FirstTakesOrNot(s, key, meta, queue);
      var after := AfterOne(s.policies, key, meta, p);
      hide Good, GoodMeta, PolicyRank, Rank, Preempted, AfterOne, ClaimOf, Names;
      if after == meta {
        HighestWinsAtOnce(s, key, meta, rest);
        var w :| Highest(rest, key, w) && ClaimOf(AfterAll(s.policies, key, meta, rest)) == By(w.ref, w.id);
        assert Highest(queue, key, w);
      } else {
        NothingOutranked(s, key, after, rest);
        assert Highest(queue, key, p);
      }
    }
  }

  /** The first policy either leaves the template to a higher one, or takes it for good. */
  lemma FirstTakesOrNot(s: State, key: Key, meta: Meta, queue: seq<Policy>)
    requires Good(s) && GoodMeta(s.owners, meta) && ClaimOf(meta).By? && ClaimOf(meta).ref in s.policies
    requires AllCurrent(s, queue) && Descending(queue) && !Outranked(s, key, meta, queue)
    ensures queue != []
    ensures var after := AfterOne(s.policies, key, meta, queue[0]);
      if after == meta then !Names(queue[0], key) && !Outranked(s, key, meta, queue[1..])
      else
        && GoodMeta(s.owners, after) && Outranked(s, key, after, queue[1..])
        && Highest(queue, key, queue[0]) && ClaimOf(after) == By(queue[0].ref, queue[0].id)
  {
    var p := queue[0];
    assert forall i :: 0 < i < |queue| ==> PolicyRank(p) >= PolicyRank(queue[i]);
    assert forall q :: q in queue <==> q == p || q in queue[1..];
    assert forall q <- queue :: PolicyRank(q) <= PolicyRank(p);
    PreemptedExactly(s, meta, p);
    PreemptedIsGood(s, meta, p);
  }

  /** A listed policy that is put on the queue and names the template. */
  predicate Candidate(listed: seq<Policy>, oldPolicy: Policy, newPolicy: Policy, key: Key, p: Policy) {
    p in listed && Potential(p, oldPolicy, newPolicy) && Names(p, key)
  }

  lemma RequeuedIsPotential(requeued: seq<Policy>, listed: seq<Policy>, oldPolicy: Policy, newPolicy: Policy)
    requires Exactly(requeued, listed, oldPolicy, newPolicy)
    ensures forall p :: p in requeued <==> p in listed && Potential(p, oldPolicy, newPolicy)
  {
    forall p
      ensures p in requeued <==> p in listed && Potential(p, oldPolicy, newPolicy)
    {
      assert p in requeued <==> multiset(requeued)[p] > 0;
      assert p in listed <==> multiset(listed)[p] > 0;
    }
  }

  /** What the policies that are put on the queue again make of a claimed template: it changes hands at most once,
      to one of the candidates with the highest priority, and does so exactly if some candidate ranks above the
      claiming policy. */
  lemma BestCandidateWins(
      s: State, key: Key, meta: Meta, namespaced: bool,
      requeued: seq<Policy>, listed: seq<Policy>, oldPolicy: Policy, newPolicy: Policy)
    requires Good(s) && GoodMeta(s.owners, meta) && ClaimOf(meta).By? && ClaimOf(meta).ref in s.policies
    requires AllCurrent(s, listed) && forall p <- listed :: p.ref.PP? == namespaced
    requires Requeued(requeued, listed, oldPolicy, newPolicy)
    ensures Changes(s.policies, key, meta, requeued) <= 1
    ensures (forall p | Candidate(listed, oldPolicy, newPolicy, key, p) :: PolicyRank(p) <= Rank(s.policies, meta)) ==>
      AfterAll(s.policies, key, meta, requeued) == meta
    ensures (exists p | Candidate(listed, oldPolicy, newPolicy, key, p) :: PolicyRank(p) > Rank(s.policies, meta)) ==>
      exists p | Candidate(listed, oldPolicy, newPolicy, key, p) ::
        && (forall q | Candidate(listed, oldPolicy, newPolicy, key, q) :: q.ExplicitPriority() <= p.ExplicitPriority())
        && ClaimOf(AfterAll(s.policies, key, meta, requeued)) == By(p.ref, p.id)
  {
    RequeuedIsPotential(requeued, listed, oldPolicy, newPolicy);
    PriorityIsRank(requeued, namespaced);
    HighestWinsAtOnce(s, key, meta, requeued);
    assert forall p :: Candidate(listed, oldPolicy, newPolicy, key, p) <==> p in requeued && Names(p, key);
    if !Outranked(s, key, meta, requeued) {
      var p :| Highest(requeued, key, p) && ClaimOf(AfterAll(s.policies, key, meta, requeued)) == By(p.ref, p.id);
      hide Names, Potential, Good, GoodMeta, Requeued, AllCurrent;
      assert Candidate(listed, oldPolicy, newPolicy, key, p);
      forall q | Candidate(listed, oldPolicy, newPolicy, key, q)
        ensures q.ExplicitPriority() <= p.ExplicitPriority()
      {
        assert PolicyRank(q) <= PolicyRank(p);
      }
    }
  }

  /** A template of the policy that lost priority changes hands exactly if some candidate names it. */
  lemma DeprioritizedLosesExactly(
      s: State, key: Key, meta: Meta,
      requeued: seq<Policy>, listed: seq<Policy>, oldPolicy: Policy, newPolicy: Policy)
    requires Good(s) && GoodMeta(s.owners, meta) && ClaimOf(meta).By? && ClaimOf(meta).ref == newPolicy.ref
    requires newPolicy.ref in s.policies && s.policies[newPolicy.ref] == newPolicy
    requires AllCurrent(s, listed) && forall p <- listed :: p.ref.PP? == newPolicy.ref.PP?
    requires Requeued(requeued, listed, oldPolicy, newPolicy)
    ensures AfterAll(s.policies, key, meta, requeued) != meta <==>
      exists p :: Candidate(listed, oldPolicy, newPolicy, key, p)
  {
    BestCandidateWins(s, key, meta, newPolicy.ref.PP?, requeued, listed, oldPolicy, newPolicy);
    assert GoodPolicy(s.owners, newPolicy.ref, newPolicy);
    forall p | Candidate(listed, oldPolicy, newPolicy, key, p)
      ensures PolicyRank(p) > Rank(s.policies, meta) && p.ref != newPolicy.ref
    {
      assert p in listed && p.ref in s.policies;
    }
  }

  /** The policies have had one turn each, one after the other, all without an error. */
  ghost predicate Turns(states: seq<State>, queue: seq<Policy>, attempts: seq<PolicyWorkers.Attempt>) {
    && |states| == |queue| + 1 && |attempts| == |queue|
    && forall i :: 0 <= i < |queue| ==> Turn(states[i], states[i + 1], queue[i], attempts[i])
  }

  /** The binding carries no ID of a policy that does not name the template; such a policy would clean it up. */
  ghost predicate CarriesNoOther(s: State, key: Key, queue: seq<Policy>) {
    forall p <- queue :: MarkOf(key, p) in s.bound ==> Names(p, key)
  }

  /** One turn preempts the template if the policy names it, and leaves it alone otherwise. */
  lemma TurnIsAfterOne(s: State, t: State, key: Key, p: Policy, attempt: PolicyWorkers.Attempt)
    requires Turn(s, t, p, attempt) && key in s.templates && p.preempts
    requires MarkOf(key, p) in s.bound ==> Names(p, key)
    ensures key in t.templates && t.templates[key].meta == AfterOne(s.policies, key, s.templates[key].meta, p)
  {
    if Names(p, key) {
      NamesSelects(p, key, s.templates[key].meta.labels);
    }
    hide Names, Selects, Preempted;
    assert t.templates[key].meta == Outcome(s, p, key);
  }

  lemma {:induction false} TurnsAreAfterAll(
      states: seq<State>, key: Key, queue: seq<Policy>, attempts: seq<PolicyWorkers.Attempt>)
    requires Turns(states, queue, attempts) && key in states[0].templates
    requires CarriesNoOther(states[0], key, queue) && forall p <- queue :: p.preempts
    ensures key in states[|queue|].templates
    ensures states[|queue|].templates[key].meta ==
      AfterAll(states[0].policies, key, states[0].templates[key].meta, queue)
    decreases |queue|
  {
    if queue != [] {
      assert Turn(states[0], states[1], queue[0], attempts[0]);
      TurnIsAfterOne(states[0], states[1], key, queue[0], attempts[0]);
      forall i | 0 <= i < |queue| - 1
        ensures Turn(states[1..][i], states[1..][i + 1], queue[1..][i], attempts[1..][i])
      {
        assert Turn(states[i + 1], states[i + 2], queue[i + 1], attempts[i + 1]);
      }
      assert states[1].policies == states[0].policies && states[1].bound <= states[0].bound;
      hide Turn, AfterOne, Names;
      TurnsAreAfterAll(states[1..], key, queue[1..], attempts[1..]);
    }
  }

  /** What the worker makes of a policy's loss of priority: once every policy that was put on the queue again has had
      its turn, a template of that policy is claimed by one of the candidates with the highest priority if there is a
      candidate, and is as it was otherwise. */
  lemma DeprioritizedEndsWithBest(
      states: seq<State>, attempts: seq<PolicyWorkers.Attempt>, key: Key,
      requeued: seq<Policy>, listed: seq<Policy>, oldPolicy: Policy, newPolicy: Policy)
    requires Turns(states, requeued, attempts) && Good(states[0]) && key in states[0].templates
    requires ClaimOf(states[0].templates[key].meta).By? && ClaimOf(states[0].templates[key].meta).ref == newPolicy.ref
    requires newPolicy.ref in states[0].policies && states[0].policies[newPolicy.ref] == newPolicy
    requires AllCurrent(states[0], listed) && forall p <- listed :: p.ref.PP? == newPolicy.ref.PP?
    requires Requeued(requeued, listed, oldPolicy, newPolicy) && CarriesNoOther(states[0], key, requeued)
    ensures key in states[|requeued|].templates
    ensures var before, after := states[0].templates[key].meta, states[|requeued|].templates[key].meta;
      if exists p :: Candidate(listed, oldPolicy, newPolicy, key, p) then
        exists p | Candidate(listed, oldPolicy, newPolicy, key, p) ::
          && (forall q | Candidate(listed, oldPolicy, newPolicy, key, q) :: q.ExplicitPriority() <= p.ExplicitPriority())
          && ClaimOf(after) == By(p.ref, p.id)
      else after == before
  {
    var s, meta := states[0], states[0].templates[key].meta;
    assert GoodMeta(s.owners, meta);
    RequeuedIsPotential(requeued, listed, oldPolicy, newPolicy);
    TurnsAreAfterAll(states, key, requeued, attempts);
    hide Turns, CarriesNoOther;
    BestCandidateWins(s, key, meta, newPolicy.ref.PP?, requeued, listed, oldPolicy, newPolicy);
    CandidatesOutrank(s, key, meta, listed, oldPolicy, newPolicy);
    hide *;
  }

  /** Every candidate ranks above the policy that lost priority. */
  lemma CandidatesOutrank(
      s: State, key: Key, meta: Meta, listed: seq<Policy>, oldPolicy: Policy, newPolicy: Policy)
    requires Good(s) && ClaimOf(meta).By? && ClaimOf(meta).ref == newPolicy.ref
    requires newPolicy.ref in s.policies && s.policies[newPolicy.ref] == newPolicy
    requires forall p <- listed :: p.ref.PP? == newPolicy.ref.PP?
    ensures forall p | Candidate(listed, oldPolicy, newPolicy, key, p) :: PolicyRank(p) > Rank(s.policies, meta)
  {
    assert GoodPolicy(s.owners, newPolicy.ref, newPolicy);
    hide Names, Good;
  }
}
