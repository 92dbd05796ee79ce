/** What the scheduler assumes about clusters that it has chosen but that do not yet run the workload
    (pkg/scheduler/scheduler.go, event_handler.go, cache/cache.go). */
module Assumptions {
  import opened FixedWidth
  import opened TargetClusters
  import opened Wrappers

  datatype Component = Component(name: string, replicas: Int32, requirements: Option<string>)

  datatype AssumedWorkload = AssumedWorkload(namespace: string, components: seq<Component>)

  datatype BindingAssumption = BindingAssumption(entries: map<string, AssumedWorkload>, expiresAt: int)

  /** A resource binding as the scheduler reads it. */
  datatype ResourceBinding = ResourceBinding(
    key: string, placement: string, clusters: seq<TargetCluster>, replicas: Int32, requirements: Option<string>,
    components: seq<Component>, resourceNamespace: string, resourceName: string)
  {
    predicate IsWorkload() {
      replicas > 0 || requirements.Some? || |components| >= 1
    }

    /** What one cluster of a schedule result will have to run. */
    function Footprint(clusterReplicas: Int32): AssumedWorkload {
      AssumedWorkload(
        resourceNamespace,
        if |components| > 0 then components else [Component(resourceName, clusterReplicas, requirements)])
    }
  }

  /** The replicas of a cluster; of several entries the last counts. */
  function ReplicasIn(clusters: seq<TargetCluster>, name: string): Int32 {
    if clusters == [] then 0
    else if clusters[|clusters| - 1].name == name then clusters[|clusters| - 1].replicas
    else ReplicasIn(clusters[..|clusters| - 1], name)
  }

  /** The assumptions about a workload after its new schedule result is stored. */
  function Updated(
      entries: map<string, AssumedWorkload>, b: ResourceBinding, result: seq<TargetCluster>): map<string, AssumedWorkload>
  {
    map c | c in (entries.Keys - (Names(b.clusters) - Names(result))) + Names(result) ::
      if c in Names(result) then b.Footprint(ReplicasIn(result, c)) else entries[c]
  }

  /** The assumptions after a patch: those of a binding that is no workload stay as they are. */
  function AfterPatch(
      entries: map<string, AssumedWorkload>, b: ResourceBinding, result: seq<TargetCluster>): map<string, AssumedWorkload>
  {
    if b.IsWorkload() then Updated(entries, b, result) else entries
  }

  lemma {:induction false} ReplicasOfLast(clusters: seq<TargetCluster>, i: nat)
    requires i < |clusters| && forall j :: i < j < |clusters| ==> clusters[j].name != clusters[i].name
    ensures ReplicasIn(clusters, clusters[i].name) == clusters[i].replicas
  {
    if i < |clusters| - 1 {
      ReplicasOfLast(clusters[..|clusters| - 1], i);
    }
  }

  /** What is assumed about a binding after a patch, entry by entry. Of a binding without replicas, requirements and
      components nothing changes. Otherwise the chosen clusters are assumed, and those that were and that the binding
      did not list; a chosen cluster is to run all components in the namespace of the resource, or, without components,
      the resource itself with the replicas of the cluster's last entry; the others keep their entries. */
  lemma AfterPatchMeans(entries: map<string, AssumedWorkload>, b: ResourceBinding, result: seq<TargetCluster>)
    ensures var after := AfterPatch(entries, b, result);
      if b.replicas <= 0 && b.requirements.None? && b.components == [] then after == entries
      else
        && (forall c :: c in after <==>
             || (exists tc <- result :: tc.name == c)
             || (c in entries && !exists tc <- b.clusters :: tc.name == c))
        && (forall i :: 0 <= i < |result| && (forall j :: i < j < |result| ==> result[j].name != result[i].name) ==>
             && result[i].name in after
             && after[result[i].name].namespace == b.resourceNamespace
             && after[result[i].name].components ==
               if b.components != [] then b.components
               else [Component(b.resourceName, result[i].replicas, b.requirements)])
        && (forall c <- after :: !(exists tc <- result :: tc.name == c) ==> c in entries && after[c] == entries[c])
  {
    forall i | 0 <= i < |result| && forall j :: i < j < |result| ==> result[j].name != result[i].name
      ensures ReplicasIn(result, result[i].name) == result[i].replicas && result[i] in result
    {
      ReplicasOfLast(result, i);
    }
  }

  /** `AssigningResourceBindingCache`, as far as it holds assumptions. */
  class AssigningCache {
    var assumptions: map<string, BindingAssumption>
    const ttl: nat

    constructor (ttl: nat)
      ensures Valid() && assumptions == map[]
    {
      this.ttl, assumptions := ttl, map[];
    }

    /** A binding without entries is not kept. */
    ghost predicate Valid()
      reads this
    {
      forall key <- assumptions :: assumptions[key].entries != map[]
    }

    function Entries(key: string): map<string, AssumedWorkload>
      reads this
    {
      if key in assumptions then assumptions[key].entries else map[]
    }

    twostate predicate OthersUnchanged(key: string)
      reads this
    {
      forall k :: k != key ==>
        (k in assumptions <==> k in old(assumptions)) && (k in assumptions ==> assumptions[k] == old(assumptions[k]))
    }

    method Assume(key: string, cluster: string, entry: AssumedWorkload, now: int)
      requires Valid()
      modifies this
      ensures Valid() && OthersUnchanged(key)
      ensures Entries(key) == old(Entries(key))[cluster := entry]
      ensures key in assumptions && assumptions[key].expiresAt == now + ttl
    {
      var br := if key in assumptions then assumptions[key] else BindingAssumption(map[], 0);
      assumptions := assumptions[key := BindingAssumption(br.entries[cluster := entry], now + ttl)];
      assert cluster in assumptions[key].entries;
    }

    method ReleaseClusterAssumption(key: string, cluster: string)
      requires Valid()
      modifies this
      ensures Valid() && OthersUnchanged(key)
      ensures Entries(key) == old(Entries(key)) - {cluster}
    {
      if key !in assumptions {
        return;
      }
      var entries := assumptions[key].entries - {cluster};
      assumptions := assumptions[key := assumptions[key].(entries := entries)];
      if |entries| == 0 {
        assumptions := assumptions - {key};
      }
    }

    method ReleaseAssumption(key: string)
      requires Valid()
      modifies this
      ensures Valid() && OthersUnchanged(key) && key !in assumptions && Entries(key) == map[]
    {
      assumptions := assumptions - {key};
    }

    /** Exactly the expired bindings are dropped. */
    method GC(now: int) returns (removed: nat)
      requires Valid()
      modifies this
      ensures Valid()
      ensures forall key :: key in assumptions <==> key in old(assumptions) && now <= old(assumptions[key].expiresAt)
      ensures forall key <- assumptions :: assumptions[key] == old(assumptions[key])
      ensures removed == |old(assumptions)| - |assumptions|
    {
      removed := 0;
      var keys := assumptions.Keys;
      while keys != {}
        invariant keys <= assumptions.Keys <= old(assumptions.Keys)
        invariant forall key <- assumptions :: assumptions[key] == old(assumptions[key])
        invariant forall key <- old(assumptions) ::
          key in assumptions <==> key in keys || now <= old(assumptions[key].expiresAt)
        invariant removed == |old(assumptions)| - |assumptions|
      {
        var key :| key in keys;
        keys := keys - {key};
        if now > assumptions[key].expiresAt {
          ghost var before := assumptions;
          assumptions := assumptions - {key};
          assert before == assumptions[key := before[key]];
          removed := removed + 1;
        }
      }
    }

    /** `updateAssumptionsCache`. */
    method UpdateAssumptionsCache(oldBinding: ResourceBinding, result: seq<TargetCluster>, now: int)
      requires Valid()
      modifies this
      ensures Valid() && OthersUnchanged(oldBinding.key)
      ensures Entries(oldBinding.key) == AfterPatch(old(Entries(oldBinding.key)), oldBinding, result)
    {
      if !oldBinding.IsWorkload() {
        return;
      }
      var oldClusters, newClusters := Names(oldBinding.clusters), Names(result);
      hide Names, ResourceBinding.Footprint;
      ReleaseAll(oldBinding.key, oldClusters - newClusters);
      if |oldBinding.components| > 0 {
        AssumeComponents(oldBinding, newClusters, now);
        FootprintOfComponents(oldBinding);
      } else {
        AssumeReplicas(oldBinding, result, now);
      }
    }

    /** Releases the clusters that left the placement. */
    method ReleaseAll(key: string, clusters: set<string>)
      requires Valid()
      modifies this
      ensures Valid() && OthersUnchanged(key)
      ensures Entries(key) == old(Entries(key)) - clusters
    {
      var dropped := clusters;
      while dropped != {}
        invariant Valid() && OthersUnchanged(key) && dropped <= clusters
        invariant Entries(key) == old(Entries(key)) - (clusters - dropped)
      {
        var cluster :| cluster in dropped;
        dropped := dropped - {cluster};
        ReleaseClusterAssumption(key, cluster);
      }
    }

    /** A workload with components runs all of them in each cluster. */
    method AssumeComponents(b: ResourceBinding, newClusters: set<string>, now: int)
      requires Valid()
      modifies this
      ensures Valid() && OthersUnchanged(b.key)
      ensures Entries(b.key).Keys == old(Entries(b.key)).Keys + newClusters
      ensures forall c <- Entries(b.key) :: (Entries(b.key)[c] ==
        if c in newClusters then AssumedWorkload(b.resourceNamespace, b.components) else old(Entries(b.key))[c])
    {
      var rest := newClusters;
      while rest != {}
        invariant Valid() && OthersUnchanged(b.key) && rest <= newClusters
        invariant Entries(b.key).Keys == old(Entries(b.key)).Keys + (newClusters - rest)
        invariant forall c <- Entries(b.key) :: (Entries(b.key)[c] ==
          if c in newClusters - rest then AssumedWorkload(b.resourceNamespace, b.components) else old(Entries(b.key))[c])
      {
        var cluster :| cluster in rest;
        rest := rest - {cluster};
        Assume(b.key, cluster, AssumedWorkload(b.resourceNamespace, b.components), now);
      }
    }

    /** A workload with a single template runs its own number of replicas in each cluster. */
    method AssumeReplicas(b: ResourceBinding, result: seq<TargetCluster>, now: int)
      requires Valid() && |b.components| == 0
      modifies this
      ensures Valid() && OthersUnchanged(b.key)
      ensures Entries(b.key).Keys == old(Entries(b.key)).Keys + Names(result)
      ensures forall c <- Entries(b.key) :: (Entries(b.key)[c] ==
        if c in Names(result) then b.Footprint(ReplicasIn(result, c)) else old(Entries(b.key))[c])
    {
      for i := 0 to |result|
        invariant Valid() && OthersUnchanged(b.key)
        invariant Entries(b.key).Keys == old(Entries(b.key)).Keys + Names(result[..i])
        invariant forall c <- Entries(b.key) :: (Entries(b.key)[c] ==
          if c in Names(result[..i]) then b.Footprint(ReplicasIn(result[..i], c)) else old(Entries(b.key))[c])
      {
        assert result[..i + 1] == result[..i] + [result[i]];
        assert result[..i + 1][..i] == result[..i];
        NamesOfConcat(result[..i], [result[i]]);
        NamesOfOne(result[i]);
        hide Names;
        var components := [Component(b.resourceName, result[i].replicas, b.requirements)];
        Assume(b.key, result[i].name, AssumedWorkload(b.resourceNamespace, components), now);
      }
      assert result[..|result|] == result;
    }

    /** `patchScheduleResultForResourceBinding`: nothing happens if the binding that was read has this result already,
        or if the API server refuses the patch. */
    method PatchScheduleResult(
        oldBinding: ResourceBinding, placement: string, result: seq<TargetCluster>, accepted: bool, now: int)
      returns (patched: bool)
      requires Valid()
      modifies this
      ensures Valid() && OthersUnchanged(oldBinding.key)
      ensures patched <==> (oldBinding.placement != placement || oldBinding.clusters != result) && accepted
      ensures Entries(oldBinding.key) ==
        if patched then AfterPatch(old(Entries(oldBinding.key)), oldBinding, result) else old(Entries(oldBinding.key))
    {
      if oldBinding.placement == placement && oldBinding.clusters == result {
        return false;
      }
      if !accepted {
        return false;
      }
      UpdateAssumptionsCache(oldBinding, result, now);
      return true;
    }

    /** `releaseHealthyClusterAssumptions`: exactly the clusters that became healthy are released. */
    method ReleaseHealthyClusterAssumptions(
        oldBinding: ResourceBinding, oldStatus: seq<AggregatedStatusItem>, newStatus: seq<AggregatedStatusItem>)
      requires Valid()
      modifies this
      ensures Valid() && OthersUnchanged(oldBinding.key)
      ensures Entries(oldBinding.key) == old(Entries(oldBinding.key)) -
        if oldBinding.IsWorkload() then HealthyClusters(newStatus) - HealthyClusters(oldStatus) else {}
    {
      if !oldBinding.IsWorkload() {
        return;
      }
      if oldBinding.key !in assumptions {
        return;
      }
      var clusters := NewlyHealthyClusters(oldStatus, newStatus);
      for i := 0 to |clusters|
        invariant Valid() && OthersUnchanged(oldBinding.key)
        invariant Entries(oldBinding.key) == old(Entries(oldBinding.key)) - set c <- clusters[..i]
      {
        assert clusters[..i + 1] == clusters[..i] + [clusters[i]];
        ReleaseClusterAssumption(oldBinding.key, clusters[i]);
      }
      assert clusters[..|clusters|] == clusters;
      assert (set c <- clusters) == HealthyClusters(newStatus) - HealthyClusters(oldStatus);
    }
  }

  lemma FootprintOfComponents(b: ResourceBinding)
    requires |b.components| > 0
    ensures forall n: Int32 :: b.Footprint(n) == AssumedWorkload(b.resourceNamespace, b.components)
  {
  }

  datatype Health = Healthy | Unhealthy | Unknown

  datatype AggregatedStatusItem = AggregatedStatusItem(clusterName: string, health: Health)

  function HealthyClusters(status: seq<AggregatedStatusItem>): set<string> {
    set item <- status | item.health == Healthy :: item.clusterName
  }

  /** `newlyHealthyClusters`. */
  method NewlyHealthyClusters(oldStatus: seq<AggregatedStatusItem>, newStatus: seq<AggregatedStatusItem>)
    returns (result: seq<string>)
    ensures forall c :: c in result <==> c in HealthyClusters(newStatus) && c !in HealthyClusters(oldStatus)
  {
    var oldHealthy: set<string> := {};
    for i := 0 to |oldStatus|
      invariant oldHealthy == HealthyClusters(oldStatus[..i])
    {
      assert oldStatus[..i + 1] == oldStatus[..i] + [oldStatus[i]];
      if oldStatus[i].health == Healthy {
        oldHealthy := oldHealthy + {oldStatus[i].clusterName};
      }
    }
    assert oldStatus[..|oldStatus|] == oldStatus;
    result := [];
    for i := 0 to |newStatus|
      invariant forall c :: c in result <==> c in HealthyClusters(newStatus[..i]) && c !in oldHealthy
    {
      assert newStatus[..i + 1] == newStatus[..i] + [newStatus[i]];
      assert newStatus[i] in newStatus[..i + 1];
      if newStatus[i].health == Healthy {
        if newStatus[i].clusterName !in oldHealthy {
          result := result + [newStatus[i].clusterName];
        }
      }
    }
    assert newStatus[..|newStatus|] == newStatus;
  }

  /** The clusters that an update may drop: those that a workload was read to have. */
  function Droppable(b: ResourceBinding): set<string> {
    if b.IsWorkload() then Names(b.clusters) else {}
  }

  /** After a patch nothing outside the new placement is assumed, if and only if the binding was read as a workload
      that still listed every assumed cluster which is not chosen again. For a workload the two are equal then. */
  lemma AssumedIsPlacementExactly(
      entries: map<string, AssumedWorkload>, b: ResourceBinding, result: seq<TargetCluster>)
    ensures AfterPatch(entries, b, result).Keys <= Names(result) <==> entries.Keys <= Droppable(b) + Names(result)
    ensures AfterPatch(entries, b, result).Keys == Names(result) <==>
      && entries.Keys <= Droppable(b) + Names(result)
      && (b.IsWorkload() || Names(result) <= entries.Keys)
  {
    var after := Updated(entries, b, result);
    assert after.Keys == (entries.Keys - (Names(b.clusters) - Names(result))) + Names(result);
    hide Names, Updated;
    if b.IsWorkload() && !(entries.Keys <= Names(b.clusters) + Names(result)) {
      var c :| c in entries && c !in Names(b.clusters) + Names(result);
      assert c in after;
    }
  }

  /** One binding and its assumptions. */
  datatype State = State(stored: ResourceBinding, entries: map<string, AssumedWorkload>)

  datatype Action =
    | Schedule(read: ResourceBinding, placement: string, result: seq<TargetCluster>, accepted: bool)
    | BecomeHealthy(clusters: set<string>)
    | Expire
    | Recreate(binding: ResourceBinding)
    | ChangeSpec(binding: ResourceBinding)

  /** What a merge patch leaves in store: a list that equals the one that was read is not part of the patch. */
  function Patched(
      stored: ResourceBinding, read: ResourceBinding, placement: string, result: seq<TargetCluster>): ResourceBinding
  {
    stored.(
      placement := if read.placement == placement then stored.placement else placement,
      clusters := if read.clusters == result then stored.clusters else result)
  }

  /** The scheduler stores something, and the API server accepts it. */
  predicate Patches(a: Action) {
    a.Schedule? && (a.read.placement != a.placement || a.read.clusters != a.result) && a.accepted
  }

  predicate Enabled(s: State, a: Action) {
    match a
    case Schedule(read, _, _, _) => read.key == s.stored.key
    case ChangeSpec(b) => b.key == s.stored.key && b.clusters == s.stored.clusters
    case Recreate(b) => b.key == s.stored.key && b.clusters == []
    case _ => true
  }

  /** Steps of the scheduler, of the informer and of users; the scheduler alone writes the clusters. */
  function Do(s: State, a: Action): State {
    match a
    case Schedule(read, placement, result, _) =>
      if Patches(a) then State(Patched(s.stored, read, placement, result), AfterPatch(s.entries, read, result)) else s
    case BecomeHealthy(clusters) => s.(entries := s.entries - clusters)
    case Expire => s.(entries := map[])
    case Recreate(b) => State(b, map[])
    case ChangeSpec(b) => s.(stored := b)
  }

  ghost predicate Runs(s: State, actions: seq<Action>, t: State)
    decreases |actions|
  {
    if actions == [] then s == t else Enabled(s, actions[0]) && Runs(Do(s, actions[0]), actions[1..], t)
  }

  /** The scheduler reads the clusters that are stored. */
  ghost predicate ReadsFresh(s: State, actions: seq<Action>)
    decreases |actions|
  {
    actions != [] ==>
      && (actions[0].Schedule? ==> actions[0].read.clusters == s.stored.clusters)
      && ReadsFresh(Do(s, actions[0]), actions[1..])
  }

  predicate Within(s: State) {
    s.entries.Keys <= Names(s.stored.clusters)
  }

  /** One step: a patch of a binding that is read as a workload makes the assumptions equal to the placement; they
      stay within it exactly if what the patch drops from it was dropped from them, or never was assumed; all other
      steps only drop assumptions. */
  lemma StepStaysWithin(s: State, a: Action)
    requires Within(s) && Enabled(s, a)
    requires a.Schedule? ==> a.read.clusters == s.stored.clusters
    ensures Within(Do(s, a)) <==> (Patches(a) && !a.read.IsWorkload() ==> s.entries.Keys <= Names(a.result))
    ensures Patches(a) ==> Do(s, a).stored.clusters == a.result
    ensures Patches(a) && a.read.IsWorkload() ==> Do(s, a).entries.Keys == Names(a.result)
    ensures !Patches(a) ==> Do(s, a).entries.Keys <= s.entries.Keys
  {
    if a.Schedule? {
      AssumedIsPlacementExactly(s.entries, a.read, a.result);
    }
    hide Names, Updated;
  }

  /** The clusters that patches of a binding which is no workload have dropped from the placement. */
  function LeftBehind(s: State, actions: seq<Action>): set<string>
    decreases |actions|
  {
    if actions == [] then {}
    else
      var a := actions[0];
      (if Patches(a) && !a.read.IsWorkload() then Names(s.stored.clusters) - Names(a.result) else {})
      + LeftBehind(Do(s, a), actions[1..])
  }

  predicate WithinOr(s: State, others: set<string>) {
    s.entries.Keys <= Names(s.stored.clusters) + others
  }

  lemma StepStaysWithinOr(s: State, a: Action, others: set<string>)
    requires WithinOr(s, others) && Enabled(s, a)
    requires a.Schedule? ==> a.read.clusters == s.stored.clusters
    ensures WithinOr(Do(s, a), others +
      if Patches(a) && !a.read.IsWorkload() then Names(s.stored.clusters) - Names(a.result) else {})
  {
    hide Names;
  }

  /** While the scheduler reads what is stored, only clusters in the placement are assumed, and clusters that left it
      while the binding was no workload. */
  lemma {:induction false} RunStaysWithinOr(s: State, actions: seq<Action>, t: State, others: set<string>)
    requires WithinOr(s, others) && Runs(s, actions, t) && ReadsFresh(s, actions)
    ensures WithinOr(t, others + LeftBehind(s, actions))
    decreases |actions|
  {
    if actions != [] {
      var a := actions[0];
      var more := if Patches(a) && !a.read.IsWorkload() then Names(s.stored.clusters) - Names(a.result) else {};
      StepStaysWithinOr(s, a, others);
      RunStaysWithinOr(Do(s, a), actions[1..], t, others + more);
      assert (others + more) + LeftBehind(Do(s, a), actions[1..]) == others + LeftBehind(s, actions);
    } else {
      assert others + {} == others;
    }
  }

  /** So the assumptions stay within the placement as long as the binding is a workload whenever a cluster leaves it. */
  lemma RunStaysWithin(s: State, actions: seq<Action>, t: State)
    requires Within(s) && Runs(s, actions, t) && ReadsFresh(s, actions)
    ensures t.entries.Keys <= Names(t.stored.clusters) + LeftBehind(s, actions)
    ensures LeftBehind(s, actions) == {} ==> Within(t)
    ensures (forall a <- actions :: Patches(a) ==> a.read.IsWorkload()) ==> LeftBehind(s, actions) == {}
  {
    assert WithinOr(s, {});
    RunStaysWithinOr(s, actions, t, {});
    if forall a <- actions :: Patches(a) ==> a.read.IsWorkload() {
      WorkloadsLeaveNothing(s, actions);
    }
  }

  lemma {:induction false} WorkloadsLeaveNothing(s: State, actions: seq<Action>)
    requires forall a <- actions :: Patches(a) ==> a.read.IsWorkload()
    ensures LeftBehind(s, actions) == {}
    decreases |actions|
  {
    if actions != [] {
      WorkloadsLeaveNothing(Do(s, actions[0]), actions[1..]);
    }
  }

  /** A binding that is scaled to nothing is moved without an update: though every copy is current, the cluster that
      it has left stays assumed. */
  lemma ScaledDownLeaks(b: ResourceBinding, x: string, y: string, placement: string, entry: AssumedWorkload)
    requires x != y && b.IsWorkload() && b.requirements.None? && b.components == []
    requires b.clusters == [TargetCluster(x, b.replicas, [])]
    ensures var scaled := b.(replicas := 0);
      var s := State(b, map[x := entry]);
      var actions := [ChangeSpec(scaled), Schedule(scaled, placement, [TargetCluster(y, 0, [])], true)];
      var t := Do(Do(s, actions[0]), actions[1]);
      && Within(s) && Runs(s, actions, t) && ReadsFresh(s, actions)
      && t.stored.clusters == [TargetCluster(y, 0, [])] && t.entries.Keys == {x} && !Within(t)
  {
    var scaled := b.(replicas := 0);
    var first, second := ChangeSpec(scaled), Schedule(scaled, placement, [TargetCluster(y, 0, [])], true);
    var s := State(b, map[x := entry]);
    NamesOfOne(TargetCluster(x, b.replicas, []));
    NamesOfOne(TargetCluster(y, 0, []));
    hide Names;
    var t := Do(Do(s, first), second);
    assert [first, second][1..] == [second] && [second][1..] == [];
    assert Runs(t, [], t) && Runs(Do(s, first), [second], t);
    assert ReadsFresh(t, []) && ReadsFresh(Do(s, first), [second]);
  }

  /** With an outdated copy this fails: a cluster that the copy does not list yet stays assumed after it has left
      the placement. */
  lemma StaleReadLeaks(s: State, a: string, b: string, placement: string)
    requires a != b && s.stored.clusters == [] && s.entries == map[] && s.stored.IsWorkload()
    ensures var first := Schedule(s.stored, placement, [TargetCluster(a, 1, [])], true);
      var second := Schedule(s.stored, placement, [TargetCluster(b, 1, [])], true);
      var t := Do(Do(s, first), second);
      && Runs(s, [first, second], t)
      && t.stored.clusters == [TargetCluster(b, 1, [])]
      && t.entries.Keys == {a, b}
  {
    var first := Schedule(s.stored, placement, [TargetCluster(a, 1, [])], true);
    var second := Schedule(s.stored, placement, [TargetCluster(b, 1, [])], true);
    NamesOfOne(TargetCluster(a, 1, []));
    NamesOfOne(TargetCluster(b, 1, []));
    NamesOfNone();
    hide Names;
    var t := Do(Do(s, first), second);
    assert [first, second][1..] == [second] && [second][1..] == [];
    assert Runs(t, [], t) && Runs(Do(s, first), [second], t);
  }

  /** What an attempt to schedule with one affinity term ends in. */
  datatype Outcome = Success(clusters: seq<TargetCluster>) | DoesNotFit | OtherError

  datatype Decision =
    | Place(index: nat, result: seq<TargetCluster>)  // store the result and remember the affinity
    | Clear                                          // no affinity fits: store an empty result
    | Give                                           // return the first error and store nothing

  /** `getAffinityIndex`. */
  method GetAffinityIndex(affinities: seq<string>, observedName: string) returns (index: nat)
    ensures observedName == "" || observedName !in affinities ==> index == 0
    ensures observedName != "" && observedName in affinities ==>
      index < |affinities| && affinities[index] == observedName && observedName !in affinities[..index]
  {
    if observedName == "" {
      return 0;
    }
    for i := 0 to |affinities|
      invariant observedName !in affinities[..i]
    {
      if affinities[i] == observedName {
        return i;
      }
    }
    return 0;
  }

  /** The fallback loop of `scheduleResourceBindingWithClusterAffinities`: the first term that succeeds, beginning
      with the one that was observed last. */
  method ScheduleWithClusterAffinities(
      affinities: seq<string>, observedName: string, rescheduleRequired: bool, outcomes: seq<Outcome>)
    returns (start: nat, decision: Decision)
    requires |outcomes| == |affinities| > 0
    ensures rescheduleRequired || observedName == "" || observedName !in affinities ==> start == 0
    ensures !rescheduleRequired && observedName != "" && observedName in affinities ==>
      start < |affinities| && affinities[start] == observedName && observedName !in affinities[..start]
    ensures decision.Place? <==> exists i :: start <= i < |outcomes| && outcomes[i].Success?
    ensures decision.Place? ==>
      && start <= decision.index < |outcomes| && outcomes[decision.index] == Success(decision.result)
      && forall i :: start <= i < decision.index ==> !outcomes[i].Success?
    ensures decision.Clear? ==> start < |outcomes| && outcomes[start].DoesNotFit?
    ensures decision.Give? ==> start < |outcomes| && outcomes[start].OtherError?
  {
    var affinityIndex := GetAffinityIndex(affinities, observedName);
    if rescheduleRequired {
      affinityIndex := 0;
    }
    start := affinityIndex;
    var firstErr: Option<Outcome> := None;
    while affinityIndex < |affinities|
      invariant start <= affinityIndex <= |affinities|
      invariant forall i :: start <= i < affinityIndex ==> !outcomes[i].Success?
      invariant if affinityIndex == start then firstErr.None? else firstErr == Some(outcomes[start])
    {
      match outcomes[affinityIndex]
      case Success(clusters) => return start, Place(affinityIndex, clusters);
      case error =>
        if firstErr.None? {
          firstErr := Some(error);
        }
        affinityIndex := affinityIndex + 1;
    }
    if firstErr != Some(DoesNotFit) {
      return start, Give;
    }
    return start, Clear;
  }
}
