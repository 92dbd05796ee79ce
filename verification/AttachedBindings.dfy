/** Bindings of dependencies: who requires them, twice recorded, and the strategy that follows from it
    (pkg/dependenciesdistributor/dependencies_distributor.go, policy_utils.go). */
module AttachedBindings {
  import opened Wrappers
  import opened TargetClusters

  /** The binding of a resource that requires others. */
  datatype Referrer = Referrer(namespace: string, name: string)

  /** `BindingSnapshot`. */
  datatype Snapshot = Snapshot(referrer: Referrer, clusters: seq<TargetCluster>)

  /** The key of a depended-by label is a hash of the referrer's namespace and name. */
  datatype BindingLabel = DependedBy(referrer: Referrer) | OtherLabel(name: string)

  datatype ConflictResolution = Unset | Abort | Overwrite

  datatype Strategy = Strategy(conflictResolution: ConflictResolution, preserveOnDeletion: Option<bool>)

  datatype Binding = Binding(
    owner: Option<string>, labels: map<BindingLabel, string>, requiredBy: seq<Snapshot>,
    hasPlacement: bool, strategy: Strategy, resource: string)

  predicate Requires(requiredBy: seq<Snapshot>, r: Referrer) {
    exists s <- requiredBy :: s.referrer == r
  }

  predicate Distinct(requiredBy: seq<Snapshot>) {
    forall i, j :: 0 <= i < j < |requiredBy| ==> requiredBy[i].referrer != requiredBy[j].referrer
  }

  /** The clusters that a referrer was last scheduled to. */
  function ClustersOf(requiredBy: seq<Snapshot>, r: Referrer): Option<seq<TargetCluster>> {
    if requiredBy == [] then None
    else
      var last := requiredBy[|requiredBy| - 1];
      if last.referrer == r then Some(last.clusters) else ClustersOf(requiredBy[..|requiredBy| - 1], r)
  }

  lemma {:induction false} ClustersOfMember(requiredBy: seq<Snapshot>, r: Referrer)
    ensures ClustersOf(requiredBy, r).Some? <==> Requires(requiredBy, r)
    ensures Distinct(requiredBy) ==>
      forall s <- requiredBy :: s.referrer == r ==> ClustersOf(requiredBy, r) == Some(s.clusters)
  {
    if requiredBy != [] {
      var rest, last := requiredBy[..|requiredBy| - 1], requiredBy[|requiredBy| - 1];
      assert requiredBy == rest + [last];
      ClustersOfMember(rest, r);
    }
  }

  /** Two records of the referrers that agree: a snapshot and a label for each, exactly once. */
  ghost predicate Consistent(b: Binding) {
    && Distinct(b.requiredBy)
    && forall r: Referrer :: DependedBy(r) in b.labels <==> Requires(b.requiredBy, r)
  }

  /** The strategy of a dependency: one referrer suffices to overwrite, and one to preserve. */
  function Joined(referrers: map<Referrer, Strategy>, requiredBy: seq<Snapshot>): Strategy {
    Strategy(
      if exists s <- requiredBy :: s.referrer in referrers && referrers[s.referrer].conflictResolution == Overwrite
        then Overwrite else Abort,
      Some(exists s <- requiredBy ::
        s.referrer in referrers && referrers[s.referrer].preserveOnDeletion == Some(true)))
  }

  const CLEARED := Strategy(Unset, None)

  predicate AllFound(referrers: map<Referrer, Strategy>, requiredBy: seq<Snapshot>) {
    forall s <- requiredBy :: s.referrer in referrers
  }

  /** `effectiveConflictResolution`. */
  function EffectiveConflictResolution(value: ConflictResolution): ConflictResolution {
    if value == Unset then Abort else value
  }

  /** `detectAndResolveConflictResolution`. */
  method DetectAndResolveConflictResolution(rbs: seq<Strategy>)
    returns (conflicted: bool, effective: ConflictResolution)
    ensures effective == if exists rb <- rbs :: rb.conflictResolution == Overwrite then Overwrite else Abort
    ensures conflicted <==>
      (exists rb <- rbs :: rb.conflictResolution == Overwrite) && (exists rb <- rbs :: rb.conflictResolution != Overwrite)
  {
    var hasOverwrite, hasAbort := false, false;
    for i := 0 to |rbs|
      invariant hasOverwrite <==> exists rb <- rbs[..i] :: rb.conflictResolution == Overwrite
      invariant hasAbort <==> exists rb <- rbs[..i] :: rb.conflictResolution != Overwrite
    {
      assert rbs[..i + 1] == rbs[..i] + [rbs[i]];
      if EffectiveConflictResolution(rbs[i].conflictResolution) == Overwrite {
        hasOverwrite := true;
      } else {
        hasAbort := true;
      }
      if hasOverwrite && hasAbort {
        break;
      }
    }
    assert rbs[..|rbs|] == rbs;
    conflicted := hasOverwrite && hasAbort;
    effective := if hasOverwrite then Overwrite else Abort;
  }

  /** `detectAndResolvePreserveOnDeletion`. */
  method DetectAndResolvePreserveOnDeletion(rbs: seq<Strategy>) returns (conflicted: bool, effective: bool)
    ensures effective <==> exists rb <- rbs :: rb.preserveOnDeletion == Some(true)
    ensures conflicted <==>
      && (exists rb <- rbs :: rb.preserveOnDeletion == Some(true))
      && (exists rb <- rbs :: rb.preserveOnDeletion != Some(true))
  {
    var seenTrue, seenFalse := false, false;
    for i := 0 to |rbs|
      invariant seenTrue <==> exists rb <- rbs[..i] :: rb.preserveOnDeletion == Some(true)
      invariant seenFalse <==> exists rb <- rbs[..i] :: rb.preserveOnDeletion != Some(true)
    {
      assert rbs[..i + 1] == rbs[..i] + [rbs[i]];
      var pres := rbs[i].preserveOnDeletion.Some? && rbs[i].preserveOnDeletion.value;
      if pres {
        seenTrue := true;
      } else {
        seenFalse := true;
      }
      if seenTrue && seenFalse {
        break;
      }
    }
    assert rbs[..|rbs|] == rbs;
    conflicted := seenTrue && seenFalse;
    effective := seenTrue;
  }

  /** `resolveResourceBindingFromSnapshots`: the bindings that the snapshots refer to, or an error if one is missing. */
  method ResolveResourceBindingFromSnapshots(referrers: map<Referrer, Strategy>, requiredBy: seq<Snapshot>)
    returns (rbs: Option<seq<Strategy>>)
    ensures rbs.Some? <==> AllFound(referrers, requiredBy)
    ensures rbs.Some? ==>
      && |rbs.value| == |requiredBy|
      && forall i :: 0 <= i < |requiredBy| ==> rbs.value[i] == referrers[requiredBy[i].referrer]
  {
    var found: seq<Strategy> := [];
    for i := 0 to |requiredBy|
      invariant |found| == i
      invariant forall j :: 0 <= j < i ==>
        requiredBy[j].referrer in referrers && found[j] == referrers[requiredBy[j].referrer]
    {
      if requiredBy[i].referrer !in referrers {
        return None;
      }
      found := found + [referrers[requiredBy[i].referrer]];
    }
    return Some(found);
  }

  lemma JoinedOfList(referrers: map<Referrer, Strategy>, requiredBy: seq<Snapshot>, rbs: seq<Strategy>)
    requires AllFound(referrers, requiredBy) && |rbs| == |requiredBy|
    requires forall i :: 0 <= i < |requiredBy| ==> rbs[i] == referrers[requiredBy[i].referrer]
    ensures Joined(referrers, requiredBy) == Strategy(
      if exists rb <- rbs :: rb.conflictResolution == Overwrite then Overwrite else Abort,
      Some(exists rb <- rbs :: rb.preserveOnDeletion == Some(true)))
  {
    forall rb
      ensures rb in rbs <==> exists s <- requiredBy :: referrers[s.referrer] == rb
    {
      if rb in rbs {
        var i :| 0 <= i < |rbs| && rbs[i] == rb;
        assert requiredBy[i] in requiredBy;
      }
      if s :| s in requiredBy && referrers[s.referrer] == rb {
        var i :| 0 <= i < |requiredBy| && requiredBy[i] == s;
        assert rbs[i] in rbs;
      }
    }
  }

  /** The effective strategy, or none if a referrer is missing. */
  method Resolve(referrers: map<Referrer, Strategy>, requiredBy: seq<Snapshot>) returns (effective: Option<Strategy>)
    ensures effective == if AllFound(referrers, requiredBy) then Some(Joined(referrers, requiredBy)) else None
  {
    var rbs := ResolveResourceBindingFromSnapshots(referrers, requiredBy);
    if rbs.None? {
      return None;
    }
    var crConflicted, effectiveCR := DetectAndResolveConflictResolution(rbs.value);
    var preserveConflicted, effectivePreserve := DetectAndResolvePreserveOnDeletion(rbs.value);
    JoinedOfList(referrers, requiredBy, rbs.value);
    hide Joined;
    return Some(Strategy(effectiveCR, Some(effectivePreserve)));
  }

  function MergeOne(existing: seq<Snapshot>, added: Snapshot): seq<Snapshot> {
    if Requires(existing, added.referrer) then
      seq(|existing|, i requires 0 <= i < |existing| =>
        if existing[i].referrer == added.referrer then added else existing[i])
    else existing + [added]
  }

  function Merge(existing: seq<Snapshot>, added: seq<Snapshot>): seq<Snapshot> {
    if added == [] then existing else MergeOne(Merge(existing, added[..|added| - 1]), added[|added| - 1])
  }

  /** One turn of the outer loop. */
  method MergeNext(before: seq<Snapshot>, newBinding: Snapshot) returns (merged: seq<Snapshot>)
    ensures merged == MergeOne(before, newBinding)
  {
    merged := before;
    var existInOldSnapshot := false;
    for i := 0 to |before|
      invariant |merged| == |before|
      invariant existInOldSnapshot <==> Requires(before[..i], newBinding.referrer)
      invariant forall j :: 0 <= j < i ==>
        merged[j] == if before[j].referrer == newBinding.referrer then newBinding else before[j]
      invariant merged[i..] == before[i..]
    {
      assert before[..i + 1] == before[..i] + [before[i]];
      if merged[i].referrer == newBinding.referrer {
        merged := merged[i := merged[i].(clusters := newBinding.clusters)];
        existInOldSnapshot := true;
      }
    }
    assert before[..|before|] == before;
    if !existInOldSnapshot {
      assert merged == before;
      merged := merged + [newBinding];
    }
  }

  /** `mergeBindingSnapshot`. */
  method MergeBindingSnapshot(existing: seq<Snapshot>, added: seq<Snapshot>) returns (merged: seq<Snapshot>)
    ensures merged == if existing == [] then added else Merge(existing, added)
  {
    if |existing| == 0 {
      return added;
    }
    merged := existing;
    for k := 0 to |added|
      invariant merged == Merge(existing, added[..k])
    {
      assert added[..k + 1][..k] == added[..k];
      merged := MergeNext(merged, added[k]);
    }
    assert added[..|added|] == added;
  }

  lemma MergeOneRecords(existing: seq<Snapshot>, added: Snapshot)
    requires Distinct(existing)
    ensures Distinct(MergeOne(existing, added))
    ensures forall r: Referrer :: Requires(MergeOne(existing, added), r) <==> Requires(existing, r) || r == added.referrer
  {
    var m := MergeOne(existing, added);
    forall r: Referrer
      ensures Requires(m, r) <==> Requires(existing, r) || r == added.referrer
    {
      if Requires(existing, added.referrer) {
        assert forall i :: 0 <= i < |existing| ==> m[i] in m && existing[i] in existing;
        assert forall i :: 0 <= i < |existing| ==> m[i].referrer == existing[i].referrer;
      } else {
        assert added in m;
        assert forall s <- existing :: s in m;
      }
    }
    if !Requires(existing, added.referrer) {
      assert forall i :: 0 <= i < |existing| ==> existing[i] in existing;
    }
  }

  /** Merging records exactly the referrers of both lists, each once. */
  lemma {:induction false} MergeRecords(existing: seq<Snapshot>, added: seq<Snapshot>)
    requires Distinct(existing)
    ensures Distinct(Merge(existing, added))
    ensures forall r: Referrer :: Requires(Merge(existing, added), r) <==> Requires(existing, r) || Requires(added, r)
  {
    if added != [] {
      var rest, last := added[..|added| - 1], added[|added| - 1];
      assert added == rest + [last];
      MergeRecords(existing, rest);
      MergeOneRecords(Merge(existing, rest), last);
    }
  }

  /** The newest clusters of each referrer are kept. */
  lemma {:induction false} MergeKeepsNewest(existing: seq<Snapshot>, added: seq<Snapshot>, r: Referrer)
    requires Distinct(existing)
    ensures ClustersOf(Merge(existing, added), r) ==
      if Requires(added, r) then ClustersOf(added, r) else ClustersOf(existing, r)
  {
    if added != [] {
      var rest, last := added[..|added| - 1], added[|added| - 1];
      assert added == rest + [last];
      MergeKeepsNewest(existing, rest, r);
      MergeRecords(existing, rest);
      MergeOneKeepsNewest(Merge(existing, rest), last, r);
    }
  }

  lemma MergeOneKeepsNewest(existing: seq<Snapshot>, added: Snapshot, r: Referrer)
    requires Distinct(existing)
    ensures ClustersOf(MergeOne(existing, added), r) ==
      if r == added.referrer then Some(added.clusters) else ClustersOf(existing, r)
  {
    var m := MergeOne(existing, added);
    if Requires(existing, added.referrer) {
      OneReplaced(existing, m, added, r);
    } else {
      assert m[..|existing|] == existing;
    }
  }

  lemma {:induction false} OneReplaced(existing: seq<Snapshot>, m: seq<Snapshot>, added: Snapshot, r: Referrer)
    requires |m| == |existing|
    requires forall i :: 0 <= i < |m| ==> m[i] == if existing[i].referrer == added.referrer then added else existing[i]
    ensures ClustersOf(m, r) ==
      if r == added.referrer && Requires(existing, r) then Some(added.clusters) else ClustersOf(existing, r)
  {
    if existing != [] {
      var n := |existing| - 1;
      assert existing == existing[..n] + [existing[n]];
      OneReplaced(existing[..n], m[..n], added, r);
      ClustersOfMember(existing, r);
    }
  }

  function Deleted(existing: seq<Snapshot>, r: Referrer): seq<Snapshot> {
    if existing == [] then []
    else
      var rest, last := Deleted(existing[..|existing| - 1], r), existing[|existing| - 1];
      if last.referrer == r then rest else rest + [last]
  }

  /** `deleteBindingFromSnapshot`. */
  method DeleteBindingFromSnapshot(r: Referrer, existing: seq<Snapshot>) returns (left: seq<Snapshot>)
    ensures left == Deleted(existing, r)
  {
    left := existing;
    var i := 0;
    ghost var seen := 0;
    assert existing[..0] == [];
    while i < |left|
      invariant 0 <= i <= |left| && 0 <= seen <= |existing| && |left| - i == |existing| - seen
      invariant left[..i] == Deleted(existing[..seen], r)
      invariant left[i..] == existing[seen..]
      decreases |left| - i
    {
      assert existing[..seen + 1][..seen] == existing[..seen];
      assert left[i] == existing[seen];
      if left[i].referrer == r {
        left := left[..i] + left[i + 1..];
        i := i - 1;
      }
      i := i + 1;
      seen := seen + 1;
    }
    assert existing[..seen] == existing && left[..i] == left;
  }

  /** Exactly the one referrer is gone, and the others keep their clusters. */
  lemma {:induction false} DeletedRecords(existing: seq<Snapshot>, r: Referrer)
    ensures forall s :: s in Deleted(existing, r) <==> s in existing && s.referrer != r
    ensures Distinct(existing) ==> Distinct(Deleted(existing, r))
    ensures forall q: Referrer :: q != r ==> ClustersOf(Deleted(existing, r), q) == ClustersOf(existing, q)
  {
    if existing != [] {
      var rest, last := existing[..|existing| - 1], existing[|existing| - 1];
      assert existing == rest + [last];
      DeletedRecords(rest, r);
      var left := Deleted(rest, r);
      assert (left + [last])[..|left|] == left;
      if Distinct(existing) {
        assert forall s <- rest :: s.referrer != last.referrer;
        assert forall i :: 0 <= i < |left| ==> left[i] in left;
      }
    }
  }

  /** What `createOrUpdateAttachedBinding` makes of the stored binding; none on an error. */
  function Updated(exist: Binding, attached: Binding, referrers: map<Referrer, Strategy>): Option<Binding> {
    var merged := if exist.requiredBy == [] then attached.requiredBy else Merge(exist.requiredBy, attached.requiredBy);
    if exist.owner.Some? && exist.owner != attached.owner then None
    else if !exist.hasPlacement && !AllFound(referrers, merged) then None
    else Some(exist.(
      requiredBy := merged, labels := exist.labels + attached.labels, resource := attached.resource,
      strategy := if exist.hasPlacement then exist.strategy else Joined(referrers, merged)))
  }

  /** What `removeScheduleResultFromAttachedBindings` makes of one binding; none on an error. */
  function Removed(exist: Binding, r: Referrer, referrers: map<Referrer, Strategy>): Option<Binding> {
    var left := Deleted(exist.requiredBy, r);
    var removed := exist.(requiredBy := left, labels := exist.labels - {DependedBy(r)});
    if exist.hasPlacement then Some(removed)
    else if left == [] then Some(removed.(strategy := CLEARED))
    else if AllFound(referrers, left) then Some(removed.(strategy := Joined(referrers, left)))
    else None
  }

  lemma {:induction false} MergeMembers(existing: seq<Snapshot>, added: seq<Snapshot>)
    requires Distinct(existing) && Distinct(added)
    ensures forall s :: s in Merge(existing, added) <==>
      s in added || (s in existing && forall a <- added :: a.referrer != s.referrer)
    ensures |existing| <= |Merge(existing, added)|
    ensures forall i :: 0 <= i < |existing| ==> Merge(existing, added)[i].referrer == existing[i].referrer
  {
    if added != [] {
      var front, last := added[..|added| - 1], added[|added| - 1];
      var before := Merge(existing, front);
      MergeMembers(existing, front);
      MergeRecords(existing, front);
      assert added == front + [last] && forall a <- front :: a.referrer != last.referrer;
      MergeOneMembers(before, last);
    }
  }

  lemma MergeOneMembers(existing: seq<Snapshot>, added: Snapshot)
    requires Distinct(existing)
    ensures forall s :: s in MergeOne(existing, added) <==> s == added || (s in existing && s.referrer != added.referrer)
    ensures |existing| <= |MergeOne(existing, added)|
    ensures forall i :: 0 <= i < |existing| ==> MergeOne(existing, added)[i].referrer == existing[i].referrer
  {
    var m := MergeOne(existing, added);
    if Requires(existing, added.referrer) {
      assert forall i :: 0 <= i < |existing| ==> m[i] in m && existing[i] in existing;
      forall s | s in existing && s.referrer != added.referrer
        ensures s in m
      {
        var i :| 0 <= i < |existing| && existing[i] == s;
        assert m[i] == s;
      }
    }
  }

  /** What the mutation leaves of a binding, field by field. It is refused if another owner holds the binding, or if the
      binding has no placement of its own and one of its referrers, old or new, cannot be found. Otherwise its owner and
      placement stay; a new snapshot replaces that of its referrer, the others stay in their places; the new labels are
      added; and only without a placement of its own the strategy changes: it overwrites if some referrer does and
      aborts otherwise, and it preserves exactly if some referrer does. */
  lemma UpdatedMeans(exist: Binding, attached: Binding, referrers: map<Referrer, Strategy>)
    requires Distinct(exist.requiredBy) && Distinct(attached.requiredBy)
    ensures Updated(exist, attached, referrers).None? <==>
      || (exist.owner.Some? && exist.owner != attached.owner)
      || (!exist.hasPlacement && exists s :: s in exist.requiredBy + attached.requiredBy && s.referrer !in referrers)
    ensures Updated(exist, attached, referrers).Some? ==>
      var b := Updated(exist, attached, referrers).value;
      && b.owner == exist.owner && b.hasPlacement == exist.hasPlacement && b.resource == attached.resource
      && (forall s :: s in b.requiredBy <==>
           || s in attached.requiredBy
           || (s in exist.requiredBy && forall a <- attached.requiredBy :: a.referrer != s.referrer))
      && |exist.requiredBy| <= |b.requiredBy|
      && (forall i :: 0 <= i < |exist.requiredBy| ==> b.requiredBy[i].referrer == exist.requiredBy[i].referrer)
      && b.labels.Keys == exist.labels.Keys + attached.labels.Keys
      && (forall k <- b.labels :: b.labels[k] == if k in attached.labels then attached.labels[k] else exist.labels[k])
      && (exist.hasPlacement ==> b.strategy == exist.strategy)
      && (!exist.hasPlacement ==>
           && b.strategy.conflictResolution ==
             (if exists s <- b.requiredBy ::
                s.referrer in referrers && referrers[s.referrer].conflictResolution == Overwrite then Overwrite else Abort)
           && b.strategy.preserveOnDeletion == Some(exists s <- b.requiredBy ::
                s.referrer in referrers && referrers[s.referrer].preserveOnDeletion == Some(true)))
  {
    MergeMembers(exist.requiredBy, attached.requiredBy);
    var merged := if exist.requiredBy == [] then attached.requiredBy else Merge(exist.requiredBy, attached.requiredBy);
    forall s | s in exist.requiredBy
      ensures exists m <- merged :: m.referrer == s.referrer
    {
      var i :| 0 <= i < |exist.requiredBy| && exist.requiredBy[i] == s;
      assert merged[i] in merged;
    }
    hide Merge;
  }

  /** What a removal leaves, field by field: the snapshots of the other referrers, as often as before, and all labels but
      the referrer's; and only without a placement of its own the strategy changes, to none if no referrer is left. It is
      refused if one of those that are left cannot be found. */
  lemma RemovedMeans(exist: Binding, r: Referrer, referrers: map<Referrer, Strategy>)
    ensures Removed(exist, r, referrers).None? <==>
      !exist.hasPlacement && exists s <- exist.requiredBy :: s.referrer != r && s.referrer !in referrers
    ensures Removed(exist, r, referrers).Some? ==>
      var b := Removed(exist, r, referrers).value;
      && b.owner == exist.owner && b.hasPlacement == exist.hasPlacement && b.resource == exist.resource
      && (forall s :: multiset(b.requiredBy)[s] == if s.referrer == r then 0 else multiset(exist.requiredBy)[s])
      && b.labels.Keys == exist.labels.Keys - {DependedBy(r)}
      && (forall k <- b.labels :: b.labels[k] == exist.labels[k])
      && (exist.hasPlacement ==> b.strategy == exist.strategy)
      && (!exist.hasPlacement && (forall s <- exist.requiredBy :: s.referrer == r) ==> b.strategy == Strategy(Unset, None))
      && (!exist.hasPlacement && (exists s <- exist.requiredBy :: s.referrer != r) ==>
           && b.strategy.conflictResolution ==
             (if exists s <- b.requiredBy ::
                s.referrer in referrers && referrers[s.referrer].conflictResolution == Overwrite then Overwrite else Abort)
           && b.strategy.preserveOnDeletion == Some(exists s <- b.requiredBy ::
                s.referrer in referrers && referrers[s.referrer].preserveOnDeletion == Some(true)))
  {
    DeletedMembers(exist.requiredBy, r);
    var left := Deleted(exist.requiredBy, r);
    forall s
      ensures s in left <==> s in exist.requiredBy && s.referrer != r
    {
      assert s in left <==> multiset(left)[s] > 0;
      assert s in exist.requiredBy <==> multiset(exist.requiredBy)[s] > 0;
    }
    assert left == [] <==> forall s :: s !in left;
    hide Deleted;
  }

  lemma {:induction false} DeletedMembers(existing: seq<Snapshot>, r: Referrer)
    ensures forall s :: multiset(Deleted(existing, r))[s] == if s.referrer == r then 0 else multiset(existing)[s]
  {
    if existing != [] {
      DeletedMembers(existing[..|existing| - 1], r);
      assert existing == existing[..|existing| - 1] + [existing[|existing| - 1]];
    }
  }

  /** The distributor's copy of a binding, changed in place before it is written back. */
  class ResourceBinding {
    var owner: Option<string>
    var labels: map<BindingLabel, string>
    var requiredBy: seq<Snapshot>
    var hasPlacement: bool
    var strategy: Strategy
    var resource: string

    constructor (b: Binding)
      ensures Value() == b
    {
      owner, labels, requiredBy := b.owner, b.labels, b.requiredBy;
      hasPlacement, strategy, resource := b.hasPlacement, b.strategy, b.resource;
    }

    function Value(): Binding
      reads this
    {
      Binding(owner, labels, requiredBy, hasPlacement, strategy, resource)
    }

    /** The mutation inside `createOrUpdateAttachedBinding`. */
    method Update(attached: Binding, referrers: map<Referrer, Strategy>) returns (ok: bool)
      requires attached.owner.Some?
      modifies this
      ensures ok <==> Updated(old(Value()), attached, referrers).Some?
      ensures ok ==> Value() == Updated(old(Value()), attached, referrers).value
    {
      if owner.Some? && owner != attached.owner {
        return false;
      }
      var mergedRequiredBy := MergeBindingSnapshot(requiredBy, attached.requiredBy);
      if !hasPlacement {
        var effective := Resolve(referrers, mergedRequiredBy);
        if effective.None? {
          return false;
        }
        strategy := effective.value;
      }
      requiredBy := mergedRequiredBy;
      labels := labels + attached.labels;
      resource := attached.resource;
      return true;
    }

    /** One round of `removeScheduleResultFromAttachedBindings`; without success nothing is written back. */
    method RemoveReferrer(r: Referrer, referrers: map<Referrer, Strategy>) returns (ok: bool)
      modifies this
      ensures ok <==> Removed(old(Value()), r, referrers).Some?
      ensures ok ==> Value() == Removed(old(Value()), r, referrers).value
    {
      labels := labels - {DependedBy(r)};
      requiredBy := DeleteBindingFromSnapshot(r, requiredBy);
      if !hasPlacement {
        if |requiredBy| == 0 {
          strategy := CLEARED;
        } else {
          var effective := Resolve(referrers, requiredBy);
          if effective.None? {
            return false;
          }
          strategy := effective.value;
        }
      }
      return true;
    }
  }

  datatype Store = Store(bindings: map<string, Binding>, referrers: map<Referrer, Strategy>)

  datatype Action =
    | Attach(name: string, attached: Binding)
    | Detach(name: string, referrer: Referrer)
    | ApplyPolicy(name: string, policyStrategy: Strategy, policyID: string, owner: string, resource: string)
    | Collect(name: string)
    | ChangeReferrer(referrer: Referrer, strategyOf: Option<Strategy>)

  /** A step of the distributor, of a policy that claims the resource itself, of the garbage collector, or of the
      bindings that are referred to. A step that fails writes nothing. */
  function Do(s: Store, a: Action): Store {
    match a
    case Attach(name, attached) =>
      var exist := if name in s.bindings then s.bindings[name] else attached;
      var updated := Updated(exist, attached, s.referrers);
      if updated.Some? then s.(bindings := s.bindings[name := updated.value]) else s
    case Detach(name, r) =>
      var removed := if name in s.bindings then Removed(s.bindings[name], r, s.referrers) else None;
      if removed.Some? then s.(bindings := s.bindings[name := removed.value]) else s
    case ApplyPolicy(name, strategy, policyID, owner, resource) =>
      var exist := if name in s.bindings then s.bindings[name]
        else Binding(Some(owner), map[], [], true, strategy, resource);
      s.(bindings := s.bindings[name :=
        exist.(hasPlacement := true, strategy := strategy, labels := exist.labels[OtherLabel("permanent-id") := policyID])])
    case Collect(name) => s.(bindings := s.bindings - {name})
    case ChangeReferrer(r, strategyOf) =>
      s.(referrers := if strategyOf.Some? then s.referrers[r := strategyOf.value] else s.referrers - {r})
  }

  /** Attached bindings are what `buildAttachedBinding` builds: one referrer, recorded as label and as snapshot. */
  predicate Built(a: Action) {
    a.Attach? ==>
      && |a.attached.requiredBy| == 1 && !a.attached.hasPlacement && a.attached.owner.Some?
      && a.attached.labels.Keys == {DependedBy(a.attached.requiredBy[0].referrer)}
  }

  function Run(s: Store, actions: seq<Action>): Store
    decreases |actions|
  {
    if actions == [] then s else Run(Do(s, actions[0]), actions[1..])
  }

  ghost predicate AllConsistent(s: Store) {
    forall name <- s.bindings :: Consistent(s.bindings[name])
  }

  lemma BuiltIsConsistent(b: Binding)
    requires |b.requiredBy| == 1 && b.labels.Keys == {DependedBy(b.requiredBy[0].referrer)}
    ensures Consistent(b)
  {
    assert b.requiredBy[0] in b.requiredBy;
  }

  lemma UpdatedIsConsistent(exist: Binding, attached: Binding, referrers: map<Referrer, Strategy>)
    requires Consistent(exist) && Consistent(attached) && Updated(exist, attached, referrers).Some?
    ensures Consistent(Updated(exist, attached, referrers).value)
  {
    MergeRecords(exist.requiredBy, attached.requiredBy);
    hide Merge, Joined;
  }

  lemma RemovedIsConsistent(exist: Binding, r: Referrer, referrers: map<Referrer, Strategy>)
    requires Consistent(exist) && Removed(exist, r, referrers).Some?
    ensures Consistent(Removed(exist, r, referrers).value)
  {
    DeletedRecords(exist.requiredBy, r);
    hide Deleted, Joined;
  }

  lemma StepKeepsConsistent(s: Store, a: Action)
    requires AllConsistent(s) && Built(a)
    ensures AllConsistent(Do(s, a))
  {
    hide Updated, Removed;
    match a
    case Attach(name, attached) =>
      BuiltIsConsistent(attached);
      var exist := if name in s.bindings then s.bindings[name] else attached;
      if Updated(exist, attached, s.referrers).Some? {
        UpdatedIsConsistent(exist, attached, s.referrers);
      }
    case Detach(name, r) =>
      if name in s.bindings && Removed(s.bindings[name], r, s.referrers).Some? {
        RemovedIsConsistent(s.bindings[name], r, s.referrers);
      }
    case ApplyPolicy(_, _, _, _, _) =>
    case Collect(_) =>
    case ChangeReferrer(_, _) =>
  }

  /** In every run, for every binding: a depended-by label for a referrer exists exactly if the referrer is in
      `RequiredBy`, and it is there once. */
  lemma {:induction false} RunKeepsConsistent(s: Store, actions: seq<Action>)
    requires AllConsistent(s) && forall a <- actions :: Built(a)
    ensures AllConsistent(Run(s, actions))
    decreases |actions|
  {
    if actions != [] {
      StepKeepsConsistent(s, actions[0]);
      RunKeepsConsistent(Do(s, actions[0]), actions[1..]);
    }
  }

  /** The strategy of a binding that exists only as a dependency. */
  predicate Settled(b: Binding, referrers: map<Referrer, Strategy>) {
    b.strategy == if b.requiredBy == [] then CLEARED else Joined(referrers, b.requiredBy)
  }

  ghost predicate AllSettled(s: Store) {
    forall name <- s.bindings :: !s.bindings[name].hasPlacement ==> Settled(s.bindings[name], s.referrers)
  }

  lemma {:induction false} MergeIsNotEmpty(existing: seq<Snapshot>, added: seq<Snapshot>)
    requires added != []
    ensures Merge(existing, added) != []
  {
    var rest, last := Merge(existing, added[..|added| - 1]), added[|added| - 1];
    assert Requires(rest, last.referrer) ==> rest != [];
  }

  /** The distributor attaches or detaches, and the mutation succeeds, whether or not it changes anything. */
  ghost predicate Writes(s: Store, a: Action) {
    match a
    case Attach(name, attached) =>
      Updated(if name in s.bindings then s.bindings[name] else attached, attached, s.referrers).Some?
    case Detach(name, r) => name in s.bindings && Removed(s.bindings[name], r, s.referrers).Some?
    case _ => false
  }

  /** Each write of the distributor leaves the strategy that follows from the referrers that remain, whatever it
      was before. */
  lemma WriteSettles(s: Store, a: Action)
    requires Built(a) && Writes(s, a)
    ensures a.name in Do(s, a).bindings
    ensures !Do(s, a).bindings[a.name].hasPlacement ==> Settled(Do(s, a).bindings[a.name], s.referrers)
  {
    if a.Attach? && a.name in s.bindings {
      MergeIsNotEmpty(s.bindings[a.name].requiredBy, a.attached.requiredBy);
    }
    hide Joined, Merge, Deleted;
  }

  /** While the referrers' own strategies do not change, every dependency has the joined strategy of its referrers,
      and none when it has no referrers. */
  lemma {:induction false} RunKeepsSettled(s: Store, actions: seq<Action>)
    requires AllSettled(s) && forall a <- actions :: Built(a) && !a.ChangeReferrer?
    ensures AllSettled(Run(s, actions)) && Run(s, actions).referrers == s.referrers
    decreases |actions|
  {
    if actions != [] {
      var a, next := actions[0], Do(s, actions[0]);
      if Writes(s, a) {
        WriteSettles(s, a);
      }
      assert AllSettled(next) by {
        hide Settled, Updated, Removed;
      }
      RunKeepsSettled(next, actions[1..]);
    }
  }

  /** The same from the start, label by label: whatever is attached, detached, claimed, collected or changed, a binding
      has the label of a referrer exactly if it has a snapshot of it, and it has only one. */
  lemma LabelsAreSnapshots(
      referrers: map<Referrer, Strategy>, actions: seq<Action>, name: string, r: Referrer, i: nat, j: nat)
    requires forall a <- actions :: Built(a)
    requires name in Run(Store(map[], referrers), actions).bindings
    ensures var b := Run(Store(map[], referrers), actions).bindings[name];
      && (DependedBy(r) in b.labels <==> exists k :: 0 <= k < |b.requiredBy| && b.requiredBy[k].referrer == r)
      && (i < j < |b.requiredBy| ==> b.requiredBy[i].referrer != b.requiredBy[j].referrer)
  {
    RunKeepsConsistent(Store(map[], referrers), actions);
    var b := Run(Store(map[], referrers), actions).bindings[name];
    assert Consistent(b);
    if Requires(b.requiredBy, r) {
      var s :| s in b.requiredBy && s.referrer == r;
      var k :| 0 <= k < |b.requiredBy| && b.requiredBy[k] == s;
    }
    assert forall k :: 0 <= k < |b.requiredBy| ==> b.requiredBy[k] in b.requiredBy;
  }

  /** And the strategy of one that exists only as a dependency, as long as the referrers keep theirs. */
  lemma StrategiesFollow(referrers: map<Referrer, Strategy>, actions: seq<Action>, name: string)
    requires forall a <- actions :: Built(a) && !a.ChangeReferrer?
    requires name in Run(Store(map[], referrers), actions).bindings
    ensures var b := Run(Store(map[], referrers), actions).bindings[name];
      !b.hasPlacement ==>
        if b.requiredBy == [] then b.strategy == Strategy(Unset, None)
        else
          && b.strategy.conflictResolution ==
            (if exists s <- b.requiredBy ::
               s.referrer in referrers && referrers[s.referrer].conflictResolution == Overwrite then Overwrite else Abort)
          && b.strategy.preserveOnDeletion == Some(exists s <- b.requiredBy ::
               s.referrer in referrers && referrers[s.referrer].preserveOnDeletion == Some(true))
  {
    RunKeepsSettled(Store(map[], referrers), actions);
  }

  /** The joined strategy depends on who the referrers are, not on their order or their clusters. */
  lemma JoinIgnoresOrder(referrers: map<Referrer, Strategy>, a: seq<Snapshot>, b: seq<Snapshot>)
    requires forall r: Referrer :: Requires(a, r) <==> Requires(b, r)
    ensures Joined(referrers, a) == Joined(referrers, b)
  {
    forall s | s in a
      ensures exists q <- b :: q.referrer == s.referrer
    {
      assert Requires(a, s.referrer);
    }
    forall s | s in b
      ensures exists q <- a :: q.referrer == s.referrer
    {
      assert Requires(b, s.referrer);
    }
  }

  /** Removing a new referrer undoes adding it. */
  lemma DetachUndoesAttach(
      exist: Binding, attached: Binding, r: Referrer, before: map<Referrer, Strategy>, after: map<Referrer, Strategy>)
    requires Consistent(exist) && !Requires(exist.requiredBy, r)
    requires |attached.requiredBy| == 1 && attached.requiredBy[0].referrer == r && attached.labels.Keys == {DependedBy(r)}
    requires Updated(exist, attached, before).Some?
    requires Removed(Updated(exist, attached, before).value, r, after).Some?
    ensures var b := Removed(Updated(exist, attached, before).value, r, after).value;
      b.requiredBy == exist.requiredBy && b.labels == exist.labels
  {
    AttachedOne(exist, attached, before);
    var b := Updated(exist, attached, before).value;
    DetachedFields(b, r, after);
    DeletedLast(exist.requiredBy, attached.requiredBy[0]);
    assert DependedBy(r) !in exist.labels;
    hide Updated, Removed, Deleted;
    assert exist.labels + attached.labels - {DependedBy(r)} == exist.labels;
  }

  lemma AttachedOne(exist: Binding, attached: Binding, referrers: map<Referrer, Strategy>)
    requires |attached.requiredBy| == 1 && !Requires(exist.requiredBy, attached.requiredBy[0].referrer)
    requires Updated(exist, attached, referrers).Some?
    ensures var b := Updated(exist, attached, referrers).value;
      b.requiredBy == exist.requiredBy + [attached.requiredBy[0]] && b.labels == exist.labels + attached.labels
  {
    AddedIsLast(exist.requiredBy, attached.requiredBy);
    hide Joined, AllFound, Merge;
  }

  lemma DetachedFields(b: Binding, r: Referrer, referrers: map<Referrer, Strategy>)
    requires Removed(b, r, referrers).Some?
    ensures var c := Removed(b, r, referrers).value;
      c.requiredBy == Deleted(b.requiredBy, r) && c.labels == b.labels - {DependedBy(r)}
  {
    hide Joined, AllFound, Deleted;
  }

  lemma DeletedLast(existing: seq<Snapshot>, last: Snapshot)
    requires !Requires(existing, last.referrer)
    ensures Deleted(existing + [last], last.referrer) == existing
  {
    assert (existing + [last])[..|existing|] == existing;
    DeletedAbsent(existing, last.referrer);
  }

  lemma AddedIsLast(existing: seq<Snapshot>, added: seq<Snapshot>)
    requires |added| == 1 && !Requires(existing, added[0].referrer)
    ensures Merge(existing, added) == existing + added
  {
    assert Merge(existing, added[..0]) == existing;
    assert added == [added[0]];
  }

  lemma {:induction false} DeletedAbsent(existing: seq<Snapshot>, r: Referrer)
    requires !Requires(existing, r)
    ensures Deleted(existing, r) == existing
  {
    if existing != [] {
      assert existing[|existing| - 1] in existing;
      assert !Requires(existing[..|existing| - 1], r);
      DeletedAbsent(existing[..|existing| - 1], r);
    }
  }
}
