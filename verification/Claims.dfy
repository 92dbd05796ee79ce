/** The claim of a policy on a resource template: labels and annotations
    (pkg/detector/claim.go, pkg/util/label.go, pkg/util/annotation.go). */
module Claims {
  import opened Policies
  import opened Wrappers

  datatype AnnotationKey =
    | PropagationPolicyNamespaceAnnotation
    | PropagationPolicyNameAnnotation
    | ClusterPropagationPolicyAnnotation
    | OtherAnnotation(name: string)

  datatype Meta = Meta(labels: map<LabelKey, string>, annotations: map<AnnotationKey, string>)
  {
    /** `GetLabelValue` and `GetAnnotationValue`: a missing key reads as the empty string. */
    function Label(k: LabelKey): string {
      if k in labels then labels[k] else ""
    }

    function Annotation(k: AnnotationKey): string {
      if k in annotations then annotations[k] else ""
    }
  }

  function AddPPClaimMetadata(meta: Meta, id: string, namespace: string, name: string): Meta {
    Meta(
      meta.labels[PropagationPolicyPermanentIDLabel := id],
      meta.annotations[PropagationPolicyNamespaceAnnotation := namespace][PropagationPolicyNameAnnotation := name])
  }

  function AddCPPClaimMetadata(meta: Meta, id: string, name: string): Meta {
    Meta(
      meta.labels[ClusterPropagationPolicyPermanentIDLabel := id],
      meta.annotations[ClusterPropagationPolicyAnnotation := name])
  }

  function CleanupPPClaimMetadata(meta: Meta): Meta {
    Meta(
      meta.labels - {PropagationPolicyPermanentIDLabel},
      meta.annotations - {PropagationPolicyNamespaceAnnotation, PropagationPolicyNameAnnotation})
  }

  function CleanupCPPClaimMetadata(meta: Meta): Meta {
    Meta(
      meta.labels - {ClusterPropagationPolicyPermanentIDLabel},
      meta.annotations - {ClusterPropagationPolicyAnnotation})
  }

  function IDLabel(ref: PolicyRef): LabelKey {
    if ref.PP? then PropagationPolicyPermanentIDLabel else ClusterPropagationPolicyPermanentIDLabel
  }

  function Cleanup(meta: Meta, ref: PolicyRef): Meta {
    if ref.PP? then CleanupPPClaimMetadata(meta) else CleanupCPPClaimMetadata(meta)
  }

  /** What `ClaimPolicyForObject` and `ClaimClusterPolicyForObject` leave on the object. */
  function Claimed(meta: Meta, policy: Policy): Meta {
    match policy.ref
    case PP(namespace, name) =>
      if AlreadyClaimed(meta, policy) then meta
      else
        AddPPClaimMetadata(
          if ClusterPropagationPolicyPermanentIDLabel in meta.labels then CleanupCPPClaimMetadata(meta) else meta,
          policy.id, namespace, name)
    case CPP(name) =>
      if AlreadyClaimed(meta, policy) then meta else AddCPPClaimMetadata(meta, policy.id, name)
  }

  /** The object needs no write. */
  predicate AlreadyClaimed(meta: Meta, policy: Policy) {
    match policy.ref
    case PP(_, _) =>
      && meta.labels != map[]
      && ClusterPropagationPolicyPermanentIDLabel !in meta.labels
      && meta.Label(PropagationPolicyPermanentIDLabel) == policy.id
    case CPP(_) => meta.Label(ClusterPropagationPolicyPermanentIDLabel) == policy.id
  }

  /** Who holds a template, as `propagateResource` reads it. */
  datatype Claim = Unclaimed | By(ref: PolicyRef, id: string)

  function ClaimOf(meta: Meta): Claim {
    var namespace := meta.Annotation(PropagationPolicyNamespaceAnnotation);
    var name := meta.Annotation(PropagationPolicyNameAnnotation);
    var id := meta.Label(PropagationPolicyPermanentIDLabel);
    if namespace != "" && name != "" && id != "" then By(PP(namespace, name), id)
    else
      var clusterName := meta.Annotation(ClusterPropagationPolicyAnnotation);
      var clusterID := meta.Label(ClusterPropagationPolicyPermanentIDLabel);
      if clusterName != "" && clusterID != "" then By(CPP(clusterName), clusterID) else Unclaimed
  }

  predicate HasNoPP(meta: Meta) {
    && PropagationPolicyPermanentIDLabel !in meta.labels
    && PropagationPolicyNamespaceAnnotation !in meta.annotations
    && PropagationPolicyNameAnnotation !in meta.annotations
  }

  predicate HasNoCPP(meta: Meta) {
    && ClusterPropagationPolicyPermanentIDLabel !in meta.labels
    && ClusterPropagationPolicyAnnotation !in meta.annotations
  }

  predicate HasWholePP(meta: Meta) {
    && meta.Label(PropagationPolicyPermanentIDLabel) != ""
    && meta.Annotation(PropagationPolicyNamespaceAnnotation) != ""
    && meta.Annotation(PropagationPolicyNameAnnotation) != ""
  }

  predicate HasWholeCPP(meta: Meta) {
    && meta.Label(ClusterPropagationPolicyPermanentIDLabel) != ""
    && meta.Annotation(ClusterPropagationPolicyAnnotation) != ""
  }

  /** Each kind of claim is complete or absent, and they are never both present. */
  predicate AllOrNothing(meta: Meta) {
    && (HasNoPP(meta) || HasWholePP(meta))
    && (HasNoCPP(meta) || HasWholeCPP(meta))
    && (HasNoPP(meta) || HasNoCPP(meta))
  }

  /** A policy as the API admits it: its name, namespace and permanent ID are not empty, it selects something, and
      a propagation policy selects in its own namespace only. */
  predicate Admitted(policy: Policy) {
    && policy.id != "" && policy.ref.name != "" && policy.selectors != []
    && (policy.ref.PP? ==>
         && policy.ref.namespace != ""
         && forall rs <- policy.selectors :: rs.namespace == policy.ref.namespace)
  }

  /** Who holds an object, key by key: the propagation policy whose namespace, name and ID it carries, if none of them
      is missing or empty; else the cluster policy whose name and ID it carries; else nobody. */
  lemma ClaimOfMeans(meta: Meta, namespace: string, name: string, id: string)
    ensures ClaimOf(meta) == By(PP(namespace, name), id) <==>
      && namespace != "" && name != "" && id != ""
      && PropagationPolicyNamespaceAnnotation in meta.annotations
      && meta.annotations[PropagationPolicyNamespaceAnnotation] == namespace
      && PropagationPolicyNameAnnotation in meta.annotations
      && meta.annotations[PropagationPolicyNameAnnotation] == name
      && PropagationPolicyPermanentIDLabel in meta.labels && meta.labels[PropagationPolicyPermanentIDLabel] == id
    ensures ClaimOf(meta) == By(CPP(name), id) <==>
      && name != "" && id != ""
      && ClusterPropagationPolicyAnnotation in meta.annotations
      && meta.annotations[ClusterPropagationPolicyAnnotation] == name
      && ClusterPropagationPolicyPermanentIDLabel in meta.labels
      && meta.labels[ClusterPropagationPolicyPermanentIDLabel] == id
      && !(ClaimOf(meta).By? && ClaimOf(meta).ref.PP?)
  {
  }

  /** What a claim by a propagation policy leaves, key by key. An object that carries its ID already, and no ID of a
      cluster policy, stays as it is. Otherwise the three keys of the claim are set, those of a cluster policy are gone
      if its ID was there, and every other key keeps its value. */
  lemma PPClaimMeans(meta: Meta, policy: Policy)
    requires policy.ref.PP? && policy.id != ""
    ensures
      var stays := ClusterPropagationPolicyPermanentIDLabel !in meta.labels
        && PropagationPolicyPermanentIDLabel in meta.labels && meta.labels[PropagationPolicyPermanentIDLabel] == policy.id;
      var displaces := ClusterPropagationPolicyPermanentIDLabel in meta.labels;
      var after := Claimed(meta, policy);
      && (stays ==> after == meta)
      && (!stays ==>
           && (forall k :: k in after.labels <==>
                k == PropagationPolicyPermanentIDLabel
                || (k in meta.labels && k != ClusterPropagationPolicyPermanentIDLabel))
           && (forall k :: k in after.annotations <==>
                k == PropagationPolicyNamespaceAnnotation || k == PropagationPolicyNameAnnotation
                || (k in meta.annotations && !(displaces && k == ClusterPropagationPolicyAnnotation)))
           && after.labels[PropagationPolicyPermanentIDLabel] == policy.id
           && after.annotations[PropagationPolicyNamespaceAnnotation] == policy.ref.namespace
           && after.annotations[PropagationPolicyNameAnnotation] == policy.ref.name
           && (forall k <- after.labels :: k != PropagationPolicyPermanentIDLabel ==> after.labels[k] == meta.labels[k])
           && (forall k <- after.annotations ::
                k != PropagationPolicyNamespaceAnnotation && k != PropagationPolicyNameAnnotation ==>
                  after.annotations[k] == meta.annotations[k]))
  {
  }

  /** The same for a cluster policy, which displaces nothing. */
  lemma CPPClaimMeans(meta: Meta, policy: Policy)
    requires policy.ref.CPP? && policy.id != ""
    ensures
      var stays := ClusterPropagationPolicyPermanentIDLabel in meta.labels
        && meta.labels[ClusterPropagationPolicyPermanentIDLabel] == policy.id;
      var after := Claimed(meta, policy);
      && (stays ==> after == meta)
      && (!stays ==>
           && after.labels.Keys == meta.labels.Keys + {ClusterPropagationPolicyPermanentIDLabel}
           && after.annotations.Keys == meta.annotations.Keys + {ClusterPropagationPolicyAnnotation}
           && after.labels[ClusterPropagationPolicyPermanentIDLabel] == policy.id
           && after.annotations[ClusterPropagationPolicyAnnotation] == policy.ref.name
           && (forall k <- meta.labels ::
                k != ClusterPropagationPolicyPermanentIDLabel ==> after.labels[k] == meta.labels[k])
           && (forall k <- meta.annotations ::
                k != ClusterPropagationPolicyAnnotation ==> after.annotations[k] == meta.annotations[k]))
  {
  }

  /** Cleaning up removes exactly the keys of a claim of one kind. */
  lemma CleanupMeans(meta: Meta, ref: PolicyRef)
    ensures var after := Cleanup(meta, ref);
      && (ref.PP? ==>
           && after.labels.Keys == meta.labels.Keys - {PropagationPolicyPermanentIDLabel}
           && after.annotations.Keys ==
             meta.annotations.Keys - {PropagationPolicyNamespaceAnnotation, PropagationPolicyNameAnnotation})
      && (ref.CPP? ==>
           && after.labels.Keys == meta.labels.Keys - {ClusterPropagationPolicyPermanentIDLabel}
           && after.annotations.Keys == meta.annotations.Keys - {ClusterPropagationPolicyAnnotation})
      && (forall k <- after.labels :: after.labels[k] == meta.labels[k])
      && (forall k <- after.annotations :: after.annotations[k] == meta.annotations[k])
  {
  }

  /** Claiming sets the whole claim of the new policy. A propagation policy displaces the cluster policy; a
      cluster policy must not meet a propagation policy's claim. */
  lemma ClaimedIsWhole(meta: Meta, policy: Policy)
    requires AllOrNothing(meta) && Admitted(policy)
    requires policy.ref.CPP? ==> HasNoPP(meta)
    ensures AllOrNothing(Claimed(meta, policy))
    ensures AlreadyClaimed(meta, policy) ==> ClaimOf(meta).By? && ClaimOf(meta).id == policy.id
    ensures !AlreadyClaimed(meta, policy) ==> ClaimOf(Claimed(meta, policy)) == By(policy.ref, policy.id)
    ensures forall k: LabelKey :: k.ResourceTemplateClaimedByLabel? || k.OtherLabel? ==>
      Claimed(meta, policy).Label(k) == meta.Label(k)
  {
  }

  /** Cleaning up removes the whole claim of one kind and leaves the other kind as it was. */
  lemma CleanupIsWhole(meta: Meta, ref: PolicyRef)
    requires AllOrNothing(meta)
    ensures AllOrNothing(Cleanup(meta, ref))
    ensures ClaimOf(meta).By? && (ClaimOf(meta).ref.PP? <==> ref.PP?) ==> ClaimOf(Cleanup(meta, ref)) == Unclaimed
    ensures ClaimOf(meta).Unclaimed? || !(ClaimOf(meta).ref.PP? <==> ref.PP?) ==> Cleanup(meta, ref) == meta
  {
    if ClaimOf(meta).Unclaimed? || !(ClaimOf(meta).ref.PP? <==> ref.PP?) {
      assert Cleanup(meta, ref).labels == meta.labels && Cleanup(meta, ref).annotations == meta.annotations;
    }
  }

  /** A template or a binding, whose metadata is changed in place. */
  class Object {
    var labels: map<LabelKey, string>
    var annotations: map<AnnotationKey, string>

    constructor (meta: Meta)
      ensures Value() == meta
    {
      labels, annotations := meta.labels, meta.annotations;
    }

    function Value(): Meta
      reads this
    {
      Meta(labels, annotations)
    }

    method RemoveLabels(labelKeys: seq<LabelKey>)
      modifies this`labels
      ensures labels == old(labels) - (set k <- labelKeys)
    {
      for i := 0 to |labelKeys|
        invariant labels == old(labels) - (set k <- labelKeys[..i])
      {
        assert labelKeys[..i + 1] == labelKeys[..i] + [labelKeys[i]];
        labels := labels - {labelKeys[i]};
      }
      assert labelKeys[..|labelKeys|] == labelKeys;
    }

    method RemoveAnnotations(keys: seq<AnnotationKey>)
      modifies this`annotations
      ensures annotations == old(annotations) - (set k <- keys)
    {
      for i := 0 to |keys|
        invariant annotations == old(annotations) - (set k <- keys[..i])
      {
        assert keys[..i + 1] == keys[..i] + [keys[i]];
        annotations := annotations - {keys[i]};
      }
      assert keys[..|keys|] == keys;
    }

    method AddPP(id: string, namespace: string, name: string)
      modifies this
      ensures Value() == AddPPClaimMetadata(old(Value()), id, namespace, name)
    {
      labels := labels[PropagationPolicyPermanentIDLabel := id];
      annotations := annotations[PropagationPolicyNamespaceAnnotation := namespace];
      annotations := annotations[PropagationPolicyNameAnnotation := name];
    }

    method AddCPP(id: string, name: string)
      modifies this
      ensures Value() == AddCPPClaimMetadata(old(Value()), id, name)
    {
      labels := labels[ClusterPropagationPolicyPermanentIDLabel := id];
      annotations := annotations[ClusterPropagationPolicyAnnotation := name];
    }

    method CleanupPP()
      modifies this
      ensures Value() == CleanupPPClaimMetadata(old(Value()))
    {
      RemoveLabels([PropagationPolicyPermanentIDLabel]);
      RemoveAnnotations([PropagationPolicyNamespaceAnnotation, PropagationPolicyNameAnnotation]);
    }

    method CleanupCPP()
      modifies this
      ensures Value() == CleanupCPPClaimMetadata(old(Value()))
    {
      RemoveLabels([ClusterPropagationPolicyPermanentIDLabel]);
      RemoveAnnotations([ClusterPropagationPolicyAnnotation]);
    }

    /** `excludeClusterPolicy`. */
    method ExcludeClusterPolicy() returns (hasClaimedClusterPolicy: bool)
      modifies this
      ensures hasClaimedClusterPolicy == (ClusterPropagationPolicyPermanentIDLabel in old(labels))
      ensures Value() ==
        if hasClaimedClusterPolicy then CleanupCPPClaimMetadata(old(Value())) else old(Value())
    {
      if ClusterPropagationPolicyPermanentIDLabel !in labels {
        return false;
      }
      CleanupCPP();
      return true;
    }

    /** Returns whether the object has to be written back. */
    method ClaimPolicyForObject(policy: Policy) returns (update: bool)
      requires policy.ref.PP?
      modifies this
      ensures update == !AlreadyClaimed(old(Value()), policy)
      ensures Value() == Claimed(old(Value()), policy)
    {
      var objLabels := labels;
      if |objLabels| > 0 {
        var excluded := ExcludeClusterPolicy();
        var claimedID := if PropagationPolicyPermanentIDLabel in objLabels
          then objLabels[PropagationPolicyPermanentIDLabel] else "";
        if !excluded && claimedID == policy.id {
          return false;
        }
      }
      AddPP(policy.id, policy.ref.namespace, policy.ref.name);
      return true;
    }

    method ClaimClusterPolicyForObject(policy: Policy) returns (update: bool)
      requires policy.ref.CPP?
      modifies this
      ensures update == !AlreadyClaimed(old(Value()), policy)
      ensures Value() == Claimed(old(Value()), policy)
    {
      var claimedID := Value().Label(ClusterPropagationPolicyPermanentIDLabel);
      if claimedID == policy.id {
        return false;
      }
      AddCPP(policy.id, policy.ref.name);
      return true;
    }
  }

  /** `NeedCleanupClaimMetadata`. */
  method NeedCleanupClaimMetadata(labels: map<LabelKey, string>, target: map<LabelKey, string>) returns (need: bool)
    ensures need <==> forall k <- target :: Meta(labels, map[]).Label(k) == target[k]
  {
    var rest := target.Keys;
    while rest != {}
      invariant rest <= target.Keys
      invariant forall k :: k in target && k !in rest ==> Meta(labels, map[]).Label(k) == target[k]
    {
      var k :| k in rest;
      rest := rest - {k};
      var value := if k in labels then labels[k] else "";
      if value != target[k] {
        return false;
      }
    }
    return true;
  }

  /** What a write of the cleaned-up object can meet: success, a conflict with a newer object, a conflict with
      a deletion, or another error. */
  datatype WriteOutcome = Written | Conflict(newer: Meta) | Gone | Refused

  /** What is known of the template at one attempt: what it was at first, then what the last conflict showed. */
  function Observed(template: Meta, outcomes: seq<WriteOutcome>, attempt: nat): Meta
    requires attempt <= |outcomes|
  {
    if attempt > 0 && outcomes[attempt - 1].Conflict? then outcomes[attempt - 1].newer else template
  }

  predicate Carries(template: Meta, outcomes: seq<WriteOutcome>, ref: PolicyRef, id: string, attempt: nat)
    requires attempt <= |outcomes|
  {
    Observed(template, outcomes, attempt).Label(IDLabel(ref)) == id
  }

  /** All attempts before this one have found the ID and met a conflict. */
  ghost predicate Reached(template: Meta, outcomes: seq<WriteOutcome>, ref: PolicyRef, id: string, attempt: nat) {
    attempt < |outcomes| &&
    forall j: nat :: j < attempt ==> outcomes[j].Conflict? && Carries(template, outcomes, ref, id, j)
  }

  /** One attempt: whether the metadata had to be cleaned up, and what it is then. */
  method CleanupOnce(workload: Object, ref: PolicyRef, id: string) returns (need: bool)
    modifies workload
    ensures need <==> old(workload.Value()).Label(IDLabel(ref)) == id
    ensures workload.Value() == if need then Cleanup(old(workload.Value()), ref) else old(workload.Value())
  {
    need := NeedCleanupClaimMetadata(workload.labels, map[IDLabel(ref) := id]);
    assert Meta(workload.labels, map[]).Label(IDLabel(ref)) == workload.Value().Label(IDLabel(ref));
    if need {
      if ref.PP? {
        workload.CleanupPP();
      } else {
        workload.CleanupCPP();
      }
    }
  }

  /** `CleanupResourceTemplateClaimMetadata`, with one outcome for each attempt. A claim is removed exactly if some
      attempt finds the ID of the deleted policy and its write succeeds, and then from what that attempt has found;
      it is no error exactly if the claim is removed, the ID is not found, or the template is gone. */
  method CleanupResourceTemplateClaimMetadata(
      template: Meta, ref: PolicyRef, id: string, outcomes: seq<WriteOutcome>)
    returns (ok: bool, written: Option<(Meta, Meta)>)
    requires outcomes != []
    ensures written.Some? <==> exists i: nat ::
      Reached(template, outcomes, ref, id, i) && Carries(template, outcomes, ref, id, i) && outcomes[i].Written?
    ensures written.Some? ==> written.value.1 == Cleanup(written.value.0, ref)
    ensures written.Some? ==> exists i: nat ::
      && Reached(template, outcomes, ref, id, i) && Carries(template, outcomes, ref, id, i) && outcomes[i].Written?
      && written.value.0 == Observed(template, outcomes, i)
    ensures ok <==> exists i: nat ::
      && Reached(template, outcomes, ref, id, i)
      && (Carries(template, outcomes, ref, id, i) ==> outcomes[i].Written? || outcomes[i].Gone?)
  {
    var workload := new Object(template);
    hide Cleanup;
    for attempt := 0 to |outcomes|
      invariant fresh(workload) && workload.Value() == Observed(template, outcomes, attempt)
      invariant forall j: nat :: j < attempt ==> outcomes[j].Conflict? && Carries(template, outcomes, ref, id, j)
    {
      var observed, outcome := workload.Value(), outcomes[attempt];
      assert Reached(template, outcomes, ref, id, attempt);
      assert observed.Label(IDLabel(ref)) == id <==> Carries(template, outcomes, ref, id, attempt);
      var need := CleanupOnce(workload, ref, id);
      LaterNotReached(template, outcomes, ref, id, attempt);
      if !need {
        return true, None;
      }
      match outcome
      case Written => return true, Some((observed, workload.Value()));
      case Gone => return true, None;
      case Refused => return false, None;
      case Conflict(newer) => workload := new Object(newer);
    }
    return false, None;
  }

  /** An attempt that ends the retries is the last one reached, and the earlier ones met conflicts. */
  lemma LaterNotReached(template: Meta, outcomes: seq<WriteOutcome>, ref: PolicyRef, id: string, attempt: nat)
    requires Reached(template, outcomes, ref, id, attempt)
    ensures forall i: nat :: Reached(template, outcomes, ref, id, i) ==>
      if i > attempt then outcomes[attempt].Conflict? && Carries(template, outcomes, ref, id, attempt)
      else i == attempt || (outcomes[i].Conflict? && Carries(template, outcomes, ref, id, i))
  {
  }
}
