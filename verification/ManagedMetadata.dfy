/** Labels and annotations that Karmada manages in member clusters: recorded when an object is sent, and told
    apart from those that the members add (pkg/util/label.go, annotation.go, work.go;
    pkg/util/objectwatcher/objectwatcher.go). */
module ManagedMetadata {
  import opened Collections
  import opened Wrappers

  const MANAGED_ANNOTATION := "resourcetemplate.karmada.io/managed-annotations"
  const MANAGED_LABELS := "resourcetemplate.karmada.io/managed-labels"
  const WORK_PERMANENT_ID_LABEL := "work.karmada.io/permanent-id"

  lemma AnnotationRecordKey()
    ensures ',' !in MANAGED_ANNOTATION && |MANAGED_ANNOTATION| == 47
  {
    assert MANAGED_ANNOTATION == "resourcetemplate.kar" + "mada.io/managed-annotations";
    assert ',' !in "resourcetemplate.kar";
    assert ',' !in "mada.io/managed-annotations";
  }

  lemma LabelRecordKey()
    ensures ',' !in MANAGED_LABELS && |MANAGED_LABELS| == 42
  {
  }

  lemma WorkIDKey()
    ensures ',' !in WORK_PERMANENT_ID_LABEL
  {
  }

  lemma RecordKeys()
    ensures ',' !in MANAGED_ANNOTATION && ',' !in MANAGED_LABELS && ',' !in WORK_PERMANENT_ID_LABEL
    ensures |MANAGED_ANNOTATION| != |MANAGED_LABELS|
  {
    hide *;
    AnnotationRecordKey();
    LabelRecordKey();
    WorkIDKey();
  }

  /** Go's `strings.Join` with a comma. */
  function Join(keys: seq<string>): string {
    if keys == [] then "" else if |keys| == 1 then keys[0] else keys[0] + "," + Join(keys[1..])
  }

  /** Go's `strings.Split` at commas: never empty, the empty string gives one empty key. */
  function Split(s: string): (keys: seq<string>)
    ensures keys != []
  {
    if s == "" then [""]
    else
      var rest := Split(s[1..]);
      if s[0] == ',' then [""] + rest else [[s[0]] + rest[0]] + rest[1..]
  }

  predicate CommaFree(keys: seq<string>) {
    forall k <- keys :: ',' !in k
  }

  lemma {:induction false} SplitWord(word: string)
    requires ',' !in word
    ensures Split(word) == [word]
  {
    if word != "" {
      SplitWord(word[1..]);
      assert [word[0]] + word[1..] == word;
    }
  }

  lemma {:induction false} SplitAtComma(word: string, rest: string)
    requires ',' !in word
    ensures Split(word + "," + rest) == [word] + Split(rest)
  {
    var s := word + "," + rest;
    if word == "" {
      assert s[1..] == rest;
    } else {
      SplitAtComma(word[1..], rest);
      assert s[1..] == word[1..] + "," + rest;
      assert [word[0]] + word[1..] == word;
    }
  }

  /** What is joined can be split again, except that no keys become one empty key. */
  lemma {:induction false} SplitUndoesJoin(keys: seq<string>)
    requires CommaFree(keys)
    ensures Split(Join(keys)) == if keys == [] then [""] else keys
  {
    if |keys| == 1 {
      SplitWord(keys[0]);
    } else if keys != [] {
      SplitAtComma(keys[0], Join(keys[1..]));
      SplitUndoesJoin(keys[1..]);
    }
  }

  /** A key with a comma is not found again. */
  lemma CommaLosesKey(k: string, before: string, after: string)
    requires k == before + "," + after && ',' !in before
    ensures Split(Join([k]))[0] == before != k
  {
    SplitAtComma(before, after);
  }

  /** Desired keys win; of the observed ones those stay that were not managed before. */
  function Retained(
      desired: map<string, string>, observed: map<string, string>, managed: set<string>): map<string, string>
  {
    map k | k in desired.Keys + (observed.Keys - managed) :: if k in desired then desired[k] else observed[k]
  }

  /** An object of a member cluster, or the one that is to be sent there. */
  class Unstructured {
    var labels: map<string, string>
    var annotations: map<string, string>

    constructor (labels: map<string, string>, annotations: map<string, string>)
      ensures this.labels == labels && this.annotations == annotations
    {
      this.labels, this.annotations := labels, annotations;
    }

    function Annotation(key: string): string
      reads this
    {
      if key in annotations then annotations[key] else ""
    }

    function Managed(key: string): set<string>
      reads this
    {
      SetOf(Split(Annotation(key)))
    }

    /** `RecordManagedLabels`. */
    method RecordManagedLabels()
      requires forall k <- labels :: ',' !in k
      modifies this`annotations
      ensures annotations.Keys == old(annotations.Keys) + {MANAGED_LABELS}
      ensures forall k <- old(annotations) :: k != MANAGED_LABELS ==> annotations[k] == old(annotations[k])
      ensures Managed(MANAGED_LABELS) == if labels.Keys == {} then {""} else labels.Keys
    {
      RecordKeys();
      hide MANAGED_ANNOTATION, MANAGED_LABELS, WORK_PERMANENT_ID_LABEL;
      var managedKeys := Listing(labels.Keys);
      SplitUndoesJoin(managedKeys);
      assert managedKeys != [] ==> managedKeys[0] in labels;
      annotations := annotations[MANAGED_LABELS := Join(managedKeys)];
      assert SetOf(managedKeys) == labels.Keys;
      assert SetOf([""]) == {""};
    }

    /** `RecordManagedAnnotations`: the two records are recorded as managed themselves. */
    method RecordManagedAnnotations()
      requires forall k <- annotations :: ',' !in k
      modifies this`annotations
      ensures annotations.Keys == old(annotations.Keys) + {MANAGED_ANNOTATION}
      ensures forall k <- old(annotations) :: k != MANAGED_ANNOTATION ==> annotations[k] == old(annotations[k])
      ensures Managed(MANAGED_ANNOTATION) == old(annotations.Keys) + {MANAGED_ANNOTATION, MANAGED_LABELS}
    {
      RecordKeys();
      hide MANAGED_ANNOTATION, MANAGED_LABELS, WORK_PERMANENT_ID_LABEL;
      var managedKeys := [MANAGED_ANNOTATION, MANAGED_LABELS];
      var rest := annotations.Keys;
      while rest != {}
        invariant annotations == old(annotations) && rest <= annotations.Keys
        invariant CommaFree(managedKeys) && managedKeys != []
        invariant SetOf(managedKeys) == (annotations.Keys - rest) - (rest * {MANAGED_ANNOTATION, MANAGED_LABELS})
          + {MANAGED_ANNOTATION, MANAGED_LABELS}
      {
        var key :| key in rest;
        rest := rest - {key};
        if key == MANAGED_ANNOTATION || key == MANAGED_LABELS {
          continue;
        }
        SetOfSnoc(managedKeys, key);
        managedKeys := managedKeys + [key];
      }
      SplitUndoesJoin(managedKeys);
      annotations := annotations[MANAGED_ANNOTATION := Join(managedKeys)];
    }

    /** `RetainLabels`. */
    method RetainLabels(observed: Unstructured)
      requires observed != this
      modifies this`labels
      ensures labels == Retained(old(labels), observed.labels, observed.Managed(MANAGED_LABELS))
    {
      var deletedLabelKeys := observed.Managed(MANAGED_LABELS) - labels.Keys;
      labels := Merge(labels, observed.labels, deletedLabelKeys);
    }

    /** `RetainAnnotations`. */
    method RetainAnnotations(observed: Unstructured)
      requires observed != this
      modifies this`annotations
      ensures annotations == Retained(old(annotations), observed.annotations, observed.Managed(MANAGED_ANNOTATION))
    {
      var deletedAnnotationKeys := observed.Managed(MANAGED_ANNOTATION) - annotations.Keys;
      annotations := Merge(annotations, observed.annotations, deletedAnnotationKeys);
    }

    /** The loop that both share. */
    static method Merge(desired: map<string, string>, observed: map<string, string>, deleted: set<string>)
      returns (merged: map<string, string>)
      ensures merged == Retained(desired, observed, deleted)
    {
      merged := desired;
      var keys := observed.Keys;
      while keys != {}
        invariant keys <= observed.Keys
        invariant merged.Keys == desired.Keys + (observed.Keys - keys - deleted)
        invariant forall k <- merged :: merged[k] == if k in desired then desired[k] else observed[k]
      {
        var key :| key in keys;
        keys := keys - {key};
        if key in deleted {
          continue;
        }
        if key in merged {
          continue;
        }
        merged := merged[key := observed[key]];
      }
    }

    /** `SetLabelsAndAnnotationsForWorkload`: what is recorded is what is sent. */
    method SetLabelsAndAnnotationsForWorkload(workID: string)
      requires forall k <- labels :: ',' !in k
      requires forall k <- annotations :: ',' !in k
      modifies this
      ensures labels == Sent(old(labels), workID)
      ensures labels.Keys == old(labels).Keys + if workID != "" then {WORK_PERMANENT_ID_LABEL} else {}
      ensures forall k <- old(labels) ::
        k != WORK_PERMANENT_ID_LABEL || workID == "" ==> k in labels && labels[k] == old(labels)[k]
      ensures workID != "" ==> WORK_PERMANENT_ID_LABEL in labels && labels[WORK_PERMANENT_ID_LABEL] == workID
      ensures forall k <- old(annotations) ::
        k != MANAGED_ANNOTATION && k != MANAGED_LABELS ==> k in annotations && annotations[k] == old(annotations)[k]
      ensures annotations.Keys == old(annotations.Keys) + RECORDS
      ensures UserKeys(annotations) == UserKeys(old(annotations))
      ensures Managed(MANAGED_LABELS) == if labels.Keys == {} then {""} else labels.Keys
      ensures Managed(MANAGED_ANNOTATION) == annotations.Keys
    {
      RecordKeys();
      hide MANAGED_ANNOTATION, MANAGED_LABELS, WORK_PERMANENT_ID_LABEL;
      hide Split, SetOf;
      ghost var before := annotations;
      RecordManagedAnnotations();
      label Recorded:
      ghost var between := annotations;
      if workID != "" {
        labels := labels + map[WORK_PERMANENT_ID_LABEL := workID];
      }
      assert labels == Sent(old(labels), workID);
      hide Sent;
      assert forall k <- labels :: ',' !in k;
      RecordManagedLabels();
      assert Annotation(MANAGED_ANNOTATION) == old@Recorded(Annotation(MANAGED_ANNOTATION));
      RecordsAdded(before, between, annotations);
      SentMeans(old(labels), workID);
      hide UserKeys, RECORDS;
    }

    /** One synchronization of an object that exists in the member cluster already: `this` is what is desired, and
        becomes what is written. */
    method Sync(observed: Unstructured, workID: string)
      requires observed != this
      requires forall k <- labels :: ',' !in k
      requires forall k <- annotations :: ',' !in k
      modifies this
      ensures View() == Do(old(observed.View()), Desire(old(labels), workID, UserKeys(old(annotations))))
    {
      RecordKeys();
      hide MANAGED_ANNOTATION, MANAGED_LABELS, WORK_PERMANENT_ID_LABEL;
      SetLabelsAndAnnotationsForWorkload(workID);
      ghost var sent, recorded, managed := annotations, Managed(MANAGED_LABELS), Managed(MANAGED_ANNOTATION);
      RetainAnnotations(observed);
      RetainLabels(observed);
      assert RECORDS <= sent.Keys;
      UserKeysRetained(sent, observed.annotations, observed.Managed(MANAGED_ANNOTATION));
    }

    /** A member's object, with the two records read. */
    function View(): MemberObject
      reads this
    {
      MemberObject(labels, UserKeys(annotations), Managed(MANAGED_LABELS), Managed(MANAGED_ANNOTATION))
    }
  }

  const RECORDS := {MANAGED_ANNOTATION, MANAGED_LABELS}

  /** The annotations other than the two records. */
  function UserKeys(annotations: map<string, string>): map<string, string> {
    annotations - RECORDS
  }

  lemma RecordsAdded(before: map<string, string>, between: map<string, string>, after: map<string, string>)
    requires between.Keys == before.Keys + {MANAGED_ANNOTATION} && after.Keys == between.Keys + {MANAGED_LABELS}
    requires forall k <- before :: k != MANAGED_ANNOTATION ==> between[k] == before[k]
    requires forall k <- between :: k != MANAGED_LABELS ==> after[k] == between[k]
    ensures after.Keys == before.Keys + RECORDS && UserKeys(after) == UserKeys(before)
    ensures forall k <- before :: k != MANAGED_ANNOTATION && k != MANAGED_LABELS ==> k in after && after[k] == before[k]
  {
    hide MANAGED_ANNOTATION, MANAGED_LABELS;
  }

  lemma UserKeysRetained(desired: map<string, string>, observed: map<string, string>, managed: set<string>)
    requires RECORDS <= desired.Keys
    ensures UserKeys(Retained(desired, observed, managed)) == Retained(UserKeys(desired), UserKeys(observed), managed)
  {
  }

  /** The labels that are sent: with the ID of the Work, if it has one. */
  function Sent(labels: map<string, string>, workID: string): map<string, string> {
    if workID == "" then labels else labels[WORK_PERMANENT_ID_LABEL := workID]
  }

  /** Every label is sent as it is, except that the ID of the Work, if there is one, is sent under its own key. */
  lemma SentMeans(labels: map<string, string>, workID: string)
    ensures var sent := Sent(labels, workID);
      && sent.Keys == labels.Keys + (if workID != "" then {WORK_PERMANENT_ID_LABEL} else {})
      && (forall k <- labels :: k != WORK_PERMANENT_ID_LABEL || workID == "" ==> k in sent && sent[k] == labels[k])
      && (workID != "" ==> WORK_PERMANENT_ID_LABEL in sent && sent[WORK_PERMANENT_ID_LABEL] == workID)
  {
    hide WORK_PERMANENT_ID_LABEL;
  }

  datatype MemberObject = MemberObject(
    labels: map<string, string>, annotations: map<string, string>,
    managedLabels: set<string>, managedAnnotations: set<string>)

  /** The member's object after it was synchronized to these labels and annotations. */
  function Synced(o: MemberObject, labels: map<string, string>, annotations: map<string, string>): MemberObject {
    MemberObject(
      Retained(labels, o.labels, o.managedLabels),
      Retained(annotations, o.annotations, o.managedAnnotations),
      if labels.Keys == {} then {""} else labels.Keys,
      annotations.Keys + RECORDS)
  }

  /** Karmada synchronizes; members change labels and annotations, but not the records. */
  datatype Step =
    | Desire(labels: map<string, string>, workID: string, annotations: map<string, string>)
    | EditLabel(key: string, value: Option<string>)
    | EditAnnotation(key: string, value: Option<string>)

  function With(m: map<string, string>, key: string, value: Option<string>): map<string, string> {
    if value.Some? then m[key := value.value] else m - {key}
  }

  function Do(o: MemberObject, s: Step): MemberObject {
    match s
    case Desire(labels, workID, annotations) => Synced(o, Sent(labels, workID), annotations)
    case EditLabel(key, value) => o.(labels := With(o.labels, key, value))
    case EditAnnotation(key, value) => o.(annotations := With(o.annotations, key, value))
  }

  function Run(o: MemberObject, steps: seq<Step>): MemberObject {
    if steps == [] then o else Do(Run(o, steps[..|steps| - 1]), steps[|steps| - 1])
  }

  /** The labels of the last synchronization. */
  function LastDesired(steps: seq<Step>): Option<Step> {
    if steps == [] then None
    else if steps[|steps| - 1].Desire? then Some(steps[|steps| - 1])
    else LastDesired(steps[..|steps| - 1])
  }

  /** After any run the records say what was last desired. */
  lemma {:induction false} RecordsAreCurrent(o: MemberObject, steps: seq<Step>)
    requires LastDesired(steps).Some?
    ensures var d, m := LastDesired(steps).value, Run(o, steps);
      && d.Desire?
      && m.managedLabels == (if Sent(d.labels, d.workID).Keys == {} then {""} else Sent(d.labels, d.workID).Keys)
      && m.managedAnnotations == d.annotations.Keys + RECORDS
  {
    hide MANAGED_ANNOTATION, MANAGED_LABELS, WORK_PERMANENT_ID_LABEL;
    if !steps[|steps| - 1].Desire? {
      RecordsAreCurrent(o, steps[..|steps| - 1]);
    }
  }

  /** One more synchronization, after any run with one before: what is desired now wins, the ID of the Work included;
      what was desired before and is no longer vanishes even if the member has changed it; and everything else that the
      member has stays. */
  lemma SyncExactly(
      o: MemberObject, steps: seq<Step>, labels: map<string, string>, workID: string, annotations: map<string, string>,
      k: string)
    requires LastDesired(steps).Some? && k != "" && k != MANAGED_ANNOTATION && k != MANAGED_LABELS
    ensures
      var d, before := LastDesired(steps).value, Run(o, steps);
      var after := Run(o, steps + [Desire(labels, workID, annotations)]);
      && d.Desire?
      && (k in after.labels <==>
           || k in labels || (k == WORK_PERMANENT_ID_LABEL && workID != "")
           || (k in before.labels && k !in d.labels && !(k == WORK_PERMANENT_ID_LABEL && d.workID != "")))
      && (k in after.labels ==>
           after.labels[k] ==
             if k == WORK_PERMANENT_ID_LABEL && workID != "" then workID
             else if k in labels then labels[k] else before.labels[k])
      && (k in after.annotations <==> k in annotations || (k in before.annotations && k !in d.annotations))
      && (k in after.annotations ==>
           after.annotations[k] == if k in annotations then annotations[k] else before.annotations[k])
  {
    RecordsAreCurrent(o, steps);
    assert (steps + [Desire(labels, workID, annotations)])[..|steps|] == steps;
    hide MANAGED_ANNOTATION, MANAGED_LABELS, WORK_PERMANENT_ID_LABEL;
  }

  predicate NeverDesired(steps: seq<Step>, k: string) {
    forall s <- steps :: s.Desire? ==>
      k !in s.labels && k !in s.annotations && !(k == WORK_PERMANENT_ID_LABEL && s.workID != "")
  }

  predicate NeverEdited(steps: seq<Step>, k: string) {
    forall s <- steps :: !s.Desire? ==> s.key != k
  }

  /** A label or annotation that the member has added survives any number of synchronizations that do not desire
      it, with its value. */
  lemma {:induction false} MemberKeysSurvive(o: MemberObject, steps: seq<Step>, k: string)
    requires k != "" && k !in RECORDS && k !in o.managedLabels && k !in o.managedAnnotations
    requires NeverDesired(steps, k) && NeverEdited(steps, k)
    ensures var m := Run(o, steps);
      && (k in m.labels <==> k in o.labels) && (k in m.labels ==> m.labels[k] == o.labels[k])
      && (k in m.annotations <==> k in o.annotations) && (k in m.annotations ==> m.annotations[k] == o.annotations[k])
      && k !in m.managedLabels && k !in m.managedAnnotations
  {
    if steps != [] {
      var rest, last := steps[..|steps| - 1], steps[|steps| - 1];
      assert last in steps && steps == rest + [last];
      hide MANAGED_ANNOTATION, MANAGED_LABELS, WORK_PERMANENT_ID_LABEL;
      MemberKeysSurvive(o, rest, k);
    }
  }
}
