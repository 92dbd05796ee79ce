/** The cluster resource model: grades of nodes, each in one of two representations (pkg/modeling/modeling.go). */
module ResourceSummaries {
  import opened GradeEntries
  import opened Wrappers

  ghost predicate NonDecreasing(nums: seq<int>) {
    forall i, j :: 0 <= i <= j < |nums| ==> nums[i] <= nums[j]
  }

  /** The greatest index whose value is at most `target`, or -1: on sorted bounds an index is at most the
      result exactly when its bound is met. */
  method SearchLastLessElement(nums: seq<int>, target: int) returns (index: int)
    ensures -1 <= index < |nums|
    ensures NonDecreasing(nums) ==> forall j :: 0 <= j < |nums| ==> (nums[j] <= target <==> j <= index)
  {
    var low, high := 0, |nums| - 1;
    while low <= high
      invariant 0 <= low <= high + 1 <= |nums|
      invariant low > 0 ==> low < |nums| && nums[low] <= target
      invariant NonDecreasing(nums) ==> forall j :: 0 <= j < low ==> nums[j] <= target
      invariant NonDecreasing(nums) ==> forall j :: high < j < |nums| ==> nums[j] > target
    {
      var mid := low + (high - low) / 2;
      if nums[mid] <= target {
        if mid == |nums| - 1 || nums[mid + 1] > target {
          return mid;
        }
        low := mid + 1;
      } else {
        high := mid - 1;
      }
    }
    return -1;
  }

  /** The node reaches the minimum of grade `g` in every modelled resource. */
  predicate Reaches(sortings: seq<seq<int>>, v: seq<int>, g: nat)
    requires |v| == |sortings| && forall s <- sortings :: g < |s|
  {
    forall i :: 0 <= i < |sortings| ==> sortings[i][g] <= v[i]
  }

  /** The same for the first `n` resources only. */
  ghost predicate ReachesFirst(sortings: seq<seq<int>>, v: seq<int>, g: nat, n: nat)
    requires |v| == |sortings| && forall s <- sortings :: g < |s|
  {
    forall i :: 0 <= i < n && i < |sortings| ==> sortings[i][g] <= v[i]
  }

  lemma OneMoreResource(sortings: seq<seq<int>>, v: seq<int>, g: nat, n: nat)
    requires |v| == |sortings| && n < |sortings| && forall s <- sortings :: g < |s|
    ensures ReachesFirst(sortings, v, g, n + 1) <==> ReachesFirst(sortings, v, g, n) && sortings[n][g] <= v[n]
  {
  }

  /** The bounds of `grades` grades, resource by resource, each list sorted. */
  ghost predicate ValidSortings(sortings: seq<seq<int>>, grades: nat) {
    forall s <- sortings :: |s| == grades && NonDecreasing(s)
  }

  /** The greatest grade among the first `top` that is reached in all resources at once, or -1. */
  ghost function GreatestGrade(sortings: seq<seq<int>>, v: seq<int>, top: nat): (g: int)
    requires |v| == |sortings| && forall s <- sortings :: top <= |s|
    ensures -1 <= g < top && (g >= 0 ==> Reaches(sortings, v, g))
    ensures forall h :: g < h < top ==> !Reaches(sortings, v, h)
  {
    if top == 0 then -1
    else if Reaches(sortings, v, top - 1) then top - 1
    else GreatestGrade(sortings, v, top - 1)
  }

  lemma GreatestIs(sortings: seq<seq<int>>, v: seq<int>, top: nat, index: int)
    requires |v| == |sortings| && forall s <- sortings :: top <= |s|
    requires -1 <= index < top
    requires forall g :: 0 <= g < top ==> (g <= index <==> ReachesFirst(sortings, v, g, |sortings|))
    ensures index == GreatestGrade(sortings, v, top)
  {
    var g := GreatestGrade(sortings, v, top);
    if g >= 0 {
      assert ReachesFirst(sortings, v, g, |sortings|);
    }
    if index >= 0 {
      assert ReachesFirst(sortings, v, index, |sortings|);
      assert Reaches(sortings, v, index);
    }
  }

  /** On sorted bounds the grade is a threshold: exactly the grades up to it are reached. */
  lemma GradeIsThreshold(sortings: seq<seq<int>>, v: seq<int>, top: nat, g: nat)
    requires |v| == |sortings| && ValidSortings(sortings, top) && g < top
    ensures Reaches(sortings, v, g) <==> g <= GreatestGrade(sortings, v, top)
  {
    var greatest := GreatestGrade(sortings, v, top);
    if g <= greatest {
      forall i | 0 <= i < |sortings|
        ensures sortings[i][g] <= v[i]
      {
        assert sortings[i] in sortings;
        assert sortings[i][g] <= sortings[i][greatest];
      }
    }
  }

  /** The state of one grade: nodes by compared vector, and the grade's counter. */
  datatype Grade = Grade(counts: map<seq<int>, int>, quantity: int)

  /** What adding a node means: its own grade counts it, and no other grade changes. */
  ghost function Step(
      sortings: seq<seq<int>>, names: seq<string>, grades: seq<Grade>, crn: ClusterResourceNode)
    : (after: seq<Grade>)
    requires |names| == |sortings| && ValidSortings(sortings, |grades|)
    ensures |after| == |grades|
  {
    var v := Vector(names, crn);
    var g := GreatestGrade(sortings, v, |grades|);
    if g == -1 then grades
    else grades[g := Counted(names, grades[g], crn)]
  }

  /** The grade of a node, read off its list: the bounds up to it are met by the quantities listed, a missing one
      counting as zero. */
  lemma GradeMeans(sortings: seq<seq<int>>, names: seq<string>, crn: ClusterResourceNode, top: nat, g: nat)
    requires |names| == |sortings| && ValidSortings(sortings, top) && g < top
    ensures g <= GreatestGrade(sortings, Vector(names, crn), top) <==>
      forall i :: 0 <= i < |sortings| ==>
        sortings[i][g] <= if names[i] in crn.resourceList then crn.resourceList[names[i]] else 0
  {
    GradeIsThreshold(sortings, Vector(names, crn), top, g);
    assert forall i :: 0 <= i < |names| ==>
      Vector(names, crn)[i] == if names[i] in crn.resourceList then crn.resourceList[names[i]] else 0;
  }

  /** What adding a node does to each grade, in the same terms: the grade whose bounds it meets, but not those of the
      next, grows by its quantity, in its counter and under the quantities listed; nothing else changes. */
  lemma StepMeans(
      sortings: seq<seq<int>>, names: seq<string>, grades: seq<Grade>, crn: ClusterResourceNode, g: nat)
    requires |names| == |sortings| && ValidSortings(sortings, |grades|) && g < |grades|
    ensures
      var amounts := seq(|names|, i requires 0 <= i < |names| =>
        if names[i] in crn.resourceList then crn.resourceList[names[i]] else 0);
      var own :=
        && (forall i :: 0 <= i < |sortings| ==> sortings[i][g] <= amounts[i])
        && (g + 1 < |grades| ==> exists i :: 0 <= i < |sortings| && sortings[i][g + 1] > amounts[i]);
      var before, after := grades[g], Step(sortings, names, grades, crn)[g];
      if own then
        && after.quantity == before.quantity + crn.quantity
        && after.counts.Keys == before.counts.Keys + {amounts}
        && after.counts[amounts] == (if amounts in before.counts then before.counts[amounts] else 0) + crn.quantity
        && (forall v <- before.counts :: v != amounts ==> after.counts[v] == before.counts[v])
      else after == before
  {
    var amounts := seq(|names|, i requires 0 <= i < |names| =>
      if names[i] in crn.resourceList then crn.resourceList[names[i]] else 0);
    assert Vector(names, crn) == amounts;
    GradeMeans(sortings, names, crn, |grades|, g);
    if g + 1 < |grades| {
      GradeMeans(sortings, names, crn, |grades|, g + 1);
    }
  }

  function Counted(names: seq<string>, grade: Grade, crn: ClusterResourceNode): Grade {
    Grade(Bump(grade.counts, Vector(names, crn), crn.quantity), grade.quantity + crn.quantity)
  }

  /** An entry of the tree; `value` is what `Put` stored, and goes stale when the key is rewritten. */
  datatype Entry = Entry(key: ClusterResourceNode, value: int)

  function Keys(tree: seq<Entry>): (keys: seq<ClusterResourceNode>)
    ensures |keys| == |tree|
  {
    seq(|tree|, i requires 0 <= i < |tree| => tree[i].key)
  }

  /** The tree library, by contract: entries in comparator order. `GetNode` finds the equal entry. */
  method GetNode(names: seq<string>, tree: seq<Entry>, key: ClusterResourceNode) returns (found: Option<nat>)
    ensures found.Some? ==> found.value < |tree| && Order(names, tree[found.value].key, key) == 0
    ensures found.None? ==> forall i :: 0 <= i < |tree| ==> Order(names, tree[i].key, key) != 0
  {
    for i := 0 to |tree|
      invariant forall j :: 0 <= j < i ==> Order(names, tree[j].key, key) != 0
    {
      if Order(names, tree[i].key, key) == 0 {
        return Some(i);
      }
    }
    return None;
  }

  /** `Put` of an absent key inserts it in comparator order. */
  method Put(names: seq<string>, tree: seq<Entry>, key: ClusterResourceNode, value: int) returns (after: seq<Entry>)
    requires Sorted(names, Keys(tree))
    requires forall i :: 0 <= i < |tree| ==> Order(names, tree[i].key, key) != 0
    ensures Keys(after) == Merge(names, Keys(tree), key)
  {
    ghost var keys := Keys(tree);
    var i := 0;
    while i < |tree| && Order(names, tree[i].key, key) == -1
      invariant 0 <= i <= |tree|
      invariant forall j :: 0 <= j < i ==> Order(names, tree[j].key, key) == -1
    {
      i := i + 1;
    }
    after := tree[..i] + [Entry(key, value)] + tree[i..];
    assert keys == keys[..i] + keys[i..];
    MergeAfter(names, keys[..i], keys[i..], key);
    if i < |tree| {
      CompareBounds(Vector(names, keys[i]), Vector(names, key));
      assert Merge(names, keys[i..], key) == [key] + keys[i..];
    }
    assert Keys(after) == keys[..i] + ([key] + keys[i..]);
  }

  class ResourceModels {
    var quantity: int
    var linkedlist: Option<seq<ClusterResourceNode>>
    var redblackTree: Option<seq<Entry>>

    constructor ()
      ensures Empty()
    {
      quantity, linkedlist, redblackTree := 0, None, None;
    }

    predicate Empty()
      reads this
    {
      quantity == 0 && linkedlist.None? && redblackTree.None?
    }

    /** The nodes of the live form. In the tree they are the keys. */
    function Nodes(): seq<ClusterResourceNode>
      reads this
    {
      if linkedlist.Some? then linkedlist.value
      else if redblackTree.Some? then Keys(redblackTree.value)
      else []
    }

    /** One live form: a list of at most six nodes, or a tree of at least six; sorted either way, and the
        counter is the sum of the entries. */
    ghost predicate Valid(names: seq<string>)
      reads this
    {
      && (linkedlist.Some? ==> redblackTree.None? && |linkedlist.value| <= 6)
      && (redblackTree.Some? ==> |redblackTree.value| >= 6)
      && Sorted(names, Nodes())
      && quantity == Total(Nodes())
    }

    ghost function Value(names: seq<string>): Grade
      reads this
    {
      Grade(Counts(names, Nodes()), quantity)
    }

    /** `GetNodeNumFromModel`. */
    method NodeNum() returns (n: nat)
      ensures (linkedlist.None? || redblackTree.None?) ==> n == |Nodes()|
    {
      if linkedlist.Some? && redblackTree.None? {
        return |linkedlist.value|;
      } else if linkedlist.None? && redblackTree.Some? {
        return |redblackTree.value|;
      }
      return 0;
    }

    /** The list branch of `AddToResourceSummary`. */
    method AddToList(names: seq<string>, crn: ClusterResourceNode)
      requires linkedlist.Some? || redblackTree.None?
      modifies this`linkedlist
      ensures linkedlist == Some(Merge(names, if old(linkedlist).Some? then old(linkedlist).value else [], crn))
    {
      var root := if linkedlist.Some? then linkedlist.value else [];
      ghost var before := root;
      var found := false;
      var element := 0;
      while element < |root| && !found
        invariant 0 <= element <= |root|
        invariant !found ==> root == before && forall j :: 0 <= j < element ==> Order(names, root[j], crn) == -1
        invariant found ==> root == Merge(names, before, crn)
        decreases !found, |root| - element
      {
        var order := Order(names, root[element], crn);
        CompareBounds(Vector(names, root[element]), Vector(names, crn));
        MergeAt(names, before, element, crn);
        if order == 0 {
          root := root[element := root[element].(quantity := root[element].quantity + crn.quantity)];
          found := true;
        } else if order == 1 {
          root := root[..element] + [crn] + root[element..];
          found := true;
        } else {
          element := element + 1;
        }
      }
      if !found {
        assert before + [] == before;
        MergeAfter(names, before, [], crn);
        root := root + [crn];
      }
      linkedlist := Some(root);
    }

    /** Adds a node to whichever form is live. */
    method Add(names: seq<string>, crn: ClusterResourceNode)
      requires Valid(names)
      modifies this
      ensures Valid(names)
      ensures Value(names) == Counted(names, old(Value(names)), crn)
    {
      ghost var nodes := Nodes();
      MergeSorted(names, nodes, crn);
      MergeTotal(names, nodes, crn);
      MergeCounts(names, nodes, crn);
      hide Merge, Counts, Order, Bump;
      var num := NodeNum();
      if num <= 5 {
        AddToList(names, crn);
      } else {
        AddToTree(names, crn);
      }
      quantity := quantity + crn.quantity;
    }

    /** `llConvertToRbt`: nothing is lost, and the order is kept. */
    method ConvertToTree(names: seq<string>) returns (root: seq<Entry>)
      requires linkedlist.Some? && Sorted(names, linkedlist.value)
      ensures Keys(root) == linkedlist.value
    {
      var elements := linkedlist.value;
      root := [];
      for i := 0 to |elements|
        invariant Keys(root) == elements[..i]
      {
        forall j | 0 <= j < i
          ensures Order(names, root[j].key, elements[i]) == -1
        {
          assert root[j].key == Keys(root)[j] == elements[j];
        }
        assert elements[..i] + [] == elements[..i];
        MergeAfter(names, elements[..i], [], elements[i]);
        root := Put(names, root, elements[i], elements[i].quantity);
        assert elements[..i + 1] == elements[..i] + [elements[i]];
      }
    }

    /** The tree branch of `AddToResourceSummary`. */
    method AddToTree(names: seq<string>, crn: ClusterResourceNode)
      requires Valid(names) && |Nodes()| >= 6
      modifies this`linkedlist, this`redblackTree
      ensures linkedlist.None? && redblackTree.Some? && Nodes() == Merge(names, old(Nodes()), crn)
    {
      ghost var before := Nodes();
      var root: seq<Entry>;
      if redblackTree.None? {
        root := ConvertToTree(names);
        linkedlist := None;
      } else {
        root := redblackTree.value;
      }
      assert linkedlist.None? && Keys(root) == before;
      var tmpNode := GetNode(names, root, crn);
      if tmpNode.Some? {
        var i := tmpNode.value;
        var node := root[i].key;
        MergeInto(names, before, i, crn);
        root := root[i := root[i].(key := node.(quantity := node.quantity + crn.quantity))];
        assert Keys(root) == before[i := node.(quantity := node.quantity + crn.quantity)];
      } else {
        root := Put(names, root, crn, crn.quantity);
      }
      redblackTree := Some(root);
    }
  }

  lemma MergeInto(names: seq<string>, nodes: seq<ClusterResourceNode>, i: nat, crn: ClusterResourceNode)
    requires Sorted(names, nodes) && i < |nodes| && Order(names, nodes[i], crn) == 0
    ensures Merge(names, nodes, crn) == nodes[i := nodes[i].(quantity := nodes[i].quantity + crn.quantity)]
  {
    CompareEqual(Vector(names, nodes[i]), Vector(names, crn));
    MergeAt(names, nodes, i, crn);
  }

  class ResourceSummary {
    const RMs: seq<ResourceModels>
    const modelSortings: seq<seq<int>>
    const names: seq<string>

    ghost predicate Valid()
      reads RMs
    {
      && |names| == |modelSortings| > 0
      && ValidSortings(modelSortings, |RMs|)
      && (forall i, j :: 0 <= i < j < |RMs| ==> RMs[i] != RMs[j])
      && (forall i :: 0 <= i < |RMs| ==> RMs[i].Valid(names))
    }

    ghost function Grades(): (grades: seq<Grade>)
      reads RMs
      ensures |grades| == |RMs|
    {
      seq(|RMs|, i requires 0 <= i < |RMs| reads RMs => RMs[i].Value(names))
    }

    constructor (RMs: seq<ResourceModels>, modelSortings: seq<seq<int>>, names: seq<string>)
      ensures this.RMs == RMs && this.modelSortings == modelSortings && this.names == names
    {
      this.RMs, this.modelSortings, this.names := RMs, modelSortings, names;
    }

    /** The minimum over the resources is the greatest grade that all of them reach. */
    method GetIndex(crn: ClusterResourceNode) returns (index: int)
      requires Valid()
      ensures index == GreatestGrade(modelSortings, Vector(names, crn), |RMs|)
    {
      ghost var v := Vector(names, crn);
      index := SearchLastLessElement(modelSortings[0], Amount(crn, names[0]));
      for i := 1 to |names|
        invariant -1 <= index < |RMs|
        invariant forall g :: 0 <= g < |RMs| ==> (g <= index <==> ReachesFirst(modelSortings, v, g, i))
      {
        var tmpIndex := SearchLastLessElement(modelSortings[i], Amount(crn, names[i]));
        ghost var next := i + 1;
        forall g | 0 <= g < |RMs|
          ensures g <= index && g <= tmpIndex <==> ReachesFirst(modelSortings, v, g, next)
        {
          OneMoreResource(modelSortings, v, g, i);
        }
        if tmpIndex < index {
          index := tmpIndex;
        }
      }
      assert forall g :: 0 <= g < |RMs| ==> (g <= index <==> ReachesFirst(modelSortings, v, g, |names|));
      GreatestIs(modelSortings, v, |RMs|, index);
    }

    method AddToResourceSummary(crn: ClusterResourceNode)
      requires Valid()
      modifies RMs
      ensures Valid()
      ensures Grades() == Step(modelSortings, names, old(Grades()), crn)
    {
      var index := GetIndex(crn);
      if index == -1 {
        return;
      }
      AddToGrade(index, crn);
    }

    /** Only one grade changes. */
    method AddToGrade(index: nat, crn: ClusterResourceNode)
      requires Valid() && index < |RMs|
      modifies RMs[index]
      ensures Valid()
      ensures Grades() == old(Grades())[index := Counted(names, old(Grades())[index], crn)]
    {
      RMs[index].Add(names, crn);
      OthersKept(index);
    }

    /** The grades are distinct objects. */
    twostate lemma OthersKept(index: nat)
      requires old(Valid()) && index < |RMs| && RMs[index].Valid(names)
      requires forall m :: m in RMs && m != RMs[index] ==> unchanged(m)
      ensures Valid()
      ensures Grades() == old(Grades())[index := RMs[index].Value(names)]
    {
      hide ResourceModels.Valid, ResourceModels.Value;
      forall i | 0 <= i < |RMs| && i != index
        ensures RMs[i].Valid(names) && RMs[i].Value(names) == old(RMs[i].Value(names))
      {
        assert RMs[i] in RMs && RMs[i] != RMs[index];
        assert unchanged(RMs[i]);
      }
    }

    /** Adds the nodes of a cluster one by one. */
    method AddAll(crns: seq<ClusterResourceNode>)
      requires Valid()
      modifies RMs
      ensures Valid()
      ensures Grades() == Steps(modelSortings, names, old(Grades()), crns)
    {
      ghost var start := Grades();
      for i := 0 to |crns|
        invariant Valid()
        invariant Grades() == Steps(modelSortings, names, start, crns[..i])
      {
        AddToResourceSummary(crns[i]);
        assert crns[..i + 1][..i] == crns[..i];
      }
      assert crns[..|crns|] == crns;
    }
  }

  ghost function Steps(
      sortings: seq<seq<int>>, names: seq<string>, grades: seq<Grade>, crns: seq<ClusterResourceNode>)
    : (after: seq<Grade>)
    requires |names| == |sortings| && ValidSortings(sortings, |grades|)
    ensures |after| == |grades|
  {
    if crns == [] then grades
    else Step(sortings, names, Steps(sortings, names, grades, crns[..|crns| - 1]), crns[|crns| - 1])
  }

  /** The node is one of grade `g` and, when `v` is given, has that vector. */
  ghost predicate Belongs(
      sortings: seq<seq<int>>, names: seq<string>, top: nat, crn: ClusterResourceNode, g: int, v: Option<seq<int>>)
    requires |names| == |sortings| && ValidSortings(sortings, top)
  {
    && GreatestGrade(sortings, Vector(names, crn), top) == g
    && (v == None || v == Some(Vector(names, crn)))
  }

  /** How many nodes belong to grade `g`, or to one vector of it. */
  ghost function Number(
      sortings: seq<seq<int>>, names: seq<string>, top: nat, crns: seq<ClusterResourceNode>, g: int, v: Option<seq<int>>)
    : int
    requires |names| == |sortings| && ValidSortings(sortings, top)
  {
    if crns == [] then 0
    else
      var last := crns[|crns| - 1];
      Number(sortings, names, top, crns[..|crns| - 1], g, v)
      + (if Belongs(sortings, names, top, last, g, v) then last.quantity else 0)
  }

  ghost predicate Occurs(
      sortings: seq<seq<int>>, names: seq<string>, top: nat, crns: seq<ClusterResourceNode>, g: int, v: seq<int>)
    requires |names| == |sortings| && ValidSortings(sortings, top)
  {
    exists crn :: crn in crns && Belongs(sortings, names, top, crn, g, Some(v))
  }

  /** What a run of additions to an empty summary leaves in grade `g` under vector `v`: an entry exactly when
      some added node has this grade and vector, with the number of such nodes. */
  lemma {:induction false} RunCountsVector(
      sortings: seq<seq<int>>, names: seq<string>, grades: seq<Grade>, crns: seq<ClusterResourceNode>,
      g: nat, v: seq<int>)
    requires |names| == |sortings| && ValidSortings(sortings, |grades|) && g < |grades|
    requires forall i :: 0 <= i < |grades| ==> grades[i] == Grade(map[], 0)
    ensures var after := Steps(sortings, names, grades, crns)[g];
      && (v in after.counts <==> Occurs(sortings, names, |grades|, crns, g, v))
      && (if v in after.counts then after.counts[v] else 0) == Number(sortings, names, |grades|, crns, g, Some(v))
    decreases |crns|
  {
    if crns != [] {
      var front, last := crns[..|crns| - 1], crns[|crns| - 1];
      RunCountsVector(sortings, names, grades, front, g, v);
      assert crns == front + [last];
      assert Occurs(sortings, names, |grades|, crns, g, v) <==>
        Occurs(sortings, names, |grades|, front, g, v) || Belongs(sortings, names, |grades|, last, g, Some(v));
    }
  }

  /** And the counter of a grade is the number of all its nodes; the nodes without a grade are not counted. */
  lemma {:induction false} RunCountsGrade(
      sortings: seq<seq<int>>, names: seq<string>, grades: seq<Grade>, crns: seq<ClusterResourceNode>, g: nat)
    requires |names| == |sortings| && ValidSortings(sortings, |grades|) && g < |grades|
    requires forall i :: 0 <= i < |grades| ==> grades[i] == Grade(map[], 0)
    ensures Steps(sortings, names, grades, crns)[g].quantity == Number(sortings, names, |grades|, crns, g, None)
    decreases |crns|
  {
    if crns != [] {
      RunCountsGrade(sortings, names, grades, crns[..|crns| - 1], g);
    }
  }

  datatype Range = Range(name: string, min: int)

  datatype ResourceModel = ResourceModel(ranges: seq<Range>)

  function RangeNames(model: ResourceModel): (names: seq<string>)
    ensures |names| == |model.ranges| && forall i :: 0 <= i < |names| ==> names[i] == model.ranges[i].name
  {
    seq(|model.ranges|, i requires 0 <= i < |model.ranges| => model.ranges[i].name)
  }

  /** The minima of the first `n` ranges; a repeated name keeps its last one. */
  function Minima(model: ResourceModel, n: nat): map<string, int>
    requires n <= |model.ranges|
  {
    if n == 0 then map[] else Minima(model, n - 1)[model.ranges[n - 1].name := model.ranges[n - 1].min]
  }

  function Minimum(model: ResourceModel, name: string): int {
    var minima := Minima(model, |model.ranges|);
    if name in minima then minima[name] else 0
  }

  /** The last range of a name gives the minimum, and a name without a range has none. */
  lemma MinimumMeans(model: ResourceModel, name: string)
    ensures forall i | 0 <= i < |model.ranges| && model.ranges[i].name == name ::
      (forall j :: i < j < |model.ranges| ==> model.ranges[j].name != name) ==> Minimum(model, name) == model.ranges[i].min
    ensures (forall i :: 0 <= i < |model.ranges| ==> model.ranges[i].name != name) ==> Minimum(model, name) == 0
  {
    MinimaMean(model, name, |model.ranges|);
  }

  lemma {:induction false} MinimaMean(model: ResourceModel, name: string, n: nat)
    requires n <= |model.ranges|
    ensures name in Minima(model, n) <==> exists i :: 0 <= i < n && model.ranges[i].name == name
    ensures forall i | 0 <= i < n && model.ranges[i].name == name ::
      (forall j :: i < j < n ==> model.ranges[j].name != name) ==> Minima(model, n)[name] == model.ranges[i].min
  {
    if n > 0 {
      MinimaMean(model, name, n - 1);
    }
  }

  /** All grades list the same resources, each once. */
  predicate Uniform(models: seq<ResourceModel>) {
    && (forall m <- models :: RangeNames(m) == RangeNames(models[0]))
    && (forall m <- models :: |Minima(m, |m.ranges|)| == |m.ranges|)
  }

  /** The names, taken from the ranges until there are as many as ranges, and the minima of every model. */
  method ReadModels(models: seq<ResourceModel>) returns (rsName: seq<string>, rsList: seq<map<string, int>>)
    ensures |rsList| == |models|
    ensures forall g :: 0 <= g < |models| ==> rsList[g] == Minima(models[g], |models[g].ranges|)
    ensures Uniform(models) ==> rsName == if models == [] then [] else RangeNames(models[0])
  {
    rsName, rsList := [], [];
    for m := 0 to |models|
      invariant |rsList| == m
      invariant forall g :: 0 <= g < m ==> rsList[g] == Minima(models[g], |models[g].ranges|)
      invariant Uniform(models) ==> rsName == if m == 0 then [] else RangeNames(models[0])
    {
      var ranges := models[m].ranges;
      var tmp := map[];
      assert models[m] in models;
      for i := 0 to |ranges|
        invariant tmp == Minima(models[m], i)
        invariant Uniform(models) ==> rsName == if m == 0 then RangeNames(models[0])[..i] else RangeNames(models[0])
      {
        if |rsName| != |ranges| {
          rsName := rsName + [ranges[i].name];
        }
        tmp := tmp[ranges[i].name := ranges[i].min];
      }
      rsList := rsList + [tmp];
    }
  }

  method EmptyGrades(n: nat) returns (rms: seq<ResourceModels>)
    ensures |rms| == n && fresh(rms)
    ensures forall i, j :: 0 <= i < j < n ==> rms[i] != rms[j]
    ensures forall i :: 0 <= i < n ==> rms[i].Empty()
  {
    rms := [];
    for g := 0 to n
      invariant |rms| == g && fresh(rms)
      invariant forall i, j :: 0 <= i < j < g ==> rms[i] != rms[j]
      invariant forall i :: 0 <= i < g ==> rms[i].Empty()
    {
      var rm := new ResourceModels();
      rms := rms + [rm];
    }
  }

  /** The bounds, resource by resource. */
  method SortingsOf(rsName: seq<string>, rsList: seq<map<string, int>>) returns (sortings: seq<seq<int>>)
    ensures |sortings| == |rsName|
    ensures forall i :: 0 <= i < |rsName| ==> sortings[i] == Column(rsList, rsName[i])
  {
    sortings := seq(|rsName|, _ => []);
    for index := 0 to |rsList|
      invariant |sortings| == |rsName|
      invariant forall i :: 0 <= i < |rsName| ==> sortings[i] == Column(rsList[..index], rsName[i])
    {
      ghost var before := sortings;
      for i := 0 to |rsName|
        invariant |sortings| == |rsName|
        invariant forall j :: i <= j < |rsName| ==> sortings[j] == before[j]
        invariant forall j :: 0 <= j < i ==> sortings[j] == Column(rsList[..index + 1], rsName[j])
      {
        var name := rsName[i];
        sortings := sortings[i := sortings[i] + [if name in rsList[index] then rsList[index][name] else 0]];
      }
    }
    assert rsList[..|rsList|] == rsList;
  }

  function Column(rsList: seq<map<string, int>>, name: string): seq<int> {
    seq(|rsList|, g requires 0 <= g < |rsList| => if name in rsList[g] then rsList[g][name] else 0)
  }

  /** Builds an empty summary with one grade a model. Uniform models are never refused, and the bounds are their
      minima, resource by resource. */
  method InitSummary(models: seq<ResourceModel>) returns (r: Option<ResourceSummary>)
    ensures Uniform(models) && models != [] ==> r.Some? && r.value.names == RangeNames(models[0])
    ensures r.Some? ==> fresh(r.value) && fresh(r.value.RMs) && |r.value.RMs| == |models|
    ensures r.Some? ==> |r.value.modelSortings| == |r.value.names|
    ensures r.Some? ==> forall i :: 0 <= i < |r.value.names| ==>
      && |r.value.modelSortings[i]| == |models|
      && forall g :: 0 <= g < |models| ==> r.value.modelSortings[i][g] == Minimum(models[g], r.value.names[i])
    ensures r.Some? && r.value.names != [] && (forall s <- r.value.modelSortings :: NonDecreasing(s)) ==>
      r.value.Valid()
    ensures r.Some? ==> forall g :: 0 <= g < |models| ==> r.value.Grades()[g] == Grade(map[], 0)
  {
    var rsName, rsList := ReadModels(models);
    if |rsName| != 0 && |rsList| != 0 && |rsName| != |rsList[0]| {
      assert models[0] in models;
      return None;
    }
    var rms := EmptyGrades(|rsList|);
    var modelSortings := SortingsOf(rsName, rsList);
    var rs := new ResourceSummary(rms, modelSortings, rsName);
    return Some(rs);
  }
}
