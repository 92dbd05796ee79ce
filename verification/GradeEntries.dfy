/** Nodes of one grade, merged and kept in order (pkg/modeling/modeling.go). */
module GradeEntries {
  /** A node without modelling: its resources, and how many nodes have exactly these. */
  datatype ClusterResourceNode = ClusterResourceNode(quantity: int, resourceList: map<string, int>)

  /** A missing resource reads as the zero quantity. */
  function Amount(crn: ClusterResourceNode, name: string): int {
    if name in crn.resourceList then crn.resourceList[name] else 0
  }

  /** The part of a node that the comparator sees. */
  function Vector(names: seq<string>, crn: ClusterResourceNode): (v: seq<int>)
    ensures |v| == |names|
  {
    seq(|names|, i requires 0 <= i < |names| => Amount(crn, names[i]))
  }

  /** Lexicographic comparison: -1, 0 or 1. */
  function Compare(a: seq<int>, b: seq<int>): int
    requires |a| == |b|
  {
    if a == [] then 0
    else if a[0] < b[0] then -1
    else if a[0] > b[0] then 1
    else Compare(a[1..], b[1..])
  }

  lemma {:induction false} CompareEqual(a: seq<int>, b: seq<int>)
    requires |a| == |b|
    ensures Compare(a, b) == 0 <==> a == b
  {
    if a != [] {
      CompareEqual(a[1..], b[1..]);
      assert a == [a[0]] + a[1..] && b == [b[0]] + b[1..];
    }
  }

  lemma {:induction false} CompareTransitive(a: seq<int>, b: seq<int>, c: seq<int>)
    requires |a| == |b| == |c| && Compare(a, b) == -1 && Compare(b, c) == -1
    ensures Compare(a, c) == -1
  {
    if a != [] && a[0] == b[0] == c[0] {
      CompareTransitive(a[1..], b[1..], c[1..]);
    }
  }

  lemma {:induction false} CompareSwap(a: seq<int>, b: seq<int>)
    requires |a| == |b|
    ensures Compare(b, a) == -Compare(a, b)
  {
    if a != [] {
      CompareSwap(a[1..], b[1..]);
    }
  }

  function Order(names: seq<string>, a: ClusterResourceNode, b: ClusterResourceNode): int {
    Compare(Vector(names, a), Vector(names, b))
  }

  ghost predicate Sorted(names: seq<string>, nodes: seq<ClusterResourceNode>) {
    forall i, j :: 0 <= i < j < |nodes| ==> Order(names, nodes[i], nodes[j]) == -1
  }

  /** Adds a node in order: to the equal node when there is one, before the first greater one otherwise. */
  function Merge(names: seq<string>, nodes: seq<ClusterResourceNode>, crn: ClusterResourceNode)
    : (merged: seq<ClusterResourceNode>)
  {
    if nodes == [] then [crn]
    else
      var order := Order(names, nodes[0], crn);
      if order == 0 then [nodes[0].(quantity := nodes[0].quantity + crn.quantity)] + nodes[1..]
      else if order == 1 then [crn] + nodes
      else [nodes[0]] + Merge(names, nodes[1..], crn)
  }

  /** How many nodes there are of each compared vector. */
  function Counts(names: seq<string>, nodes: seq<ClusterResourceNode>): map<seq<int>, int> {
    if nodes == [] then map[]
    else Counts(names, nodes[1..])[Vector(names, nodes[0]) := nodes[0].quantity]
  }

  function Total(nodes: seq<ClusterResourceNode>): int {
    if nodes == [] then 0 else nodes[0].quantity + Total(nodes[1..])
  }

  function Bump(counts: map<seq<int>, int>, v: seq<int>, quantity: int): map<seq<int>, int> {
    counts[v := (if v in counts then counts[v] else 0) + quantity]
  }

  lemma BumpElsewhere(counts: map<seq<int>, int>, u: seq<int>, quantity: int, v: seq<int>, more: int)
    requires u != v
    ensures Bump(counts, v, more)[u := quantity] == Bump(counts[u := quantity], v, more)
    ensures v in counts[u := quantity] <==> v in counts
  {
  }

  lemma {:induction false} CountsDomain(names: seq<string>, nodes: seq<ClusterResourceNode>)
    ensures Counts(names, nodes).Keys == set i | 0 <= i < |nodes| :: Vector(names, nodes[i])
  {
    if nodes != [] {
      CountsDomain(names, nodes[1..]);
      assert forall i :: 0 < i < |nodes| ==> nodes[i] == nodes[1..][i - 1];
    }
  }

  lemma {:induction false} MergeTotal(names: seq<string>, nodes: seq<ClusterResourceNode>, crn: ClusterResourceNode)
    ensures Total(Merge(names, nodes, crn)) == Total(nodes) + crn.quantity
  {
    if nodes != [] {
      MergeTotal(names, nodes[1..], crn);
      var merged := Merge(names, nodes, crn);
      assert Order(names, nodes[0], crn) == 0 ==> merged[1..] == nodes[1..];
      assert Order(names, nodes[0], crn) == 1 ==> merged[1..] == nodes;
    }
  }

  /** Merging counts the node, whatever the position it finds. */
  lemma {:induction false} MergeCounts(names: seq<string>, nodes: seq<ClusterResourceNode>, crn: ClusterResourceNode)
    requires Sorted(names, nodes)
    ensures Counts(names, Merge(names, nodes, crn)) == Bump(Counts(names, nodes), Vector(names, crn), crn.quantity)
    ensures |Merge(names, nodes, crn)| == |nodes| + (if Vector(names, crn) in Counts(names, nodes) then 0 else 1)
  {
    var v, merged := Vector(names, crn), Merge(names, nodes, crn);
    if nodes != [] {
      var first, rest := Vector(names, nodes[0]), Counts(names, nodes[1..]);
      CompareEqual(first, v);
      if Order(names, nodes[0], crn) == 0 {
        assert merged[1..] == nodes[1..] && Vector(names, merged[0]) == v;
        assert Counts(names, merged) == rest[v := nodes[0].quantity + crn.quantity];
      } else if Order(names, nodes[0], crn) == 1 {
        assert merged[1..] == nodes;
        Above(names, nodes, crn);
      } else {
        assert merged[1..] == Merge(names, nodes[1..], crn);
        MergeCounts(names, nodes[1..], crn);
        BumpElsewhere(rest, first, nodes[0].quantity, v, crn.quantity);
      }
    }
  }

  /** A vector below the first node occurs nowhere. */
  lemma Above(names: seq<string>, nodes: seq<ClusterResourceNode>, crn: ClusterResourceNode)
    requires Sorted(names, nodes) && nodes != [] && Order(names, nodes[0], crn) == 1
    ensures forall i :: 0 <= i < |nodes| ==> Order(names, crn, nodes[i]) == -1
    ensures Vector(names, crn) !in Counts(names, nodes)
  {
    CountsDomain(names, nodes);
    forall i | 0 <= i < |nodes|
      ensures Order(names, crn, nodes[i]) == -1 && Vector(names, nodes[i]) != Vector(names, crn)
    {
      var v := Vector(names, crn);
      CompareSwap(Vector(names, nodes[0]), v);
      if i > 0 {
        CompareTransitive(v, Vector(names, nodes[0]), Vector(names, nodes[i]));
      }
      CompareEqual(v, Vector(names, nodes[i]));
    }
  }

  lemma {:induction false} MergeSorted(names: seq<string>, nodes: seq<ClusterResourceNode>, crn: ClusterResourceNode)
    requires Sorted(names, nodes)
    ensures Sorted(names, Merge(names, nodes, crn))
  {
    var merged := Merge(names, nodes, crn);
    if nodes != [] {
      if Order(names, nodes[0], crn) == 0 {
        assert Vector(names, merged[0]) == Vector(names, nodes[0]);
      } else if Order(names, nodes[0], crn) == 1 {
        Above(names, nodes, crn);
      } else {
        CompareBounds(Vector(names, nodes[0]), Vector(names, crn));
        MergeSorted(names, nodes[1..], crn);
        MergeMembers(names, nodes[1..], crn);
        forall j | 0 < j < |merged|
          ensures Order(names, merged[0], merged[j]) == -1
        {
          assert merged[j] == Merge(names, nodes[1..], crn)[j - 1];
        }
      }
    }
  }

  lemma {:induction false} CompareBounds(a: seq<int>, b: seq<int>)
    requires |a| == |b|
    ensures -1 <= Compare(a, b) <= 1
  {
    if a != [] {
      CompareBounds(a[1..], b[1..]);
    }
  }

  /** Merging brings in no vector but the new one. */
  lemma {:induction false} MergeMembers(names: seq<string>, nodes: seq<ClusterResourceNode>, crn: ClusterResourceNode)
    ensures forall j :: 0 <= j < |Merge(names, nodes, crn)| ==>
      || Vector(names, Merge(names, nodes, crn)[j]) == Vector(names, crn)
      || exists i :: 0 <= i < |nodes| && Vector(names, Merge(names, nodes, crn)[j]) == Vector(names, nodes[i])
  {
    var merged := Merge(names, nodes, crn);
    if nodes != [] {
      if Order(names, nodes[0], crn) == 0 {
        forall j | 0 <= j < |merged|
          ensures Vector(names, merged[j]) == Vector(names, nodes[j])
        {
        }
      } else if Order(names, nodes[0], crn) == 1 {
        forall j | 0 < j < |merged|
          ensures merged[j] == nodes[j - 1]
        {
        }
      } else {
        MergeMembers(names, nodes[1..], crn);
        var rest := Merge(names, nodes[1..], crn);
        forall j | 0 <= j < |merged|
          ensures Vector(names, merged[j]) == Vector(names, crn)
            || exists i :: 0 <= i < |nodes| && Vector(names, merged[j]) == Vector(names, nodes[i])
        {
          if j == 0 {
            assert Vector(names, merged[j]) == Vector(names, nodes[0]);
          } else {
            assert merged[j] == rest[j - 1];
            if Vector(names, rest[j - 1]) != Vector(names, crn) {
              var i :| 0 <= i < |nodes[1..]| && Vector(names, rest[j - 1]) == Vector(names, nodes[1..][i]);
              assert nodes[1..][i] == nodes[i + 1];
            }
          }
        }
      }
    }
  }

  /** Merging passes over the nodes below the new one. */
  lemma {:induction false} MergeAfter(
      names: seq<string>, before: seq<ClusterResourceNode>, after: seq<ClusterResourceNode>, crn: ClusterResourceNode)
    requires forall i :: 0 <= i < |before| ==> Order(names, before[i], crn) == -1
    ensures Merge(names, before + after, crn) == before + Merge(names, after, crn)
  {
    if before == [] {
      assert before + after == after;
    } else {
      assert (before + after)[1..] == before[1..] + after && (before + after)[0] == before[0];
      hide Order;
      MergeAfter(names, before[1..], after, crn);
      assert before == [before[0]] + before[1..];
    }
  }

  /** Where the traversal of a list stops, and what it then does to the list. */
  lemma MergeAt(names: seq<string>, nodes: seq<ClusterResourceNode>, i: nat, crn: ClusterResourceNode)
    requires i < |nodes| && forall j :: 0 <= j < i ==> Order(names, nodes[j], crn) == -1
    ensures Order(names, nodes[i], crn) == 0 ==>
      Merge(names, nodes, crn) == nodes[i := nodes[i].(quantity := nodes[i].quantity + crn.quantity)]
    ensures Order(names, nodes[i], crn) == 1 ==> Merge(names, nodes, crn) == nodes[..i] + [crn] + nodes[i..]
  {
    assert nodes == nodes[..i] + nodes[i..];
    MergeAfter(names, nodes[..i], nodes[i..], crn);
    assert nodes[i..][1..] == nodes[i + 1..];
  }
}
