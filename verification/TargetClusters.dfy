/** Replica bookkeeping of target clusters (pkg/util/binding.go). */
module TargetClusters {
  import opened FixedWidth

  datatype TargetComponent = TargetComponent(name: string, replicas: Int32)

  datatype TargetCluster = TargetCluster(name: string, replicas: Int32, components: seq<TargetComponent>)

  /** Equal in 32 bits. */
  predicate Congruent(a: int, b: int) {
    (a - b) % 0x1_0000_0000 == 0
  }

  lemma WrapIsCongruent(x: int)
    ensures Congruent(Wrap32(x), x)
    ensures forall y: Int32 :: Congruent(y, x) ==> y == Wrap32(x)
  {
  }

  lemma CongruentSums(a: int, b: int, c: int, d: int)
    requires Congruent(a, b) && Congruent(c, d)
    ensures Congruent(a + c, b + d)
  {
  }

  lemma CongruentTransitive(a: int, b: int, c: int)
    requires Congruent(a, b) && Congruent(b, c)
    ensures Congruent(a, c)
  {
  }

  /** All replicas that the entries with these names hold. */
  function Sum(clusters: seq<TargetCluster>, names: set<string>): int {
    if clusters == [] then 0
    else
      var last := clusters[|clusters| - 1];
      Sum(clusters[..|clusters| - 1], names) + if last.name in names then last.replicas else 0
  }

  function Names(clusters: seq<TargetCluster>): set<string> {
    set c <- clusters :: c.name
  }

  predicate Distinct(clusters: seq<TargetCluster>) {
    forall i, j :: 0 <= i < j < |clusters| ==> clusters[i].name != clusters[j].name
  }

  lemma {:induction false} SumOfNone(clusters: seq<TargetCluster>, names: set<string>)
    requires Names(clusters) !! names
    ensures Sum(clusters, names) == 0
  {
    if clusters != [] {
      SumOfNone(clusters[..|clusters| - 1], names);
    }
  }

  lemma {:induction false} SumOfSome(clusters: seq<TargetCluster>, names: set<string>, more: set<string>)
    requires Names(clusters) * names == Names(clusters) * more
    ensures Sum(clusters, names) == Sum(clusters, more)
  {
    if clusters != [] {
      var last := clusters[|clusters| - 1].name;
      assert last in Names(clusters);
      assert last in names <==> last in Names(clusters) * names;
      assert Names(clusters[..|clusters| - 1]) * names == Names(clusters[..|clusters| - 1]) * (Names(clusters) * names);
      SumOfSome(clusters[..|clusters| - 1], names, more);
    }
  }

  /** `GetSumOfReplicas`: the total, in 32 bits. */
  method GetSumOfReplicas(clusters: seq<TargetCluster>) returns (replicasSum: Int32)
    ensures replicasSum == Wrap32(Sum(clusters, Names(clusters)))
  {
    replicasSum := 0;
    for i := 0 to |clusters|
      invariant Congruent(replicasSum, Sum(clusters[..i], Names(clusters)))
    {
      assert clusters[..i + 1][..i] == clusters[..i];
      WrapIsCongruent(replicasSum + clusters[i].replicas);
      replicasSum := Wrap32(replicasSum + clusters[i].replicas);
    }
    assert clusters[..|clusters|] == clusters;
    WrapIsCongruent(Sum(clusters, Names(clusters)));
  }

  lemma {:induction false} SumOfUnion(clusters: seq<TargetCluster>, names: set<string>, more: set<string>)
    requires names !! more
    ensures Sum(clusters, names + more) == Sum(clusters, names) + Sum(clusters, more)
  {
    if clusters != [] {
      SumOfUnion(clusters[..|clusters| - 1], names, more);
    }
  }

  lemma {:induction false} SumOfConcat(a: seq<TargetCluster>, b: seq<TargetCluster>, names: set<string>)
    ensures Sum(a + b, names) == Sum(a, names) + Sum(b, names)
  {
    if b == [] {
      assert a + b == a;
    } else {
      assert (a + b)[..|a + b| - 1] == a + b[..|b| - 1];
      SumOfConcat(a, b[..|b| - 1], names);
    }
  }

  lemma {:induction false} SumOfOne(clusters: seq<TargetCluster>, c: TargetCluster)
    requires Distinct(clusters) && c in clusters
    ensures Sum(clusters, {c.name}) == c.replicas
  {
    var rest, last := clusters[..|clusters| - 1], clusters[|clusters| - 1];
    assert clusters == rest + [last];
    if c == last {
      SumOfNone(rest, {c.name});
    } else {
      SumOfOne(rest, c);
    }
  }

  /** Of entries with the same name only the last counts. */
  function Kept(clusters: seq<TargetCluster>): seq<TargetCluster> {
    if clusters == [] then []
    else
      var last := clusters[|clusters| - 1];
      Without(Kept(clusters[..|clusters| - 1]), last.name) + [last]
  }

  function Without(clusters: seq<TargetCluster>, name: string): seq<TargetCluster> {
    if clusters == [] then []
    else
      var rest, last := Without(clusters[..|clusters| - 1], name), clusters[|clusters| - 1];
      if last.name == name then rest else rest + [last]
  }

  lemma {:induction false} WithoutMembers(clusters: seq<TargetCluster>, name: string)
    ensures forall c :: c in Without(clusters, name) <==> c in clusters && c.name != name
    ensures Distinct(clusters) ==> Distinct(Without(clusters, name))
  {
    if clusters != [] {
      var rest, last := clusters[..|clusters| - 1], clusters[|clusters| - 1];
      WithoutMembers(rest, name);
      assert clusters == rest + [last];
      if Distinct(clusters) && last.name != name {
        assert forall c <- rest :: c.name != last.name;
        assert last.name !in Names(Without(rest, name));
        DistinctSnoc(Without(rest, name), last);
      }
    }
  }

  lemma {:induction false} WithoutAbsent(clusters: seq<TargetCluster>, name: string)
    requires name !in Names(clusters)
    ensures Without(clusters, name) == clusters
  {
    if clusters != [] {
      assert clusters[|clusters| - 1] in clusters;
      WithoutAbsent(clusters[..|clusters| - 1], name);
    }
  }

  lemma NamesOfConcat(a: seq<TargetCluster>, b: seq<TargetCluster>)
    ensures Names(a + b) == Names(a) + Names(b)
  {
    forall n | n in Names(a) + Names(b)
      ensures n in Names(a + b)
    {
      var c :| (c in a || c in b) && c.name == n;
      assert c in a + b;
    }
  }

  lemma DistinctSnoc(clusters: seq<TargetCluster>, last: TargetCluster)
    requires Distinct(clusters) && last.name !in Names(clusters)
    ensures Distinct(clusters + [last])
  {
    assert forall c <- clusters :: c.name in Names(clusters);
  }

  lemma NamesWithout(clusters: seq<TargetCluster>, name: string)
    ensures Names(Without(clusters, name)) == Names(clusters) - {name}
  {
    WithoutMembers(clusters, name);
  }

  lemma {:induction false} KeptNames(clusters: seq<TargetCluster>)
    ensures Names(Kept(clusters)) == Names(clusters)
  {
    if clusters != [] {
      var rest, last := clusters[..|clusters| - 1], clusters[|clusters| - 1];
      assert clusters == rest + [last];
      KeptNames(rest);
      NamesWithout(Kept(rest), last.name);
      NamesOfConcat(rest, [last]);
      NamesOfConcat(Without(Kept(rest), last.name), [last]);
      hide Names;
      assert Names([last]) == {last.name} by { NamesOfOne(last); }
    }
  }

  lemma NamesOfOne(c: TargetCluster)
    ensures Names([c]) == {c.name}
  {
    assert c in [c];
  }

  lemma {:induction false} KeptIsDistinct(clusters: seq<TargetCluster>)
    ensures Distinct(Kept(clusters))
  {
    if clusters != [] {
      var rest, last := clusters[..|clusters| - 1], clusters[|clusters| - 1];
      KeptIsDistinct(rest);
      NamesWithout(Kept(rest), last.name);
      WithoutMembers(Kept(rest), last.name);
      hide Distinct, Names;
      DistinctSnoc(Without(Kept(rest), last.name), last);
    }
  }

  /** Nothing is dropped from a list with distinct names. */
  lemma {:induction false} DistinctIsKept(clusters: seq<TargetCluster>)
    requires Distinct(clusters)
    ensures Kept(clusters) == clusters
  {
    if clusters != [] {
      var rest, last := clusters[..|clusters| - 1], clusters[|clusters| - 1];
      DistinctIsKept(rest);
      assert last.name !in Names(rest);
      hide Distinct, Names;
      WithoutAbsent(rest, last.name);
    }
  }

  ghost predicate MapOf(m: map<string, Int32>, clusters: seq<TargetCluster>) {
    m.Keys == Names(clusters) && forall c <- clusters :: m[c.name] == c.replicas
  }

  lemma MapOfSnoc(m: map<string, Int32>, kept: seq<TargetCluster>, c: TargetCluster)
    requires MapOf(m, kept)
    ensures MapOf(m[c.name := c.replicas], Without(kept, c.name) + [c])
  {
    NamesWithout(kept, c.name);
    WithoutMembers(kept, c.name);
    NamesOfConcat(Without(kept, c.name), [c]);
    NamesOfOne(c);
    hide Names;
  }

  /** `oldMap`, built from the old clusters. */
  method ReplicasByName(clusters: seq<TargetCluster>) returns (m: map<string, Int32>)
    ensures MapOf(m, Kept(clusters))
  {
    m := map[];
    for i := 0 to |clusters|
      invariant MapOf(m, Kept(clusters[..i]))
    {
      assert clusters[..i + 1][..i] == clusters[..i];
      MapOfSnoc(m, Kept(clusters[..i]), clusters[i]);
      hide MapOf, Without;
      m := m[clusters[i].name := clusters[i].replicas];
    }
    assert clusters[..|clusters|] == clusters;
  }

  /** Whatever names one looks at: with the replicas of the names in `rest` still to come, nothing is lost. */
  ghost predicate Conserved(
      merged: seq<TargetCluster>, kept: seq<TargetCluster>, rest: set<string>, added: seq<TargetCluster>)
  {
    forall names: set<string> ::
      Congruent(Sum(merged, names) + Sum(kept, names * rest), Sum(added, names) + Sum(kept, names))
  }

  /** One name leaves the rest, and its replicas are added to a merged entry. */
  lemma TakenFromRest(kept: seq<TargetCluster>, rest: set<string>, names: set<string>, c: TargetCluster)
    requires Distinct(kept) && c in kept && c.name in rest
    ensures Sum(kept, names * rest) == Sum(kept, names * (rest - {c.name})) + if c.name in names then c.replicas else 0
  {
    if c.name in names {
      assert names * rest == names * (rest - {c.name}) + {c.name};
      SumOfUnion(kept, names * (rest - {c.name}), {c.name});
      SumOfOne(kept, c);
    } else {
      assert names * rest == names * (rest - {c.name});
    }
  }

  lemma SumOfSnoc(clusters: seq<TargetCluster>, c: TargetCluster, names: set<string>)
    ensures Sum(clusters + [c], names) == Sum(clusters, names) + if c.name in names then c.replicas else 0
  {
    assert (clusters + [c])[..|clusters|] == clusters;
  }

  lemma Swapped(m: int, sum: int, left: int, a: int, e: int, k: int, c: int)
    requires Congruent(m + (left + c), a + k) && Congruent(sum, e + c)
    ensures Congruent((m + sum) + left, (a + e) + k)
  {
    CongruentSums(m + (left + c), a + k, sum, e + c);
    assert (m + (left + c)) + sum - ((a + k) + (e + c)) == (m + sum) + left - ((a + e) + k);
  }

  /** A new entry takes the replicas of the old entry `c` of its name. */
  lemma MergedEntry(
      merged: seq<TargetCluster>, kept: seq<TargetCluster>, rest: set<string>, added: seq<TargetCluster>,
      entry: TargetCluster, c: TargetCluster)
    requires Conserved(merged, kept, rest, added) && Distinct(kept)
    requires c in kept && c.name in rest && entry.name == c.name
    ensures Conserved(
      merged + [entry.(replicas := Wrap32(entry.replicas + c.replicas))], kept, rest - {c.name}, added + [entry])
  {
    var sum := entry.(replicas := Wrap32(entry.replicas + c.replicas));
    WrapIsCongruent(entry.replicas + c.replicas);
    forall names: set<string>
      ensures Congruent(Sum(merged + [sum], names) + Sum(kept, names * (rest - {c.name})),
                        Sum(added + [entry], names) + Sum(kept, names))
    {
      assert Congruent(Sum(merged, names) + Sum(kept, names * rest), Sum(added, names) + Sum(kept, names));
      hide Conserved, Congruent, Wrap32;
      MergedSums(merged, kept, rest, added, entry, c, sum, names);
    }
  }

  lemma MergedSums(
      merged: seq<TargetCluster>, kept: seq<TargetCluster>, rest: set<string>, added: seq<TargetCluster>,
      entry: TargetCluster, c: TargetCluster, sum: TargetCluster, names: set<string>)
    requires Distinct(kept) && c in kept && c.name in rest && entry.name == c.name == sum.name
    requires Congruent(Sum(merged, names) + Sum(kept, names * rest), Sum(added, names) + Sum(kept, names))
    requires Congruent(sum.replicas, entry.replicas + c.replicas)
    ensures Congruent(Sum(merged + [sum], names) + Sum(kept, names * (rest - {c.name})),
                      Sum(added + [entry], names) + Sum(kept, names))
  {
    hide Congruent, Sum, Distinct;
    var left := Sum(kept, names * (rest - {c.name}));
    TakenFromRest(kept, rest, names, c);
    SumOfSnoc(merged, sum, names);
    SumOfSnoc(added, entry, names);
    if c.name in names {
      Swapped(Sum(merged, names), sum.replicas, left, Sum(added, names), entry.replicas, Sum(kept, names), c.replicas);
    }
  }

  /** A new entry without an old one stays as it is. */
  lemma UnmergedEntry(
      merged: seq<TargetCluster>, kept: seq<TargetCluster>, rest: set<string>, added: seq<TargetCluster>,
      entry: TargetCluster)
    requires Conserved(merged, kept, rest, added)
    ensures Conserved(merged + [entry], kept, rest, added + [entry])
  {
    forall names: set<string>
      ensures Congruent(Sum(merged + [entry], names) + Sum(kept, names * rest),
                        Sum(added + [entry], names) + Sum(kept, names))
    {
      assert Congruent(Sum(merged, names) + Sum(kept, names * rest), Sum(added, names) + Sum(kept, names));
      SumOfSnoc(merged, entry, names);
      SumOfSnoc(added, entry, names);
    }
  }

  /** An old entry without a new one is appended. */
  lemma LeftoverEntry(
      merged: seq<TargetCluster>, kept: seq<TargetCluster>, rest: set<string>, added: seq<TargetCluster>,
      c: TargetCluster, entry: TargetCluster)
    requires Conserved(merged, kept, rest, added) && Distinct(kept)
    requires c in kept && c.name in rest && entry.name == c.name && entry.replicas == c.replicas
    ensures Conserved(merged + [entry], kept, rest - {c.name}, added)
  {
    forall names: set<string>
      ensures Congruent(Sum(merged + [entry], names) + Sum(kept, names * (rest - {c.name})),
                        Sum(added, names) + Sum(kept, names))
    {
      assert Congruent(Sum(merged, names) + Sum(kept, names * rest), Sum(added, names) + Sum(kept, names));
      TakenFromRest(kept, rest, names, c);
      SumOfSnoc(merged, entry, names);
    }
  }

  /** The old clusters that count: all of them if there is nothing to merge. */
  function Counted(oldCluster: seq<TargetCluster>, newCluster: seq<TargetCluster>): seq<TargetCluster> {
    if newCluster == [] then oldCluster else Kept(oldCluster)
  }

  /** For whatever set of names: their replicas after the merge are the new and the old ones together. */
  ghost predicate AddsUp(merged: seq<TargetCluster>, a: seq<TargetCluster>, b: seq<TargetCluster>) {
    forall names: set<string> :: Congruent(Sum(merged, names), Sum(a, names) + Sum(b, names))
  }

  /** The new entries come first and in place, with the components they had. */
  predicate StartsWith(merged: seq<TargetCluster>, added: seq<TargetCluster>) {
    && |merged| >= |added|
    && forall i :: 0 <= i < |added| ==>
      merged[i].name == added[i].name && merged[i].components == added[i].components
  }

  /** `MergeTargetClusters`, for whatever order the old map is iterated in. The slice of new clusters is overwritten
      with the sums. */
  method MergeTargetClusters(oldCluster: seq<TargetCluster>, newCluster: array<TargetCluster>)
    returns (merged: seq<TargetCluster>)
    modifies newCluster
    ensures var added := old(newCluster[..]);
      && AddsUp(merged, added, Counted(oldCluster, added))
      && Names(merged) == Names(oldCluster) + Names(added)
      && (Distinct(added) && (added == [] ==> Distinct(oldCluster)) ==> Distinct(merged))
      && StartsWith(merged, added)
    ensures newCluster[..] == merged[..newCluster.Length]
    ensures oldCluster == [] ==> merged == newCluster[..] == old(newCluster[..])
  {
    if |oldCluster| == 0 {
      return newCluster[..];
    } else if newCluster.Length == 0 {
      return oldCluster;
    }
    ghost var kept, added := Kept(oldCluster), newCluster[..];
    KeptIsDistinct(oldCluster);
    KeptNames(oldCluster);
    var oldMap := ReplicasByName(oldCluster);
    oldMap := MergeNew(newCluster, oldMap, kept);
    merged := AppendRest(newCluster[..], oldMap, kept, added);
    hide *;
    NothingRests(merged, kept, added);
  }

  lemma NothingRests(merged: seq<TargetCluster>, kept: seq<TargetCluster>, added: seq<TargetCluster>)
    requires Conserved(merged, kept, {}, added)
    ensures AddsUp(merged, added, kept)
  {
    forall names: set<string>
      ensures Congruent(Sum(merged, names), Sum(added, names) + Sum(kept, names))
    {
      assert Congruent(Sum(merged, names) + Sum(kept, names * {}), Sum(added, names) + Sum(kept, names));
      SumOfNone(kept, names * {});
    }
  }

  lemma EntryOf(clusters: seq<TargetCluster>, name: string) returns (c: TargetCluster)
    requires name in Names(clusters)
    ensures c in clusters && c.name == name
  {
    c :| c in clusters && c.name == name;
  }

  lemma NamesOfNone()
    ensures Names([]) == {}
  {
  }

  lemma AllIsLeft(kept: seq<TargetCluster>)
    ensures Conserved([], kept, Names(kept), [])
  {
    forall names: set<string>
      ensures Sum(kept, names * Names(kept)) == Sum(kept, names)
    {
      SumOfSome(kept, names * Names(kept), names);
    }
  }

  /** The first `i` new entries are merged, and `rest` are the names of old entries still to come. */
  ghost predicate MergedSoFar(
      merged: seq<TargetCluster>, added: seq<TargetCluster>, i: nat, kept: seq<TargetCluster>, rest: set<string>)
  {
    && i <= |merged| == |added| && StartsWith(merged, added) && merged[i..] == added[i..]
    && rest == Names(kept) - Names(added[..i])
    && Conserved(merged[..i], kept, rest, added[..i])
  }

  lemma OneMoreMerged(
      merged: seq<TargetCluster>, added: seq<TargetCluster>, i: nat, kept: seq<TargetCluster>, rest: set<string>,
      entry: TargetCluster, left: set<string>)
    requires i < |added| && MergedSoFar(merged, added, i, kept, rest)
    requires entry.name == added[i].name && entry.components == added[i].components && left == rest - {entry.name}
    requires Conserved(merged[..i] + [entry], kept, left, added[..i] + [added[i]])
    ensures MergedSoFar(merged[i := entry], added, i + 1, kept, left)
  {
    NamesOfConcat(added[..i], [added[i]]);
    NamesOfOne(added[i]);
    hide Conserved, Names;
    var next := merged[i := entry];
    assert added[..i + 1] == added[..i] + [added[i]] && next[..i + 1] == merged[..i] + [entry];
    assert next[i + 1..] == merged[i..][1..] == added[i + 1..];
  }

  lemma MergedWithOld(
      merged: seq<TargetCluster>, added: seq<TargetCluster>, i: nat, kept: seq<TargetCluster>, rest: set<string>,
      entry: TargetCluster)
    requires i < |added| && MergedSoFar(merged, added, i, kept, rest) && Distinct(kept) && added[i].name in rest
    requires exists c <- kept ::
      c.name == added[i].name && entry == added[i].(replicas := Wrap32(added[i].replicas + c.replicas))
    ensures MergedSoFar(merged[i := entry], added, i + 1, kept, rest - {entry.name})
  {
    hide Conserved, Names, Distinct, Wrap32, StartsWith;
    var c :| c in kept && c.name == added[i].name && entry == added[i].(replicas := Wrap32(added[i].replicas + c.replicas));
    MergedEntry(merged[..i], kept, rest, added[..i], added[i], c);
    OneMoreMerged(merged, added, i, kept, rest, entry, rest - {c.name});
  }

  lemma MergedAlone(
      merged: seq<TargetCluster>, added: seq<TargetCluster>, i: nat, kept: seq<TargetCluster>, rest: set<string>)
    requires i < |added| && MergedSoFar(merged, added, i, kept, rest) && added[i].name !in rest
    ensures MergedSoFar(merged, added, i + 1, kept, rest)
  {
    hide Conserved, Names, StartsWith;
    UnmergedEntry(merged[..i], kept, rest, added[..i], added[i]);
    assert merged[i..][0] == added[i..][0] && merged[i := added[i]] == merged && rest - {added[i].name} == rest;
    OneMoreMerged(merged, added, i, kept, rest, added[i], rest);
  }

  /** Every new entry takes the replicas of its name out of the map. */
  method MergeNew(newCluster: array<TargetCluster>, oldReplicas: map<string, Int32>, ghost kept: seq<TargetCluster>)
    returns (oldMap: map<string, Int32>)
    requires Distinct(kept) && MapOf(oldReplicas, kept)
    modifies newCluster
    ensures Conserved(newCluster[..], kept, oldMap.Keys, old(newCluster[..]))
    ensures StartsWith(newCluster[..], old(newCluster[..]))
    ensures oldMap.Keys == Names(kept) - Names(old(newCluster[..]))
    ensures forall c <- kept :: c.name in oldMap ==> oldMap[c.name] == c.replicas
  {
    oldMap := oldReplicas;
    ghost var added := newCluster[..];
    AllIsLeft(kept);
    NamesOfNone();
    assert StartsWith(added, added);
    hide Conserved, Names, Distinct, Wrap32, StartsWith;
    assert MergedSoFar(added, added, 0, kept, oldMap.Keys);
    for i := 0 to newCluster.Length
      invariant MergedSoFar(newCluster[..], added, i, kept, oldMap.Keys)
      invariant forall c <- kept :: c.name in oldMap ==> oldMap[c.name] == c.replicas
    {
      var cluster := newCluster[i];
      ghost var before, rest := newCluster[..], oldMap.Keys;
      assert cluster == before[i..][0] == added[i];
      hide MergedSoFar;
      if cluster.name in oldMap {
        newCluster[i] := newCluster[i].(replicas := Wrap32(cluster.replicas + oldMap[cluster.name]));
        oldMap := oldMap - {cluster.name};
        assert oldMap.Keys == rest - {cluster.name};
        MergedWithOld(before, added, i, kept, rest, newCluster[i]);
        assert newCluster[..] == before[i := newCluster[i]];
      } else {
        assert rest - {cluster.name} == rest;
        MergedAlone(before, added, i, kept, rest);
      }
    }
    assert added[..|added|] == added && newCluster[..newCluster.Length] == newCluster[..];
  }

  /** What is left in the map is appended, in any order. */
  method AppendRest(
      newCluster: seq<TargetCluster>, oldMap: map<string, Int32>,
      ghost kept: seq<TargetCluster>, ghost added: seq<TargetCluster>)
    returns (merged: seq<TargetCluster>)
    requires Distinct(kept) && StartsWith(newCluster, added) && |newCluster| == |added|
    requires Conserved(newCluster, kept, oldMap.Keys, added)
    requires oldMap.Keys == Names(kept) - Names(added)
    requires forall c <- kept :: c.name in oldMap ==> oldMap[c.name] == c.replicas
    ensures Conserved(merged, kept, {}, added)
    ensures Names(merged) == Names(kept) + Names(added)
    ensures Distinct(added) ==> Distinct(merged)
    ensures StartsWith(merged, added) && merged[..|added|] == newCluster
  {
    merged := newCluster;
    SameNames(newCluster, added);
    hide Conserved, Names, Distinct;
    var keys := oldMap.Keys;
    while keys != {}
      invariant keys <= oldMap.Keys
      invariant Conserved(merged, kept, keys, added)
      invariant Names(merged) == Names(added) + (oldMap.Keys - keys)
      invariant Distinct(added) ==> Distinct(merged)
      invariant StartsWith(merged, added) && merged[..|added|] == newCluster
    {
      var key :| key in keys;
      var entry := TargetCluster(key, oldMap[key], []);
      ghost var c := EntryOf(kept, key);
      LeftoverEntry(merged, kept, keys, added, c, entry);
      NamesOfConcat(merged, [entry]);
      NamesOfOne(entry);
      if Distinct(merged) {
        DistinctSnoc(merged, entry);
      }
      merged := merged + [entry];
      keys := keys - {key};
    }
  }

  lemma SameNames(a: seq<TargetCluster>, b: seq<TargetCluster>)
    requires |a| == |b| && forall i :: 0 <= i < |a| ==> a[i].name == b[i].name
    ensures Names(a) == Names(b) && (Distinct(a) <==> Distinct(b))
  {
    forall n
      ensures n in Names(a) <==> n in Names(b)
    {
      if n in Names(a) {
        var i :| 0 <= i < |a| && a[i].name == n;
        assert b[i] in b;
      }
      if n in Names(b) {
        var i :| 0 <= i < |b| && b[i].name == n;
        assert a[i] in a;
      }
    }
  }

  /** With distinct old names the total is conserved in 32 bits, and so are the replicas of each name. */
  lemma MergeConserves(
      oldCluster: seq<TargetCluster>, newCluster: seq<TargetCluster>, merged: seq<TargetCluster>, names: set<string>)
    requires Distinct(oldCluster) && AddsUp(merged, newCluster, Counted(oldCluster, newCluster))
    ensures Wrap32(Sum(merged, names)) == Wrap32(Wrap32(Sum(newCluster, names)) + Wrap32(Sum(oldCluster, names)))
  {
    hide Congruent, Wrap32, Sum, Kept;
    DistinctIsKept(oldCluster);
    AddsUpFor(merged, newCluster, Counted(oldCluster, newCluster), names);
    WrappedSum(Sum(merged, names), Sum(newCluster, names), Sum(oldCluster, names));
  }

  lemma WrappedSum(s: int, a: int, b: int)
    requires Congruent(s, a + b)
    ensures Wrap32(s) == Wrap32(Wrap32(a) + Wrap32(b))
  {
    hide *;
    WrapIsCongruent(a);
    WrapIsCongruent(b);
    WrapIsCongruent(s);
    WrapIsCongruent(Wrap32(a) + Wrap32(b));
    CongruentSums(Wrap32(a), a, Wrap32(b), b);
    CongruentTransitive(Wrap32(s), s, a + b);
    CongruentSymmetric(Wrap32(a) + Wrap32(b), a + b);
    CongruentTransitive(Wrap32(s), a + b, Wrap32(a) + Wrap32(b));
  }

  lemma AddsUpFor(merged: seq<TargetCluster>, a: seq<TargetCluster>, b: seq<TargetCluster>, names: set<string>)
    requires AddsUp(merged, a, b)
    ensures Congruent(Sum(merged, names), Sum(a, names) + Sum(b, names))
  {
    hide Congruent, Sum;
  }

  lemma CongruentReflexive(a: int)
    ensures Congruent(a, a)
  {
  }

  lemma CongruentSymmetric(a: int, b: int)
    requires Congruent(a, b)
    ensures Congruent(b, a)
  {
  }

  /** Exactly when an old list loses replicas: the dropped entries do not cancel out in 32 bits. */
  lemma LossExactly(
      oldCluster: seq<TargetCluster>, newCluster: seq<TargetCluster>, merged: seq<TargetCluster>, names: set<string>)
    requires AddsUp(merged, newCluster, Counted(oldCluster, newCluster))
    ensures Congruent(Sum(merged, names), Sum(newCluster, names) + Sum(oldCluster, names)) <==>
      newCluster == [] || Congruent(Sum(Kept(oldCluster), names), Sum(oldCluster, names))
  {
    var counted := Sum(Counted(oldCluster, newCluster), names);
    hide Congruent, Sum, AddsUp, Kept;
    AddsUpFor(merged, newCluster, Counted(oldCluster, newCluster), names);
    CongruentReflexive(counted);
    CongruentParts(Sum(merged, names), Sum(newCluster, names), counted, Sum(oldCluster, names));
  }

  lemma CongruentParts(m: int, n: int, k: int, o: int)
    requires Congruent(m, n + k)
    ensures Congruent(m, n + o) <==> Congruent(k, o)
  {
    if Congruent(m, n + o) {
      CongruentSymmetric(m, n + k);
      CongruentTransitive(n + k, m, n + o);
      assert n + k - (n + o) == k - o;
    }
    if Congruent(k, o) {
      assert n + k - (n + o) == k - o;
      CongruentTransitive(m, n + k, n + o);
    }
  }

  /** A name that the old list repeats loses the replicas of its first entry, unless there are none. */
  lemma RepeatedNameLoses(a: string, b: string, x: Int32, y: Int32, z: Int32, merged: seq<TargetCluster>)
    requires a != b
    requires var oldCluster, newCluster := [TargetCluster(a, x, []), TargetCluster(a, y, [])], [TargetCluster(b, z, [])];
      AddsUp(merged, newCluster, Counted(oldCluster, newCluster))
    ensures Wrap32(Sum(merged, {a})) == y
    ensures Wrap32(Sum([TargetCluster(a, x, []), TargetCluster(a, y, [])], {a})) == Wrap32(Sum(merged, {a})) <==> x == 0
  {
    var first, last, added := TargetCluster(a, x, []), TargetCluster(a, y, []), TargetCluster(b, z, []);
    SumsOfTwo(first, last, added);
    assert Counted([first, last], [added]) == Kept([first, last]);
    hide *;
    AddsUpFor(merged, [added], [last], {a});
    WrappedSum(Sum(merged, {a}), 0, y);
    WrapOfNone(y);
    WrapDiffers(x, y);
  }

  lemma SumsOfTwo(first: TargetCluster, last: TargetCluster, added: TargetCluster)
    requires first.name == last.name != added.name
    ensures Kept([first, last]) == [last]
    ensures Sum([first, last], {last.name}) == first.replicas + last.replicas
    ensures Sum([last], {last.name}) == last.replicas && Sum([added], {last.name}) == 0
  {
    assert [first, last] == [first] + [last] && [first, last][..1] == [first] && [first][..0] == [];
    assert Kept([first]) == [first];
    assert Without([first], last.name) == [];
    assert Kept([first, last]) == [] + [last];
    hide Kept, Without;
    assert Sum([], {last.name}) == 0;
    hide Sum;
    SumOfSnoc([], first, {last.name});
    SumOfSnoc([], last, {last.name});
    SumOfSnoc([], added, {last.name});
    SumOfSnoc([first], last, {last.name});
    assert [] + [first] == [first] && [] + [last] == [last] && [] + [added] == [added];
  }

  lemma WrapOfNone(y: Int32)
    ensures Wrap32(Wrap32(0) + Wrap32(y)) == y
  {
  }

  lemma WrapDiffers(x: Int32, y: Int32)
    ensures Wrap32(x + y) == y <==> x == 0
  {
  }
}
