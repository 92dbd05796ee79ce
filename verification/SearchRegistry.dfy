/** Which resources of a cluster are watched, and for which registries (pkg/search/controller.go,
    pkg/util/common.go). */
module SearchRegistry {
  import opened Collections
  import opened Wrappers

  datatype GroupVersionResource = GroupVersionResource(group: string, version: string, resource: string)

  /** A registry, its selectors already mapped to resources. */
  datatype ResourceRegistry = ResourceRegistry(name: string, resources: seq<GroupVersionResource>)
  {
    function Selected(): set<GroupVersionResource> {
      SetOf(resources)
    }
  }

  /** `DiffKey`: the keys that came and the keys that went, each once, in any order. */
  method DiffKey<K, V1, V2>(previous: Option<map<K, V1>>, current: Option<map<K, V2>>)
    returns (added: seq<K>, removed: seq<K>)
    ensures NoDuplicates(added) && NoDuplicates(removed)
    ensures forall k :: k in added <==> k in KeysOf(current) && k !in KeysOf(previous)
    ensures forall k :: k in removed <==> k in KeysOf(previous) && k !in KeysOf(current)
  {
    added, removed := [], [];
    if previous.None? && current.None? {
      return;
    }
    if previous.None? {
      added := Listing(current.value.Keys);
      return;
    }
    if current.None? {
      removed := Listing(previous.value.Keys);
      return;
    }
    var keys := previous.value.Keys;
    while keys != {}
      invariant keys <= previous.value.Keys && NoDuplicates(removed)
      invariant forall k :: k in removed <==> k in previous.value && k !in keys && k !in current.value
    {
      var key :| key in keys;
      keys := keys - {key};
      if key !in current.value {
        removed := removed + [key];
      }
    }
    keys := current.value.Keys;
    while keys != {}
      invariant keys <= current.value.Keys && NoDuplicates(added)
      invariant forall k :: k in added <==> k in current.value && k !in keys && k !in previous.value
    {
      var key :| key in keys;
      keys := keys - {key};
      if key !in previous.value {
        added := added + [key];
      }
    }
  }

  function KeysOf<K, V>(m: Option<map<K, V>>): set<K> {
    if m.None? then {} else m.value.Keys
  }

  /** A relation between registries and resources. */
  type Selection = map<string, set<GroupVersionResource>>

  function Who(s: Selection, g: GroupVersionResource): set<string> {
    set n | n in s && g in s[n]
  }

  /** The index holds the relation: a resource is a key exactly if a registry selects it, with all that do. */
  ghost predicate Indexes(resources: map<GroupVersionResource, set<string>>, s: Selection) {
    forall g: GroupVersionResource ::
      && (g in resources <==> Who(s, g) != {})
      && (g in resources ==> resources[g] == Who(s, g))
  }

  /** One more registry, or more resources of a known one. */
  function Extended(s: Selection, name: string, gvrs: set<GroupVersionResource>): Selection {
    s[name := (if name in s then s[name] else {}) + gvrs]
  }

  function SelectionOf(matched: map<string, ResourceRegistry>): Selection {
    map n | n in matched :: matched[n].Selected()
  }

  /** What is remembered after a reconciliation: the registries that match now, each with all it has selected
      since it began to match. */
  function Next(seen: Selection, now: Selection): Selection {
    map n | n in now :: (if n in seen then seen[n] else {}) + now[n]
  }

  ghost predicate Named(registries: map<string, ResourceRegistry>) {
    forall n <- registries :: registries[n].name == n
  }

  /** Of `keys`, the resources that nobody else selects. */
  function Emptied(
      resources: map<GroupVersionResource, set<string>>, keys: set<GroupVersionResource>, name: string)
    : set<GroupVersionResource>
  {
    set g | g in keys && g in resources && resources[g] <= {name}
  }

  lemma EmptiedOneMore(
      resources: map<GroupVersionResource, set<string>>, keys: set<GroupVersionResource>, name: string,
      g: GroupVersionResource)
    requires g in resources
    ensures Emptied(resources, keys + {g}, name) ==
      Emptied(resources, keys, name) + if resources[g] - {name} == {} then {g} else {}
  {
  }

  lemma EmptiedMeans(
      before: map<GroupVersionResource, set<string>>, after: map<GroupVersionResource, set<string>>, name: string,
      removed: seq<GroupVersionResource>, removedResources: seq<GroupVersionResource>)
    requires after.Keys == before.Keys && forall g <- before :: after[g] == before[g] - {name}
    requires SetOf(removedResources) == SetOf(removed) + Emptied(before, before.Keys, name)
    ensures forall g :: g in removedResources <==> g in removed || (g in after && after[g] == {})
  {
    forall g
      ensures g in removedResources <==> g in removed || (g in after && after[g] == {})
    {
      assert g in removedResources <==> g in SetOf(removedResources);
      assert g in removed <==> g in SetOf(removed);
    }
  }

  /** `clusterRegistry`. */
  class ClusterRegistry {
    var registries: set<string>
    var resources: map<GroupVersionResource, set<string>>
    ghost var seen: Selection

    ghost predicate Valid()
      reads this
    {
      registries == seen.Keys && Indexes(resources, seen)
    }

    constructor ()
      ensures Valid() && seen == map[] && resources == map[]
    {
      registries, resources, seen := {}, map[], map[];
    }

    /** `getRegistryAddedResources`. */
    method AddResources(registry: ResourceRegistry, added: seq<GroupVersionResource>)
      returns (nowAdded: seq<GroupVersionResource>)
      requires Indexes(resources, seen)
      modifies this`resources, this`seen
      ensures Indexes(resources, seen)
      ensures seen == Extended(old(seen), registry.name, registry.Selected())
      ensures old(resources.Keys) <= resources.Keys
      ensures forall g :: g in nowAdded <==> g in added || (g in resources && g !in old(resources))
    {
      nowAdded := added;
      var resourcesToWatch := registry.resources;
      seen := Extended(seen, registry.name, {});
      assert forall g: GroupVersionResource :: Who(seen, g) == Who(old(seen), g);
      assert SetOf(resourcesToWatch[..0]) == {};
      hide Indexes, Extended, SetOf;
      for i := 0 to |resourcesToWatch|
        invariant Indexes(resources, seen)
        invariant seen == Extended(old(seen), registry.name, SetOf(resourcesToWatch[..i]))
        invariant old(resources.Keys) <= resources.Keys
        invariant forall g :: g in nowAdded <==> g in added || (g in resources && g !in old(resources))
      {
        var resource := resourcesToWatch[i];
        assert resourcesToWatch[..i + 1] == resourcesToWatch[..i] + [resource];
        SetOfSnoc(resourcesToWatch[..i], resource);
        ExtendedIndex(resources, seen, registry.name, resource);
        ExtendedTwice(old(seen), registry.name, SetOf(resourcesToWatch[..i]), {resource});
        if resource in resources {
          resources := resources[resource := resources[resource] + {registry.name}];
        } else {
          nowAdded := nowAdded + [resource];
          assert {} + {registry.name} == {registry.name};
          resources := resources[resource := {registry.name}];
        }
        seen := Extended(seen, registry.name, {resource});
      }
      assert resourcesToWatch[..|resourcesToWatch|] == resourcesToWatch;
    }
  
    /** The round for one removed registry in `getClusterRegistriesModification`. */
    method RemoveRegistry(name: string, removed: seq<GroupVersionResource>)
      returns (removedResources: seq<GroupVersionResource>)
      requires Valid() && forall g <- removed :: g !in resources
      modifies this
      ensures Valid() && seen == old(seen) - {name}
      ensures forall g :: g in removedResources <==> g in removed || (g in old(resources) && g !in resources)
      ensures resources.Keys <= old(resources.Keys)
    {
      registries := registries - {name};
      removedResources := DropName(name, removed);
      DeleteAll(removedResources);
      seen := seen - {name};
      hide Indexes;
      ShrunkIndex(old(resources), resources, old(seen), name);
    }

    /** Takes the name out of every set, and collects the resources whose set becomes empty. */
    method DropName(name: string, removed: seq<GroupVersionResource>)
      returns (removedResources: seq<GroupVersionResource>)
      modifies this`resources
      ensures resources.Keys == old(resources.Keys)
      ensures forall g <- resources :: resources[g] == old(resources[g]) - {name}
      ensures forall g :: g in removedResources <==> g in removed || (g in resources && resources[g] == {})
    {
      removedResources := removed;
      ghost var start := resources;
      var keys := resources.Keys;
      assert Emptied(start, start.Keys - keys, name) == {} && start.Keys - keys == {};
      hide SetOf, Emptied;
      while keys != {}
        invariant keys <= resources.Keys == start.Keys
        invariant forall g <- start :: resources[g] == if g in keys then start[g] else start[g] - {name}
        invariant SetOf(removedResources) == SetOf(removed) + Emptied(start, start.Keys - keys, name)
      {
        var resource :| resource in keys;
        EmptiedOneMore(start, start.Keys - keys, name, resource);
        assert start.Keys - (keys - {resource}) == (start.Keys - keys) + {resource};
        keys := keys - {resource};
        removedResources := DropOne(name, resource, removedResources);
      }
      assert start.Keys - keys == start.Keys;
      EmptiedMeans(start, resources, name, removed, removedResources);
    }

    method DropOne(name: string, resource: GroupVersionResource, removed: seq<GroupVersionResource>)
      returns (removedResources: seq<GroupVersionResource>)
      requires resource in resources
      modifies this`resources
      ensures resources == old(resources)[resource := old(resources)[resource] - {name}]
      ensures SetOf(removedResources) == SetOf(removed) + if old(resources)[resource] - {name} == {} then {resource} else {}
    {
      removedResources := removed;
      resources := resources[resource := resources[resource] - {name}];
      if |resources[resource]| == 0 {
        SetOfSnoc(removedResources, resource);
        removedResources := removedResources + [resource];
      }
    }

/** Deletes keys of the index. */
    method DeleteAll(removedResources: seq<GroupVersionResource>)
      modifies this`resources
      ensures resources == old(resources) - SetOf(removedResources)
    {
      for i := 0 to |removedResources|
        invariant resources == old(resources) - SetOf(removedResources[..i])
      {
        SetOfSnoc(removedResources[..i], removedResources[i]);
        assert removedResources[..i + 1] == removedResources[..i] + [removedResources[i]];
        resources := resources - {removedResources[i]};
      }
      assert removedResources[..|removedResources|] == removedResources;
    }

    /** `getClusterRegistriesModification`, for the differences between what is registered and what matches. */
    method Modify(
        all: map<string, ResourceRegistry>, matched: map<string, ResourceRegistry>,
        added: seq<string>, removed: seq<string>)
      returns (addedResources: seq<GroupVersionResource>, removedResources: seq<GroupVersionResource>)
      requires Valid() && Named(all)
      requires forall n <- matched :: n in all && all[n] == matched[n]
      requires forall n :: n in added <==> n in matched && n !in registries
      requires forall n :: n in removed <==> n in registries && n !in matched
      modifies this
      ensures Valid() && seen == Next(old(seen), SelectionOf(matched))
      ensures forall g :: g in removedResources <==> g in old(resources) && old(resources[g]) !! matched.Keys
      ensures forall g :: g in addedResources <==> g in resources && (g !in old(resources) || g in removedResources)
    {
      ghost var now, names := SelectionOf(matched), matched.Keys;
      LeftIs(seen, names, added, removed);
      hide Indexes, Mixed, Who, Extended, SetOf, Next;
      removedResources := RemoveAll(removed);
      ghost var left := seen;
      LeftIndex(old(seen), left, names, old(resources), resources);
      addedResources := AddAdded(all, now, added, left);
      addedResources := AddMatched(matched, addedResources, left, SetOf(added));
      MixedIsNext(old(seen), left, now);
    }

    method RemoveAll(removed: seq<string>) returns (removedResources: seq<GroupVersionResource>)
      requires Valid()
      modifies this
      ensures Valid() && seen == old(seen) - SetOf(removed)
      ensures resources.Keys <= old(resources.Keys)
      ensures forall g :: g in removedResources <==> g in old(resources) && g !in resources
    {
      removedResources := [];
      hide Indexes;
      for i := 0 to |removed|
        invariant Valid() && seen == old(seen) - SetOf(removed[..i])
        invariant resources.Keys <= old(resources.Keys)
        invariant forall g :: g in removedResources <==> g in old(resources) && g !in resources
      {
        assert removed[..i + 1] == removed[..i] + [removed[i]];
        SetOfSnoc(removed[..i], removed[i]);
        removedResources := RemoveRegistry(removed[i], removedResources);
      }
      assert removed[..|removed|] == removed;
    }

    /** First the added registries. */
    method AddAdded(
        all: map<string, ResourceRegistry>, ghost now: Selection, added: seq<string>, ghost left: Selection)
      returns (addedResources: seq<GroupVersionResource>)
      requires Valid() && seen == left && Named(all)
      requires forall n <- added :: n in all && n in now && now[n] == all[n].Selected()
      modifies this
      ensures SetOf(added) <= now.Keys
      ensures Valid() && seen == Mixed(left, now, SetOf(added))
      ensures old(resources.Keys) <= resources.Keys
      ensures forall g :: g in addedResources <==> g in resources && g !in old(resources)
    {
      addedResources := [];
      MixedNone(left, now);
      assert SetOf(added[..0]) == {};
      hide Indexes, Mixed, Extended, SetOf;
      for i := 0 to |added|
        invariant SetOf(added[..i]) <= now.Keys
        invariant Indexes(resources, seen) && seen == Mixed(left, now, SetOf(added[..i]))
        invariant registries == left.Keys + SetOf(added[..i])
        invariant old(resources.Keys) <= resources.Keys
        invariant forall g :: g in addedResources <==> g in resources && g !in old(resources)
      {
        assert added[..i + 1] == added[..i] + [added[i]];
        SetOfSnoc(added[..i], added[i]);
        MixedExtended(left, now, SetOf(added[..i]), added[i]);
        registries := registries + {added[i]};
        addedResources := AddResources(all[added[i]], addedResources);
      }
      assert added[..|added|] == added;
      MixedKeys(left, now, SetOf(added));
    }

    /** Then all that match: for those that stay, the selectors may have grown. */
    method AddMatched(
        matched: map<string, ResourceRegistry>, resourcesBefore: seq<GroupVersionResource>,
        ghost left: Selection, ghost some: set<string>)
      returns (addedResources: seq<GroupVersionResource>)
      requires Valid() && Named(matched) && some <= matched.Keys && registries == matched.Keys
      requires seen == Mixed(left, SelectionOf(matched), some) && left.Keys <= matched.Keys
      modifies this`resources, this`seen
      ensures Valid() && seen == Mixed(left, SelectionOf(matched), matched.Keys)
      ensures old(resources.Keys) <= resources.Keys
      ensures forall g :: g in addedResources <==> g in resourcesBefore || (g in resources && g !in old(resources))
    {
      addedResources := resourcesBefore;
      ghost var now, done := SelectionOf(matched), some;
      hide Indexes, Mixed, Extended;
      var names := matched.Keys;
      while names != {}
        invariant names <= matched.Keys && done <= now.Keys && matched.Keys - names <= done
        invariant Indexes(resources, seen) && seen == Mixed(left, now, done)
        invariant old(resources.Keys) <= resources.Keys
        invariant forall g :: g in addedResources <==> g in resourcesBefore || (g in resources && g !in old(resources))
      {
        var name :| name in names;
        names := names - {name};
        MixedExtended(left, now, done, name);
        done := done + {name};
        addedResources := AddResources(matched[name], addedResources);
      }
      assert done == matched.Keys;
      MixedKeys(left, now, done);
    }
  }

  /** Without a registry: it leaves each set, and sets that become empty leave the index. */
  lemma ShrunkIndex(
      before: map<GroupVersionResource, set<string>>, after: map<GroupVersionResource, set<string>>,
      s: Selection, name: string)
    requires Indexes(before, s)
    requires forall g :: g in after <==> g in before && before[g] - {name} != {}
    requires forall g <- after :: after[g] == before[g] - {name}
    ensures Indexes(after, s - {name})
  {
    forall g: GroupVersionResource
      ensures Who(s - {name}, g) == Who(s, g) - {name}
    {
    }
  }

  lemma LeftIs(s: Selection, names: set<string>, added: seq<string>, removed: seq<string>)
    requires forall n :: n in added <==> n in names && n !in s
    requires forall n :: n in removed <==> n in s && n !in names
    ensures s - SetOf(removed) == map n | n in s && n in names :: s[n]
    ensures (s - SetOf(removed)).Keys + SetOf(added) == names
  {
  }

  /** What is left after the removals: exactly the resources that one of the remaining registries watched. */
  lemma LeftIndex(
      s: Selection, left: Selection, names: set<string>,
      before: map<GroupVersionResource, set<string>>, after: map<GroupVersionResource, set<string>>)
    requires Indexes(before, s) && Indexes(after, left)
    requires left == map n | n in s && n in names :: s[n]
    ensures forall g :: g in before ==> (g in after <==> !(before[g] !! names))
  {
    forall g | g in before
      ensures g in after <==> !(before[g] !! names)
    {
      assert before[g] == Who(s, g);
      assert Who(left, g) == before[g] * names;
      assert g in after <==> Who(left, g) != {};
      if n :| n in before[g] && n in names {
        assert n in Who(left, g);
      } else {
        assert before[g] * names == {};
      }
    }
  }

  /** The selection while the registries are added. */
  function Mixed(left: Selection, now: Selection, done: set<string>): Selection
    requires done <= now.Keys
  {
    map n | n in left.Keys + done :: (if n in left then left[n] else {}) + (if n in done then now[n] else {})
  }

  lemma MixedKeys(left: Selection, now: Selection, done: set<string>)
    requires done <= now.Keys
    ensures Mixed(left, now, done).Keys == left.Keys + done
  {
  }

  lemma MixedNone(left: Selection, now: Selection)
    ensures Mixed(left, now, {}) == left
  {
    var m := Mixed(left, now, {});
    assert m.Keys == left.Keys;
    assert forall n <- m :: m[n] == left[n];
  }

  lemma MixedExtended(left: Selection, now: Selection, done: set<string>, name: string)
    requires done <= now.Keys && name in now
    ensures Extended(Mixed(left, now, done), name, now[name]) == Mixed(left, now, done + {name})
  {
    var m, t := Extended(Mixed(left, now, done), name, now[name]), Mixed(left, now, done + {name});
    MixedKeys(left, now, done);
    MixedKeys(left, now, done + {name});
    assert m.Keys == t.Keys;
    forall n | n in m
      ensures m[n] == t[n]
    {
    }
  }

  lemma MixedIsNext(seen: Selection, left: Selection, now: Selection)
    requires left == map n | n in seen && n in now :: seen[n]
    ensures Mixed(left, now, now.Keys) == Next(seen, now)
  {
  }

  lemma ExtendedTwice(s: Selection, name: string, a: set<GroupVersionResource>, b: set<GroupVersionResource>)
    ensures Extended(Extended(s, name, a), name, b) == Extended(s, name, a + b)
  {
    var old_ := if name in s then s[name] else {};
    assert old_ + a + b == old_ + (a + b);
  }

  lemma ExtendedIndex(
      resources: map<GroupVersionResource, set<string>>, s: Selection, name: string, resource: GroupVersionResource)
    requires Indexes(resources, s)
    ensures Indexes(
      resources[resource := (if resource in resources then resources[resource] else {}) + {name}],
      Extended(s, name, {resource}))
  {
    var t := Extended(s, name, {resource});
    forall g: GroupVersionResource
      ensures Who(t, g) == if g == resource then Who(s, g) + {name} else Who(s, g)
    {
    }
  }

  /** An index of what is remembered after a reconciliation, entry by entry. */
  lemma IndexMeans(
      before: map<GroupVersionResource, set<string>>, seen: Selection, after: map<GroupVersionResource, set<string>>,
      matched: map<string, ResourceRegistry>)
    requires Indexes(before, seen) && Indexes(after, Next(seen, SelectionOf(matched)))
    ensures forall g, n :: g in after && n in after[g] <==>
      && n in matched && (g in matched[n].resources || (g in before && n in before[g]))
    ensures forall g <- after :: after[g] != {}
  {
    var next := Next(seen, SelectionOf(matched));
    forall g, n
      ensures g in after && n in after[g] <==>
        && n in matched && (g in matched[n].resources || (g in before && n in before[g]))
    {
      assert n in Who(next, g) <==> n in next && g in next[n];
      assert n in Who(seen, g) <==> n in seen && g in seen[n];
      assert g in before && n in before[g] <==> n in Who(seen, g);
      assert g in after && n in after[g] <==> n in Who(next, g);
    }
  }

  lemma NextNames(seen: Selection, matched: map<string, ResourceRegistry>)
    ensures Next(seen, SelectionOf(matched)).Keys == matched.Keys == SelectionOf(matched).Keys
  {
  }

  lemma ChangesMean(
      before: map<GroupVersionResource, set<string>>, after: map<GroupVersionResource, set<string>>, names: set<string>,
      added: seq<GroupVersionResource>, removed: seq<GroupVersionResource>)
    requires forall g :: g in removed <==> g in before && before[g] !! names
    requires forall g :: g in added <==> g in after && (g !in before || g in removed)
    ensures |added| > 0 || |removed| > 0 <==>
      (exists g <- before :: before[g] !! names) || (exists g <- after :: g !in before)
    ensures |added| == 0 && |removed| == 0 ==>
      (forall g :: g in before ==> !(before[g] !! names)) && forall g :: g in after ==> g in before
  {
    if |added| > 0 {
      assert added[0] in added;
    }
    if |removed| > 0 {
      assert removed[0] in removed;
    }
  }

  /** `reconcileClusterWithRegistries`, up to the informers: `known` is the cluster's entry, if there is one. */
  method ReconcileClusterWithRegistries(
      known: Option<ClusterRegistry>, all: map<string, ResourceRegistry>, matched: map<string, ResourceRegistry>)
    returns (cr: ClusterRegistry, resourcesChanged: bool, newRegistry: bool)
    requires known.Some? ==> known.value.Valid()
    requires Named(all) && forall n <- matched :: n in all && all[n] == matched[n]
    modifies if known.Some? then {known.value} else {}
    ensures if known.Some? then cr == known.value else fresh(cr)
    ensures cr.Valid() && cr.registries == matched.Keys
    ensures cr.seen == Next(if known.Some? then old(known.value.seen) else map[], SelectionOf(matched))
    ensures newRegistry <==> known.None?
    ensures known.Some? && !resourcesChanged ==> cr.resources.Keys == old(known.value.resources.Keys)
    // the same in the terms of the input: what each registry selects, and what the index was
    ensures var before := if known.Some? then old(known.value.resources) else map[];
      && (forall g, n :: g in cr.resources && n in cr.resources[g] <==>
           && n in matched && (g in matched[n].resources || (g in before && n in before[g])))
      && (forall g <- cr.resources :: cr.resources[g] != {})
      && (resourcesChanged <==>
           || (exists g <- before :: before[g] !! matched.Keys)
           || (exists g <- cr.resources :: g !in before))
  {
    hide Indexes, Next, SelectionOf, Who, Named;
    if known.Some? {
      cr := known.value;
    } else {
      cr := new ClusterRegistry();
    }
    var previous: Option<map<string, ()>> := if known.Some? then Some(map n | n in cr.registries :: ()) else None;
    var addedRegistries, removedRegistries := DiffKey(previous, Some(matched));
    ghost var before, index := cr.seen, cr.resources;
    assert index == if known.Some? then old(known.value.resources) else map[];
    var addedResources, removedResources := cr.Modify(all, matched, addedRegistries, removedRegistries);
    resourcesChanged := |addedResources| > 0 || |removedResources| > 0;
    newRegistry := known.None?;
    NextNames(before, matched);
    IndexMeans(index, before, cr.resources, matched);
    ChangesMean(index, cr.resources, matched.Keys, addedResources, removedResources);
    if !resourcesChanged {
      NothingChanged(index, before, cr.resources, cr.seen, SelectionOf(matched));
    }
  }

  /** Without changes to report, the same resources are watched as before. */
  lemma NothingChanged(
      index: map<GroupVersionResource, set<string>>, before: Selection,
      now: map<GroupVersionResource, set<string>>, seen: Selection, matched: Selection)
    requires Indexes(index, before) && Indexes(now, seen) && seen == Next(before, matched)
    requires forall g :: g in index ==> !(index[g] !! matched.Keys)
    requires forall g :: g in now ==> g in index
    ensures now.Keys == index.Keys
  {
    forall g | g in index
      ensures g in now
    {
      var n :| n in index[g] && n in matched;
      assert n in Who(seen, g);
    }
  }

  /** With selectors that stay as they are, the index is exactly the relation: the registries that match, and for
      each resource those that select it. */
  lemma FixedSelectorsAreIndexed(
      selector: string -> set<GroupVersionResource>, before: Selection, matched: map<string, ResourceRegistry>)
    requires forall n <- before :: before[n] == selector(n)
    requires forall n <- matched :: matched[n].Selected() == selector(n)
    ensures Next(before, SelectionOf(matched)) == SelectionOf(matched)
  {
    var next, now := Next(before, SelectionOf(matched)), SelectionOf(matched);
    forall n | n in matched
      ensures next[n] == now[n]
    {
      assert now[n] == selector(n);
    }
    assert next.Keys == now.Keys;
  }

  /** Otherwise it is right exactly if no registry that stays has dropped a resource from its selectors. */
  lemma IndexIsCurrentExactly(before: Selection, now: Selection, resources: map<GroupVersionResource, set<string>>)
    requires Indexes(resources, Next(before, now))
    ensures Indexes(resources, now) <==> forall n :: n in before && n in now ==> before[n] <= now[n]
  {
    var next := Next(before, now);
    if forall n :: n in before && n in now ==> before[n] <= now[n] {
      assert next.Keys == now.Keys && forall n <- now :: next[n] == now[n];
      assert next == now;
    } else {
      var n :| n in before && n in now && !(before[n] <= now[n]);
      var g :| g in before[n] && g !in now[n];
      assert n in Who(next, g) && n !in Who(now, g);
      assert g in resources && resources[g] == Who(next, g);
    }
  }

  /** A run of reconciliations. */
  function Rounds(before: Selection, matched: seq<Selection>): Selection {
    if matched == [] then before
    else Next(Rounds(before, matched[..|matched| - 1]), matched[|matched| - 1])
  }

  /** The registry has matched in every round since, and selected the resource in this one. */
  ghost predicate SelectedSince(matched: seq<Selection>, k: int, n: string, g: GroupVersionResource) {
    && 0 <= k < |matched|
    && (forall j :: k <= j < |matched| ==> n in matched[j])
    && g in matched[k][n]
  }

  /** After any number of rounds a registry stands for a resource exactly if it has selected it at some time since it
      last began to match. */
  lemma {:induction false} RoundsRemember(matched: seq<Selection>, n: string, g: GroupVersionResource)
    ensures var seen := Rounds(map[], matched);
      n in Who(seen, g) <==> exists k :: SelectedSince(matched, k, n, g)
  {
    if matched != [] {
      var rest, last := matched[..|matched| - 1], matched[|matched| - 1];
      RoundsRemember(rest, n, g);
      if k :| SelectedSince(rest, k, n, g) && n in last {
        assert SelectedSince(matched, k, n, g);
      }
      if n in last && g in last[n] {
        assert SelectedSince(matched, |matched| - 1, n, g);
      }
      if k :| SelectedSince(matched, k, n, g) && k < |matched| - 1 {
        assert SelectedSince(rest, k, n, g);
      }
    }
  }

  /** A resource that a registry has dropped from its selectors stays watched for it, though nobody selects it. */
  lemma DroppedResourceStays(
      name: string, g: GroupVersionResource, resources: map<GroupVersionResource, set<string>>)
    requires Indexes(resources, Rounds(map[], [map[name := {g}], map[name := {}]]))
    ensures g in resources && resources[g] == {name} && Who(map[name := {}], g) == {}
  {
    var first: Selection, second: Selection := map[name := {g}], map[name := {}];
    assert [first, second][..1] == [first] && [first][..0] == [];
    var seen := Rounds(map[], [first, second]);
    assert Rounds(map[], [first]) == Next(Rounds(map[], []), first);
    assert seen == Next(Rounds(map[], [first]), second);
    assert seen.Keys == {name} && seen[name] == {g};
    assert Who(seen, g) == {name};
  }
}
