/** What the simulator's count means. */
module FirstFitTheorems {
  import opened FixedWidth
  import opened Resources
  import opened Capacities
  import opened FirstFit
  import opened Wrappers

  /** Some way to put all replicas of `c` on matching nodes. */
  ghost predicate IsPlacement(
      free: seq<Quantities>, specs: seq<Option<NodeSpec>>, c: Component, counts: seq<nat>)
    requires |specs| == |free|
  {
    && |counts| == |free|
    && Sum(counts) == c.replicas
    && (forall i :: 0 <= i < |free| ==> Fits(free[i], Request(c), counts[i]))
    && (forall i :: 0 <= i < |free| && !MatchNode(specs[i], c) ==> counts[i] == 0)
  }

  lemma {:induction false} SumMonotone(a: seq<nat>, b: seq<nat>)
    requires |a| == |b| && forall i :: 0 <= i < |a| ==> a[i] <= b[i]
    ensures Sum(a) <= Sum(b)
  {
    if a != [] {
      SumMonotone(a[1..], b[1..]);
    }
  }

  lemma PlacementWithinCaps(
      free: seq<Quantities>, specs: seq<Option<NodeSpec>>, c: Component, counts: seq<nat>)
    requires AreNodes(free) && |specs| == |free| && ValidComponent(c)
    requires IsPlacement(free, specs, c, counts)
    ensures Sum(counts) <= Sum(Caps(free, specs, c))
  {
    RequestIsRequest(c);
    var caps := Caps(free, specs, c);
    forall i | 0 <= i < |free|
      ensures counts[i] <= caps[i]
    {
      assert Fits(free[i], Request(c), counts[i]);
    }
    SumMonotone(counts, caps);
  }

  lemma FirstFitIsPlacement(free: seq<Quantities>, specs: seq<Option<NodeSpec>>, c: Component)
    requires AreNodes(free) && |specs| == |free| && ValidComponent(c)
    requires Scheduled(free, specs, c)
    ensures IsPlacement(free, specs, c, Placement(free, specs, c))
  {
    GreedySum(Caps(free, specs, c), c.replicas);
    forall i | 0 <= i < |free|
      ensures Fits(free[i], Request(c), Placement(free, specs, c)[i])
      ensures !MatchNode(specs[i], c) ==> Placement(free, specs, c)[i] == 0
    {
      PlacementFits(free, specs, c, i);
    }
  }

  /** One component is placed completely whenever any placement of it exists. */
  lemma PlacementIsComplete(free: seq<Quantities>, specs: seq<Option<NodeSpec>>, c: Component)
    requires AreNodes(free) && |specs| == |free| && ValidComponent(c)
    ensures Scheduled(free, specs, c) <==> exists counts :: IsPlacement(free, specs, c, counts)
  {
    if Scheduled(free, specs, c) {
      FirstFitIsPlacement(free, specs, c);
    }
    forall counts | IsPlacement(free, specs, c, counts)
      ensures Scheduled(free, specs, c)
    {
      PlacementWithinCaps(free, specs, c, counts);
    }
  }

  /** Replicas still placeable after `c` itself was placed: exactly its own number fewer. */
  lemma CapsAfterComponent(free: seq<Quantities>, specs: seq<Option<NodeSpec>>, c: Component)
    requires AreNodes(free) && |specs| == |free| && ValidComponent(c)
    requires Scheduled(free, specs, c)
    ensures Sum(Caps(AfterComponent(free, specs, c), specs, c)) == Sum(Caps(free, specs, c)) - c.replicas
  {
    var before, taken := Caps(free, specs, c), Placement(free, specs, c);
    var after := Caps(AfterComponent(free, specs, c), specs, c);
    forall i | 0 <= i < |free|
      ensures before[i] == after[i] + taken[i]
    {
      RequestIsRequest(c);
      PlacementFits(free, specs, c, i);
      CapacityAfterTaking(free[i], Request(c), taken[i]);
    }
    SumAdds(before, after, taken);
    GreedySum(before, c.replicas);
  }

  lemma {:induction false} SumAdds(total: seq<nat>, a: seq<nat>, b: seq<nat>)
    requires |total| == |a| == |b| && forall i :: 0 <= i < |a| ==> total[i] == a[i] + b[i]
    ensures Sum(total) == Sum(a) + Sum(b)
  {
    if a != [] {
      SumAdds(total[1..], a[1..], b[1..]);
    }
  }

  /** Replicas of any other component still placeable: never more. */
  lemma CapsOnlyShrink(free: seq<Quantities>, specs: seq<Option<NodeSpec>>, c: Component, other: Component)
    requires AreNodes(free) && |specs| == |free| && ValidComponent(c) && ValidComponent(other)
    ensures Sum(Caps(AfterComponent(free, specs, c), specs, other)) <= Sum(Caps(free, specs, other))
  {
    forall i | 0 <= i < |free|
      ensures Caps(AfterComponent(free, specs, c), specs, other)[i] <= Caps(free, specs, other)[i]
    {
      RequestIsRequest(c);
      RequestIsRequest(other);
      PlacementFits(free, specs, c, i);
      CapacityOnlyShrinks(free[i], Request(c), Placement(free, specs, c)[i], Request(other));
    }
    SumMonotone(Caps(AfterComponent(free, specs, c), specs, other), Caps(free, specs, other));
  }

  /** For one component the count is exact: the bound, or as many sets as the capacities allow. */
  lemma {:induction false} SingleComponentCount(
      free: seq<Quantities>, specs: seq<Option<NodeSpec>>, c: Component, bound: nat)
    requires AreNodes(free) && |specs| == |free| && ValidComponent(c) && Decodes(c)
    ensures var s := Simulate(free, specs, [Some(c)], bound);
      && !s.failed
      && |s.packings| == if c.replicas == 0 then bound else Min(bound, Sum(Caps(free, specs, c)) / c.replicas)
    decreases bound
  {
    var components := [Some(c)];
    if bound > 0 {
      var a := AttemptSet(free, specs, components);
      assert components[1..] == [];
      assert AttemptSet(AfterComponent(free, specs, c), specs, []).outcome == Complete;
      if Scheduled(free, specs, c) {
        assert a.outcome == Complete && a.free == AfterComponent(free, specs, c);
        SingleComponentCount(a.free, specs, c, bound - 1);
        CapsAfterComponent(free, specs, c);
        if c.replicas > 0 {
          QuotientStep(Sum(Caps(free, specs, c)), c.replicas);
        }
      } else {
        assert a.outcome == Incomplete;
        QuotientGalois(Sum(Caps(free, specs, c)), c.replicas, 1);
        QuotientBounds(Sum(Caps(free, specs, c)), c.replicas);
      }
    } else if c.replicas > 0 {
      QuotientBounds(Sum(Caps(free, specs, c)), c.replicas);
    }
  }

  lemma QuotientStep(a: nat, b: nat)
    requires 0 < b <= a
    ensures (a - b) / b == a / b - 1
  {
    var q := a / b;
    QuotientGalois(a - b, b, q - 1);
    QuotientGalois(a - b, b, q);
    QuotientGalois(a, b, q);
    QuotientGalois(a, b, q + 1);
  }

  /** For any list the count never exceeds what one of its components allows on its own. */
  lemma {:induction false} CountWithinCapacity(
      free: seq<Quantities>, specs: seq<Option<NodeSpec>>, components: seq<Option<Component>>, bound: nat, k: nat)
    requires AreNodes(free) && |specs| == |free| && ValidComponents(components)
    requires k < |components| && components[k].Some?
    ensures |Simulate(free, specs, components, bound).packings| * components[k].value.replicas
      <= Sum(Caps(free, specs, components[k].value))
    decreases bound
  {
    var c := components[k].value;
    if bound > 0 {
      var a := AttemptSet(free, specs, components);
      if a.outcome == Complete {
        CountWithinCapacity(a.free, specs, components, bound - 1, k);
        SetUsesCapacity(free, specs, components, c);
        OneMoreSet(
          |Simulate(a.free, specs, components, bound - 1).packings|, c.replicas,
          Sum(Caps(a.free, specs, c)), Sum(Caps(free, specs, c)));
      }
    }
  }

  lemma OneMoreSet(sets: nat, replicas: nat, after: nat, before: nat)
    requires sets * replicas <= after && after + replicas <= before
    ensures (sets + 1) * replicas <= before
  {
  }

  /** A complete pass uses up at least the replicas of each of its components. */
  lemma {:induction false} SetUsesCapacity(
      free: seq<Quantities>, specs: seq<Option<NodeSpec>>, components: seq<Option<Component>>, c: Component)
    requires AreNodes(free) && |specs| == |free| && ValidComponents(components) && ValidComponent(c)
    requires AttemptSet(free, specs, components).outcome == Complete
    ensures Sum(Caps(AttemptSet(free, specs, components).free, specs, c))
      + (if Some(c) in components then c.replicas else 0) <= Sum(Caps(free, specs, c))
    decreases |components|
  {
    if components != [] {
      assert components == [components[0]] + components[1..];
      if components[0].None? {
        SetUsesCapacity(free, specs, components[1..], c);
      } else {
        var first := components[0].value;
        SetUsesCapacity(AfterComponent(free, specs, first), specs, components[1..], c);
        if first == c {
          CapsAfterComponent(free, specs, c);
        } else {
          CapsOnlyShrink(free, specs, first, c);
        }
      }
    }
  }

  /** What a packing takes from node `i` of resource `n`. */
  function Used(packing: seq<seq<nat>>, components: seq<Option<Component>>, i: nat, n: ResourceName): int
    requires |packing| <= |components|
  {
    if packing == [] then 0
    else
      (if components[0].Some? && i < |packing[0]| then Request(components[0].value).Of(n) * packing[0][i] else 0)
      + Used(packing[1..], components[1..], i, n)
  }

  function UsedByAll(packings: seq<seq<seq<nat>>>, components: seq<Option<Component>>, i: nat, n: ResourceName): int
    requires forall p <- packings :: |p| <= |components|
  {
    if packings == [] then 0
    else Used(packings[0], components, i, n) + UsedByAll(packings[1..], components, i, n)
  }

  /** A packing places every replica of every component, and only on nodes that match. */
  ghost predicate PlacesAll(
      packing: seq<seq<nat>>, specs: seq<Option<NodeSpec>>, components: seq<Option<Component>>)
  {
    && |packing| == |components|
    && forall k :: 0 <= k < |components| ==>
      && |packing[k]| == |specs|
      && Sum(packing[k]) == (if components[k].Some? then components[k].value.replicas else 0)
      && (forall i :: 0 <= i < |specs| && components[k].Some? && !MatchNode(specs[i], components[k].value)
           ==> packing[k][i] == 0)
  }

  lemma {:induction false} AttemptConserves(
      free: seq<Quantities>, specs: seq<Option<NodeSpec>>, components: seq<Option<Component>>)
    requires AreNodes(free) && |specs| == |free| && ValidComponents(components)
    ensures var a := AttemptSet(free, specs, components);
      && |a.packing| <= |components|
      && (a.outcome == Complete ==> PlacesAll(a.packing, specs, components))
      && forall i, n: ResourceName :: 0 <= i < |free| ==>
        free[i].Of(n) == a.free[i].Of(n) + Used(a.packing, components, i, n)
    decreases |components|
  {
    var a := AttemptSet(free, specs, components);
    if components != [] && components[0].None? {
      AttemptConserves(free, specs, components[1..]);
      var rest := AttemptSet(free, specs, components[1..]);
      assert a.packing[1..] == rest.packing;
      SumNowhere(|free|);
    } else if components != [] && Decodes(components[0].value) {
      var c := components[0].value;
      var counts, after := Placement(free, specs, c), AfterComponent(free, specs, c);
      forall i, n: ResourceName | 0 <= i < |free|
        ensures free[i].Of(n) == after[i].Of(n) + Request(c).Of(n) * counts[i]
      {
        RequestIsRequest(c);
        PlacementFits(free, specs, c, i);
        TakenQuantity(free[i], Request(c), counts[i], n);
      }
      forall i | 0 <= i < |free|
        ensures !MatchNode(specs[i], c) ==> counts[i] == 0
      {
        PlacementFits(free, specs, c, i);
      }
      if Scheduled(free, specs, c) {
        AttemptConserves(after, specs, components[1..]);
        var rest := AttemptSet(after, specs, components[1..]);
        assert a.packing[1..] == rest.packing && a.packing[0] == counts;
        GreedySum(Caps(free, specs, c), c.replicas);
      } else {
        assert a.packing[1..] == [] && a.packing[0] == counts;
      }
    }
  }

  lemma {:induction false} SumNowhere(nodes: nat)
    ensures Sum(Nowhere(nodes)) == 0
  {
    if nodes > 0 {
      assert Nowhere(nodes)[1..] == Nowhere(nodes - 1);
      SumNowhere(nodes - 1);
    }
  }

  /** The count is backed by a real packing. Each counted set places all replicas of all components on matching
      nodes, and on every node, in every resource, what was free at the start is what is left plus what was placed. */
  lemma {:induction false} SimulationConserves(
      free: seq<Quantities>, specs: seq<Option<NodeSpec>>, components: seq<Option<Component>>, bound: nat)
    requires AreNodes(free) && |specs| == |free| && ValidComponents(components)
    ensures var s := Simulate(free, specs, components, bound);
      && (forall p <- s.packings :: PlacesAll(p, specs, components))
      && |s.partial| <= |components|
      && AreNodes(s.free)
      && forall i, n: ResourceName :: 0 <= i < |free| ==>
        free[i].Of(n) == s.free[i].Of(n) + UsedByAll(s.packings, components, i, n) + Used(s.partial, components, i, n)
    decreases bound
  {
    if bound > 0 {
      var a, s := AttemptSet(free, specs, components), Simulate(free, specs, components, bound);
      AttemptConserves(free, specs, components);
      if a.outcome == Complete {
        SimulationConserves(a.free, specs, components, bound - 1);
        var rest := Simulate(a.free, specs, components, bound - 1);
        assert s.packings[0] == a.packing && s.packings[1..] == rest.packings;
      }
    }
  }

  /** `left` is what is free once the `sets` and the first `k` components of the `next` one are placed, and on it the
      component that follows has no placement. */
  ghost predicate Stuck(
      free: seq<Quantities>, specs: seq<Option<NodeSpec>>, components: seq<Option<Component>>,
      sets: seq<seq<seq<nat>>>, next: seq<seq<nat>>, k: nat, left: seq<Quantities>)
  {
    && |left| == |free| == |specs| && k < |components| && components[k].Some? && k <= |next|
    && (forall p <- sets :: |p| <= |components|)
    && PlacesAll(next[..k], specs, components[..k])
    && (forall i, n: ResourceName :: 0 <= i < |free| ==>
         free[i].Of(n) == left[i].Of(n) + UsedByAll(sets, components, i, n) + Used(next[..k], components, i, n))
    && forall counts :: !IsPlacement(left, specs, components[k].value, counts)
  }

  lemma {:induction false} AttemptStops(
      free: seq<Quantities>, specs: seq<Option<NodeSpec>>, components: seq<Option<Component>>)
    requires AreNodes(free) && |specs| == |free| && ValidComponents(components)
    requires AttemptSet(free, specs, components).outcome == Incomplete
    ensures exists k, left :: Stuck(free, specs, components, [], AttemptSet(free, specs, components).packing, k, left)
    decreases |components|
  {
    var a := AttemptSet(free, specs, components);
    if components[0].None? {
      AttemptStops(free, specs, components[1..]);
      var rest := AttemptSet(free, specs, components[1..]);
      var k: nat, left: seq<Quantities> :| Stuck(free, specs, components[1..], [], rest.packing, k, left);
      SumNowhere(|free|);
      OneMorePlaced(free, free, specs, components, Nowhere(|free|), rest.packing, k, left);
    } else {
      var c := components[0].value;
      if Scheduled(free, specs, c) {
        var after := AfterComponent(free, specs, c);
        AttemptStops(after, specs, components[1..]);
        var rest := AttemptSet(after, specs, components[1..]);
        var k: nat, left: seq<Quantities> :| Stuck(after, specs, components[1..], [], rest.packing, k, left);
        FirstTakes(free, specs, c);
        OneMorePlaced(free, after, specs, components, Placement(free, specs, c), rest.packing, k, left);
      } else {
        PlacementIsComplete(free, specs, c);
        assert Stuck(free, specs, components, [], a.packing, 0, free);
      }
    }
  }

  function TakenFor(c: Option<Component>, n: ResourceName, count: nat): int {
    if c.Some? then Request(c.value).Of(n) * count else 0
  }

  /** What is placed first comes on top of what is placed after it. */
  lemma OneMorePlaced(
      free: seq<Quantities>, after: seq<Quantities>, specs: seq<Option<NodeSpec>>, components: seq<Option<Component>>,
      counts: seq<nat>, packing: seq<seq<nat>>, k: nat, left: seq<Quantities>)
    requires components != [] && |free| == |after| == |counts|
    requires Stuck(after, specs, components[1..], [], packing, k, left)
    requires Sum(counts) == if components[0].Some? then components[0].value.replicas else 0
    requires forall i ::
      0 <= i < |free| && components[0].Some? && !MatchNode(specs[i], components[0].value) ==> counts[i] == 0
    requires forall i, n: ResourceName :: 0 <= i < |free| ==>
      free[i].Of(n) == after[i].Of(n) + TakenFor(components[0], n, counts[i])
    ensures Stuck(free, specs, components, [], [counts] + packing, k + 1, left)
  {
    var next := [counts] + packing;
    assert components[1..][k] == components[k + 1];
    OneMorePlacesAll(specs, components, counts, packing, k);
    forall i, n: ResourceName | 0 <= i < |free|
      ensures free[i].Of(n) == left[i].Of(n) + UsedByAll([], components, i, n) + Used(next[..k + 1], components, i, n)
    {
      OneMoreUsed(components, counts, packing, k, i, n);
      hide Used, TakenFor, PlacesAll, IsPlacement;
      assert free[i].Of(n) == after[i].Of(n) + TakenFor(components[0], n, counts[i]);
      assert after[i].Of(n) ==
        left[i].Of(n) + UsedByAll([], components[1..], i, n) + Used(packing[..k], components[1..], i, n);
    }
    hide Used, TakenFor, PlacesAll, IsPlacement, UsedByAll;
  }

  lemma OneMoreUsed(
      components: seq<Option<Component>>, counts: seq<nat>, packing: seq<seq<nat>>, k: nat, i: nat, n: ResourceName)
    requires k < |components| && k <= |packing| && i < |counts|
    ensures Used(([counts] + packing)[..k + 1], components, i, n) ==
      TakenFor(components[0], n, counts[i]) + Used(packing[..k], components[1..], i, n)
  {
    var head := ([counts] + packing)[..k + 1];
    assert head[0] == counts && head[1..] == packing[..k];
  }

  lemma OneMorePlacesAll(
      specs: seq<Option<NodeSpec>>, components: seq<Option<Component>>, counts: seq<nat>, packing: seq<seq<nat>>,
      k: nat)
    requires k < |components| && k <= |packing| && |counts| == |specs|
    requires PlacesAll(packing[..k], specs, components[1..][..k])
    requires Sum(counts) == if components[0].Some? then components[0].value.replicas else 0
    requires forall i ::
      0 <= i < |specs| && components[0].Some? && !MatchNode(specs[i], components[0].value) ==> counts[i] == 0
    ensures PlacesAll(([counts] + packing)[..k + 1], specs, components[..k + 1])
  {
    var head := ([counts] + packing)[..k + 1];
    forall j | 0 <= j < k + 1
      ensures head[j] == if j == 0 then counts else packing[..k][j - 1]
      ensures components[..k + 1][j] == if j == 0 then components[0] else components[1..][..k][j - 1]
    {
    }
    hide MatchNode, Sum;
  }

  /** A scheduled component is placed on matching nodes and taken from what is free. */
  lemma FirstTakes(free: seq<Quantities>, specs: seq<Option<NodeSpec>>, c: Component)
    requires AreNodes(free) && |specs| == |free| && ValidComponent(c) && Scheduled(free, specs, c)
    ensures var counts, after := Placement(free, specs, c), AfterComponent(free, specs, c);
      && Sum(counts) == c.replicas
      && (forall i :: 0 <= i < |free| && !MatchNode(specs[i], c) ==> counts[i] == 0)
      && forall i, n: ResourceName :: 0 <= i < |free| ==> free[i].Of(n) == after[i].Of(n) + Request(c).Of(n) * counts[i]
  {
    var counts := Placement(free, specs, c);
    FirstFitIsPlacement(free, specs, c);
    forall i, n: ResourceName | 0 <= i < |free|
      ensures free[i].Of(n) == AfterComponent(free, specs, c)[i].Of(n) + Request(c).Of(n) * counts[i]
    {
      RequestIsRequest(c);
      PlacementFits(free, specs, c, i);
      TakenQuantity(free[i], Request(c), counts[i], n);
    }
  }

  /** Why the count stops: if it is below the bound and nothing failed, then once the counted sets and some components
      of the next one are placed, the component that follows has no placement at all on what is left. */
  lemma {:induction false} CountStops(
      free: seq<Quantities>, specs: seq<Option<NodeSpec>>, components: seq<Option<Component>>, bound: nat)
    requires AreNodes(free) && |specs| == |free| && ValidComponents(components)
    ensures var s := Simulate(free, specs, components, bound);
      |s.packings| < bound && !s.failed ==>
        exists k, left :: Stuck(free, specs, components, s.packings, s.partial, k, left)
    decreases bound
  {
    var s := Simulate(free, specs, components, bound);
    if |s.packings| < bound && !s.failed {
      var a := AttemptSet(free, specs, components);
      if a.outcome == Complete {
        CountStops(a.free, specs, components, bound - 1);
        AttemptConserves(free, specs, components);
        var rest := Simulate(a.free, specs, components, bound - 1);
        var k: nat, left: seq<Quantities> :| Stuck(a.free, specs, components, rest.packings, rest.partial, k, left);
        assert s.packings[0] == a.packing && s.packings[1..] == rest.packings;
        assert Stuck(free, specs, components, s.packings, s.partial, k, left);
      } else {
        AttemptStops(free, specs, components);
      }
    }
  }

  /** So no node is ever asked for more than it had. */
  lemma PackingFitsNodes(
      free: seq<Quantities>, specs: seq<Option<NodeSpec>>, components: seq<Option<Component>>, bound: nat,
      i: nat, n: ResourceName)
    requires AreNodes(free) && |specs| == |free| && ValidComponents(components) && i < |free|
    ensures var s := Simulate(free, specs, components, bound);
      && (forall p <- s.packings :: |p| <= |components|)
      && UsedByAll(s.packings, components, i, n) <= free[i].Of(n)
  {
    SimulationConserves(free, specs, components, bound);
    var s := Simulate(free, specs, components, bound);
    AttemptUsesNonNegative(s.partial, components, i, n);
    assert 0 <= s.free[i].Of(n);
  }

  lemma {:induction false} AttemptUsesNonNegative(
      packing: seq<seq<nat>>, components: seq<Option<Component>>, i: nat, n: ResourceName)
    requires |packing| <= |components| && ValidComponents(components)
    ensures Used(packing, components, i, n) >= 0
  {
    if packing != [] {
      AttemptUsesNonNegative(packing[1..], components[1..], i, n);
      if components[0].Some? && i < |packing[0]| {
        RequestIsRequest(components[0].value);
        assert Request(components[0].value).Of(n) >= 0;
      }
    }
  }

  // The same in the terms of the input: the list, the affinity and the tolerations that a component brings

  /** One node takes `k` replicas: it has as many pods and `k` times every listed quantity, and if it is to take any,
      the component's affinity and tolerations admit it. */
  ghost predicate OnNode(free: Quantities, spec: Option<NodeSpec>, c: Component, k: nat) {
    && k <= free.allowedPodNumber
    && (c.requirements.Some? && c.requirements.value.Requirements? ==>
         forall n <- c.requirements.value.resources :: !n.Pods? && (n.Other? ==> n.scalar) ==>
           c.requirements.value.resources[n] * k <= free.Of(n))
    && (k > 0 && spec.Some? ==>
         match c.requirements
         case None => !spec.value.unschedulable && spec.value.taints == {}
         case Some(Undecodable) => false
         case Some(Requirements(_, affinity, tolerates)) => affinity(spec.value) && tolerates(spec.value))
  }

  /** A way to put `want` replicas on the nodes. */
  ghost predicate OnNodes(
      free: seq<Quantities>, specs: seq<Option<NodeSpec>>, c: Component, counts: seq<nat>, want: nat)
  {
    && |counts| == |free| == |specs| && Sum(counts) == want
    && forall i :: 0 <= i < |free| ==> OnNode(free[i], specs[i], c, counts[i])
  }

  lemma OnNodeFits(free: Quantities, c: Component, k: nat)
    requires IsNode(free) && ValidComponent(c)
    ensures Fits(free, Request(c), k) <==>
      && k <= free.allowedPodNumber
      && (c.requirements.Some? && c.requirements.value.Requirements? ==>
           forall n <- c.requirements.value.resources :: !n.Pods? && (n.Other? ==> n.scalar) ==>
             c.requirements.value.resources[n] * k <= free.Of(n))
  {
    forall n: ResourceName
      ensures 0 <= free.Of(n)
      ensures Request(c).Of(n) * k <= free.Of(n) <==>
        if n.Pods? then k <= free.allowedPodNumber
        else if c.requirements.Some? && c.requirements.value.Requirements? && n in c.requirements.value.resources then
          (n.Other? ==> n.scalar) ==> c.requirements.value.resources[n] * k <= free.Of(n)
        else true
    {
      RequestMeans(c, n);
    }
    hide Request;
    assert Fits(free, Request(c), k) ==> Request(c).Of(Pods) * k <= free.Of(Pods);
  }

  lemma OnNodeWithinCap(free: Quantities, spec: Option<NodeSpec>, c: Component, k: nat)
    requires IsNode(free) && ValidComponent(c) && Decodes(c)
    ensures OnNode(free, spec, c, k) <==>
      k <= if MatchNode(spec, c) then RequestIsRequest(c); Capacity(free, Request(c)) else 0
  {
    RequestIsRequest(c);
    MatchNodeMeans(spec, c);
    OnNodeFits(free, c, k);
    FitsNone(free, Request(c));
  }

  lemma OnNodesExactly(free: seq<Quantities>, specs: seq<Option<NodeSpec>>, c: Component, want: nat)
    requires AreNodes(free) && |specs| == |free| && ValidComponent(c) && Decodes(c)
    ensures want <= Sum(Caps(free, specs, c)) <==> exists counts :: OnNodes(free, specs, c, counts, want)
  {
    var caps := Caps(free, specs, c);
    if want <= Sum(caps) {
      var counts := Greedy(caps, want);
      GreedySum(caps, want);
      forall i | 0 <= i < |free|
        ensures OnNode(free[i], specs[i], c, counts[i])
      {
        GreedyWithin(caps, want, i);
        OnNodeWithinCap(free[i], specs[i], c, counts[i]);
      }
      assert OnNodes(free, specs, c, counts, want);
    }
    forall counts | OnNodes(free, specs, c, counts, want)
      ensures want <= Sum(caps)
    {
      forall i | 0 <= i < |free|
        ensures counts[i] <= caps[i]
      {
        OnNodeWithinCap(free[i], specs[i], c, counts[i]);
      }
      SumMonotone(counts, caps);
    }
  }

  /** What the count of one component means: it is at least `m` exactly if the bound allows `m` and there is a way to
      put the replicas of `m` sets on the nodes. */
  lemma CountIsWhatFits(
      free: seq<Quantities>, specs: seq<Option<NodeSpec>>, c: Component, bound: nat, m: nat)
    requires AreNodes(free) && |specs| == |free| && ValidComponent(c) && Decodes(c) && c.replicas > 0
    ensures m <= |Simulate(free, specs, [Some(c)], bound).packings| <==>
      m <= bound && exists counts :: OnNodes(free, specs, c, counts, m * c.replicas)
  {
    var caps := Sum(Caps(free, specs, c));
    SingleComponentCount(free, specs, c, bound);
    QuotientGalois(caps, c.replicas, m);
    MulNonNegative(m, c.replicas);
    OnNodesExactly(free, specs, c, m * c.replicas);
  }

  /** A placement in the terms of the specification is one in the terms of the input. */
  lemma PlacementIsOnNodes(free: seq<Quantities>, specs: seq<Option<NodeSpec>>, c: Component, counts: seq<nat>)
    requires AreNodes(free) && |specs| == |free| && ValidComponent(c) && Decodes(c)
    ensures IsPlacement(free, specs, c, counts) <==> c.replicas >= 0 && OnNodes(free, specs, c, counts, c.replicas)
  {
    if |counts| == |free| {
      forall i | 0 <= i < |free|
        ensures OnNode(free[i], specs[i], c, counts[i]) <==>
          Fits(free[i], Request(c), counts[i]) && (!MatchNode(specs[i], c) ==> counts[i] == 0)
      {
        OnNodeFits(free[i], c, counts[i]);
        MatchNodeMeans(specs[i], c);
      }
    }
  }

  /** What replicas take from a node under a name: the listed quantity each, and one pod each. */
  function Asked(c: Option<Component>, n: ResourceName): int {
    if c.None? then 0
    else if n.Pods? then 1
    else
      match c.value.requirements
      case Some(Requirements(resources, _, _)) => if n in resources && (n.Other? ==> n.scalar) then resources[n] else 0
      case _ => 0
  }

  function Given(packing: seq<seq<nat>>, components: seq<Option<Component>>, i: nat, n: ResourceName): int
    requires |packing| <= |components|
  {
    if packing == [] then 0
    else
      (if i < |packing[0]| then Asked(components[0], n) * packing[0][i] else 0)
      + Given(packing[1..], components[1..], i, n)
  }

  function GivenToAll(packings: seq<seq<seq<nat>>>, components: seq<Option<Component>>, i: nat, n: ResourceName): int
    requires forall p <- packings :: |p| <= |components|
  {
    if packings == [] then 0
    else Given(packings[0], components, i, n) + GivenToAll(packings[1..], components, i, n)
  }

  lemma {:induction false} UsedIsGiven(
      packing: seq<seq<nat>>, components: seq<Option<Component>>, i: nat, n: ResourceName)
    requires |packing| <= |components|
    ensures Used(packing, components, i, n) == Given(packing, components, i, n)
  {
    if packing != [] {
      if components[0].Some? {
        RequestMeans(components[0].value, n);
      }
      UsedIsGiven(packing[1..], components[1..], i, n);
    }
  }

  lemma {:induction false} UsedByAllIsGiven(
      packings: seq<seq<seq<nat>>>, components: seq<Option<Component>>, i: nat, n: ResourceName)
    requires forall p <- packings :: |p| <= |components|
    ensures UsedByAll(packings, components, i, n) == GivenToAll(packings, components, i, n)
  {
    if packings != [] {
      UsedIsGiven(packings[0], components, i, n);
      UsedByAllIsGiven(packings[1..], components, i, n);
    }
  }

  /** Conservation in the terms of the input: each node gives, for each replica that is put on it, what the component
      lists under the name. */
  lemma NodesGiveWhatIsListed(
      free: seq<Quantities>, specs: seq<Option<NodeSpec>>, components: seq<Option<Component>>, bound: nat)
    requires AreNodes(free) && |specs| == |free| && ValidComponents(components)
    ensures var s := Simulate(free, specs, components, bound);
      && (forall p <- s.packings :: |p| == |components|) && |s.partial| <= |components|
      && (forall i, n: ResourceName :: 0 <= i < |free| ==>
           free[i].Of(n) ==
             s.free[i].Of(n) + GivenToAll(s.packings, components, i, n) + Given(s.partial, components, i, n))
  {
    var s := Simulate(free, specs, components, bound);
    SimulationConserves(free, specs, components, bound);
    forall i, n: ResourceName | 0 <= i < |free|
      ensures free[i].Of(n) ==
        s.free[i].Of(n) + GivenToAll(s.packings, components, i, n) + Given(s.partial, components, i, n)
    {
      UsedByAllIsGiven(s.packings, components, i, n);
      UsedIsGiven(s.partial, components, i, n);
    }
  }

  /** Each counted set puts all replicas of a component on the nodes, and only on those which its affinity and
      tolerations admit. */
  lemma SetsGoWhereAdmitted(
      free: seq<Quantities>, specs: seq<Option<NodeSpec>>, components: seq<Option<Component>>, bound: nat,
      p: seq<seq<nat>>, k: nat, i: nat)
    requires AreNodes(free) && |specs| == |free| && ValidComponents(components)
    requires p in Simulate(free, specs, components, bound).packings && k < |components| && i < |free|
    ensures |p| == |components| && |p[k]| == |free|
    ensures Sum(p[k]) == if components[k].Some? then components[k].value.replicas else 0
    ensures components[k].Some? && specs[i].Some? && p[k][i] > 0 ==>
      match components[k].value.requirements
      case None => !specs[i].value.unschedulable && specs[i].value.taints == {}
      case Some(Undecodable) => false
      case Some(Requirements(_, affinity, tolerates)) => affinity(specs[i].value) && tolerates(specs[i].value)
  {
    SimulationConserves(free, specs, components, bound);
    assert PlacesAll(p, specs, components);
    if components[k].Some? {
      MatchNodeMeans(specs[i], components[k].value);
    }
  }

  /** An error means that some component cannot be decoded, and without a set to look at there is none. */
  lemma {:induction false} ErrorMeansUndecodable(
      free: seq<Quantities>, specs: seq<Option<NodeSpec>>, components: seq<Option<Component>>, bound: nat)
    requires AreNodes(free) && |specs| == |free| && ValidComponents(components)
    ensures Simulate(free, specs, components, bound).failed ==>
      bound > 0 && exists c :: Some(c) in components && c.requirements == Some(Undecodable)
    ensures bound > 0 && components != [] && components[0].Some? ==>
      components[0].value.requirements == Some(Undecodable) ==> Simulate(free, specs, components, bound).failed
    decreases bound
  {
    if bound > 0 {
      var a := AttemptSet(free, specs, components);
      AttemptFailsAt(free, specs, components);
      if a.outcome == Complete {
        ErrorMeansUndecodable(a.free, specs, components, bound - 1);
      }
    }
  }

  lemma {:induction false} AttemptFailsAt(
      free: seq<Quantities>, specs: seq<Option<NodeSpec>>, components: seq<Option<Component>>)
    requires AreNodes(free) && |specs| == |free| && ValidComponents(components)
    ensures AttemptSet(free, specs, components).outcome == Failed ==>
      exists c :: Some(c) in components && c.requirements == Some(Undecodable)
    decreases |components|
  {
    if components != [] {
      assert components == [components[0]] + components[1..];
      if components[0].None? {
        AttemptFailsAt(free, specs, components[1..]);
      } else if Decodes(components[0].value) {
        AttemptFailsAt(AfterComponent(free, specs, components[0].value), specs, components[1..]);
      } else {
        assert Some(components[0].value) in components;
      }
    }
  }
}
