/** The simulator itself: nodes whose free resources are consumed in place. */
module SchedulingSimulators {
  import opened FixedWidth
  import opened Resources
  import opened Capacities
  import opened FirstFit
  import opened Wrappers

  datatype Result<T> = Ok(value: T) | Err

  class NodeInfo {
    const node: Option<NodeSpec>
    const allocatable: Resource

    constructor (node: Option<NodeSpec>, allocatable: Resource)
      ensures this.node == node && this.allocatable == allocatable
    {
      this.node, this.allocatable := node, allocatable;
    }
  }

  lemma MinusNothing(r: Quantities, q: Quantities)
    ensures Minus(r, q, 0) == r
  {
    assert Minus(r, q, 0).scalarResources == r.scalarResources;
  }

  /** The list of a request names every positive entry, and nothing else. */
  lemma PositiveEntries(q: Quantities, rl: ResourceList)
    requires IsRequest(q)
    requires rl.Keys == set n | n in {CPU, Memory, EphemeralStorage, Pods} + q.scalarResources.Keys && q.Of(n) > 0
    ensures forall n: ResourceName :: q.Of(n) > 0 ==> n in rl
  {
  }

  /** Within the capacity no product leaves 64 bits, and no difference is clamped at zero. */
  lemma TakingIsExact(r: Quantities, q: Quantities, k: nat, n: ResourceName)
    requires IsNode(r) && IsRequest(q) && Fits(r, q, k)
    ensures Wrap64(q.Of(n) * k) == q.Of(n) * k
    ensures ClampedDifference(r.Of(n), q.Of(n) * k) == r.Of(n) - q.Of(n) * k == Minus(r, q, k).Of(n)
  {
    TakenQuantity(r, q, k, n);
    assert 0 <= q.Of(n) && q.Of(n) * k <= r.Of(n) <= MAX_INT64;
    MulNonNegative(q.Of(n), k);
  }

  /** The replicas a node has room for. */
  method Room(node: NodeInfo, requiredPerReplica: Resource) returns (k: Int64)
    requires IsNode(node.allocatable.Value()) && IsRequest(requiredPerReplica.Value())
    ensures k == Capacity(node.allocatable.Value(), requiredPerReplica.Value())
  {
    var rl := requiredPerReplica.ResourceList();
    k := node.allocatable.MaxDivided(rl);
    PositiveEntries(requiredPerReplica.Value(), rl);
    MaxDividedIsCapacity(node.allocatable.Value(), requiredPerReplica.Value(), rl, k);
  }

  /** Takes `k` replicas from a node. */
  method Take(node: NodeInfo, requiredPerReplica: Resource, k: Int64)
    requires node.allocatable != requiredPerReplica
    requires IsNode(node.allocatable.Value()) && IsRequest(requiredPerReplica.Value())
    requires 0 <= k && Fits(node.allocatable.Value(), requiredPerReplica.Value(), k)
    modifies node.allocatable
    ensures node.allocatable.Value() == Minus(old(node.allocatable.Value()), requiredPerReplica.Value(), k)
  {
    ghost var r, q := node.allocatable.Value(), requiredPerReplica.Value();
    var total := requiredPerReplica.Clone();
    total.Multiply(k);
    forall n: ResourceName
      ensures (n.Other? && !n.scalar ==> total.Value().Of(n) == 0) && total.Value().Of(n) == q.Of(n) * k
    {
      TakingIsExact(r, q, k, n);
    }
    node.allocatable.SubResource(total);
    forall n: ResourceName
      ensures node.allocatable.Value().Of(n) == Minus(r, q, k).Of(n)
    {
      TakingIsExact(r, q, k, n);
    }
    SameQuantities(node.allocatable.Value(), Minus(r, q, k));
  }

  /** One turn of the loop over the nodes; 0 where the loop continues early. */
  method PlaceOn(node: NodeInfo, c: Component, requiredPerReplica: Resource, remaining: Int32)
    returns (share: Int64)
    requires ValidComponent(c) && IsRequest(Request(c)) && requiredPerReplica.Value() == Request(c)
    requires node.allocatable != requiredPerReplica && IsNode(node.allocatable.Value()) && 0 <= remaining
    modifies node.allocatable
    ensures share ==
      if MatchNode(node.node, c) then Min(Capacity(old(node.allocatable.Value()), Request(c)), remaining) else 0
    ensures node.allocatable.Value() == Minus(old(node.allocatable.Value()), Request(c), share)
  {
    MinusNothing(node.allocatable.Value(), Request(c));
    if !MatchNode(node.node, c) {
      return 0;
    }
    share := Room(node, requiredPerReplica);
    if share == 0 {
      return 0;
    }
    if remaining < share {
      share := remaining;
    }
    Take(node, requiredPerReplica, share);
  }

  /** A simulation that continues after some complete sets. */
  function Prefixed(done: seq<seq<seq<nat>>>, s: Simulation): Simulation {
    s.(packings := done + s.packings)
  }

  class SchedulingSimulator {
    const nodes: seq<NodeInfo>

    constructor (nodes: seq<NodeInfo>)
      ensures this.nodes == nodes
    {
      this.nodes := nodes;
    }

    ghost function Footprint(): set<Resource> {
      set i | 0 <= i < |nodes| :: nodes[i].allocatable
    }

    ghost predicate DistinctNodes() {
      forall i, j :: 0 <= i < j < |nodes| ==> nodes[i].allocatable != nodes[j].allocatable
    }

    /** No two nodes share their resources, and no quantity is negative. */
    ghost predicate Valid()
      reads Footprint()
    {
      DistinctNodes() && AreNodes(Free())
    }

    ghost function Free(): (free: seq<Quantities>)
      reads Footprint()
      ensures |free| == |nodes|
    {
      seq(|nodes|, i requires 0 <= i < |nodes| reads Footprint() => nodes[i].allocatable.Value())
    }

    ghost function Specs(): (specs: seq<Option<NodeSpec>>)
      ensures |specs| == |nodes|
    {
      seq(|nodes|, i requires 0 <= i < |nodes| => nodes[i].node)
    }

    /** The count, or the decoding error. First fit is specified by `FirstFit.Simulate`. */
    method SimulateScheduling(components: seq<Option<Component>>, upperBound: Int32) returns (r: Result<Int32>)
      requires Valid() && ValidComponents(components)
      modifies Footprint()
      ensures Valid()
      ensures var s := Simulate(old(Free()), Specs(), components, Max(upperBound, 0));
        && Free() == s.free
        && r == if s.failed then Err else Ok(|s.packings|)
    {
      hide AttemptSet, AreNodes, IsNode, ValidComponents;
      var completeSets: Int32 := 0;
      ghost var bound: nat := Max(upperBound, 0);
      ghost var whole := Simulate(Free(), Specs(), components, bound);
      ghost var done: seq<seq<seq<nat>>> := [];
      while completeSets < upperBound
        invariant Valid()
        invariant 0 <= completeSets <= bound && |done| == completeSets
        invariant Prefixed(done, Simulate(Free(), Specs(), components, bound - completeSets)) == whole
      {
        ghost var a := AttemptSet(Free(), Specs(), components);
        ghost var rest := Simulate(Free(), Specs(), components, bound - completeSets);
        var set_ := ScheduleComponentSet(components);
        if set_.Err? {
          return Err;
        }
        if !set_.value {
          break;
        }
        assert rest.packings == [a.packing] + rest.packings[1..];
        assert done + rest.packings == (done + [a.packing]) + rest.packings[1..];
        completeSets := completeSets + 1;
        done := done + [a.packing];
      }
      return Ok(completeSets);
    }

    method ScheduleComponentSet(components: seq<Option<Component>>) returns (r: Result<bool>)
      requires Valid() && ValidComponents(components)
      modifies Footprint()
      ensures Valid()
      ensures var a := AttemptSet(old(Free()), Specs(), components);
        && Free() == a.free
        && r == match a.outcome { case Complete => Ok(true) case Incomplete => Ok(false) case Failed => Err }
    {
      ghost var whole := AttemptSet(Free(), Specs(), components);
      for i := 0 to |components|
        invariant Valid()
        invariant AttemptSet(Free(), Specs(), components[i..]).free == whole.free
        invariant AttemptSet(Free(), Specs(), components[i..]).outcome == whole.outcome
      {
        assert components[i..][1..] == components[i + 1..];
        var one := ScheduleComponent(components[i]);
        if one.Err? {
          return Err;
        }
        if !one.value {
          return Ok(false);
        }
      }
      return Ok(true);
    }

    /** The nodes in the middle of placing `c`: the first ones have given `taken`, the others are untouched. */
    ghost predicate Placing(free: seq<Quantities>, c: Component, taken: seq<nat>)
      requires |free| == |nodes|
      reads Footprint()
    {
      && |taken| <= |nodes|
      && (forall j :: 0 <= j < |taken| ==> nodes[j].allocatable.Value() == Minus(free[j], Request(c), taken[j]))
      && (forall j :: |taken| <= j < |nodes| ==> nodes[j].allocatable.Value() == free[j])
    }

    lemma NothingPlaced(c: Component)
      requires Valid() && ValidComponent(c)
      ensures AreNodes(Free()) && c.replicas >= 0 && Placing(Free(), c, [])
      ensures GreedySoFar(Caps(Free(), Specs(), c), c.replicas, Placement(Free(), Specs(), c), [], c.replicas)
    {
      assert Caps(Free(), Specs(), c)[0..] == Caps(Free(), Specs(), c);
    }

    /** The loop may stop once nothing is wanted or no node is left. */
    lemma Placed(free: seq<Quantities>, c: Component, taken: seq<nat>, remaining: nat)
      requires |free| == |nodes| && AreNodes(free) && ValidComponent(c)
      requires Placing(free, c, taken)
      requires GreedySoFar(Caps(free, Specs(), c), c.replicas, Placement(free, Specs(), c), taken, remaining)
      requires remaining == 0 || |taken| == |nodes|
      ensures Free() == AfterComponent(free, Specs(), c) && AreNodes(Free())
      ensures remaining == 0 <==> Scheduled(free, Specs(), c)
    {
      var counts := Placement(free, Specs(), c);
      if remaining == 0 {
        GreedyNothing(Caps(free, Specs(), c)[|taken|..]);
      }
      forall j | 0 <= j < |nodes|
        ensures Free()[j] == Minus(free[j], Request(c), counts[j])
      {
        MinusNothing(free[j], Request(c));
      }
      assert Free() == Consume(free, Request(c), counts);
    }

    method ScheduleComponent(component: Option<Component>) returns (r: Result<bool>)
      requires Valid() && (component.Some? ==> ValidComponent(component.value))
      modifies Footprint()
      ensures Valid()
      ensures component.None? ==> r == Ok(true) && Free() == old(Free())
      ensures component.Some? && !Decodes(component.value) ==> r == Err && Free() == old(Free())
      ensures component.Some? && Decodes(component.value) ==>
        && r == Ok(Scheduled(old(Free()), Specs(), component.value))
        && Free() == AfterComponent(old(Free()), Specs(), component.value)
    {
      if component.None? {
        return Ok(true);
      }
      var c := component.value;
      if c.requirements.Some? && c.requirements.value.Undecodable? {
        return Err;
      }
      var requiredPerReplica := new Resource.FromList(Requested(c));
      requiredPerReplica.allowedPodNumber := 1;
      assert requiredPerReplica.Value() == Request(c);
      assert Free() == old(Free());
      var placed := PlaceReplicas(c, requiredPerReplica);
      return Ok(placed);
    }

    /** One turn of the loop, on the first node that has not been asked yet. */
    method PlaceNext(
        c: Component, requiredPerReplica: Resource, remaining: Int32,
        ghost free: seq<Quantities>, ghost taken: seq<nat>, i: nat)
      returns (share: Int64)
      requires DistinctNodes() && |free| == |nodes| && AreNodes(free) && ValidComponent(c)
      requires i == |taken| < |nodes| && Placing(free, c, taken) && 0 <= remaining
      requires requiredPerReplica !in Footprint() && requiredPerReplica.Value() == Request(c)
      modifies nodes[i].allocatable
      ensures share == Min(Caps(free, Specs(), c)[i], remaining)
      ensures Placing(free, c, taken + [share])
    {
      RequestIsRequest(c);
      share := PlaceOn(nodes[i], c, requiredPerReplica, remaining);
    }

    /** The loop over the nodes. */
    method PlaceReplicas(c: Component, requiredPerReplica: Resource) returns (placed: bool)
      requires Valid() && ValidComponent(c)
      requires requiredPerReplica !in Footprint() && requiredPerReplica.Value() == Request(c)
      modifies Footprint()
      ensures Valid()
      ensures placed == Scheduled(old(Free()), Specs(), c)
      ensures Free() == AfterComponent(old(Free()), Specs(), c)
    {
      hide Caps, Placement, AfterComponent, Scheduled, Request, Placing, GreedySoFar, AreNodes, IsNode;
      var remaining: Int32 := c.replicas;
      ghost var free, caps := Free(), Caps(Free(), Specs(), c);
      ghost var counts := Placement(free, Specs(), c);
      ghost var taken: seq<nat> := [];
      NothingPlaced(c);
      for i := 0 to |nodes|
        invariant requiredPerReplica.Value() == Request(c)
        invariant 0 <= remaining && |taken| == i && Placing(free, c, taken)
        invariant GreedySoFar(caps, c.replicas, counts, taken, remaining)
      {
        var share := PlaceNext(c, requiredPerReplica, remaining, free, taken, i);
        GreedyStep(caps, c.replicas, counts, taken, remaining, share);
        remaining := remaining - Wrap32(share);
        taken := taken + [share];
        if remaining == 0 {
          Placed(free, c, taken, remaining);
          return true;
        }
      }
      Placed(free, c, taken, remaining);
      return remaining == 0;
    }
  }
}
