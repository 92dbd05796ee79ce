/** What first-fit packing does to a list of nodes (pkg/estimator/scheduling_simulator_components.go). */
module FirstFit {
  import opened FixedWidth
  import opened Wrappers
  import opened Resources
  import opened Capacities

  datatype NodeSpec = NodeSpec(labels: map<string, string>, taints: set<string>, unschedulable: bool)

  /** Requirements whose encoded parts have been decoded, or could not be. */
  datatype Requirements =
    | Undecodable
    | Requirements(resources: ResourceList, affinity: NodeSpec -> bool, tolerates: NodeSpec -> bool)

  datatype Component = Component(replicas: Int32, requirements: Option<Requirements>)

  function Requested(c: Component): ResourceList {
    match c.requirements
    case Some(Requirements(rl, _, _)) => rl
    case _ => map[]
  }

  /** The request of one replica: whatever the list says about pods, a replica is one pod. */
  function Request(c: Component): Quantities {
    Listed(Requested(c)).(allowedPodNumber := 1)
  }

  predicate Decodes(c: Component) {
    c.requirements.Some? ==> c.requirements.value.Requirements?
  }

  /** `MatchNode`. Without requirements every affinity matches and no taint is tolerated. `taints` holds those only
      that forbid scheduling or execution; the others play no part. */
  predicate MatchNode(node: Option<NodeSpec>, c: Component) {
    node.Some? ==>
      match c.requirements
      case None => !node.value.unschedulable && node.value.taints == {}
      case Some(Undecodable) => false
      case Some(Requirements(_, affinity, tolerates)) => affinity(node.value) && tolerates(node.value)
  }

  /** What one replica asks for, read off the component's own list: its entry under every recognised name, one pod
      whatever is listed, and nothing else. */
  lemma RequestMeans(c: Component, n: ResourceName)
    ensures n.Pods? ==> Request(c).Of(n) == 1
    ensures c.requirements.Some? && c.requirements.value.Requirements? && !n.Pods? ==>
      Request(c).Of(n) ==
        if n in c.requirements.value.resources && (n.Other? ==> n.scalar) then c.requirements.value.resources[n] else 0
    ensures !(c.requirements.Some? && c.requirements.value.Requirements?) && !n.Pods? ==> Request(c).Of(n) == 0
  {
  }

  /** Which nodes may take replicas: those that the component's own affinity and tolerations admit; without
      requirements those that are schedulable and free of taints; and any without a node object. */
  lemma MatchNodeMeans(node: Option<NodeSpec>, c: Component)
    ensures node.None? ==> MatchNode(node, c)
    ensures node.Some? && c.requirements.Some? && c.requirements.value.Requirements? ==>
      (MatchNode(node, c) <==>
        c.requirements.value.affinity(node.value) && c.requirements.value.tolerates(node.value))
    ensures node.Some? && c.requirements.None? ==>
      (MatchNode(node, c) <==> !node.value.unschedulable && node.value.taints == {})
  {
  }

  /** Replicas and requests are nonnegative, as the estimator's clients send them. */
  predicate ValidComponent(c: Component) {
    c.replicas >= 0 && forall n <- Requested(c) :: Requested(c)[n] >= 0
  }

  predicate ValidComponents(components: seq<Option<Component>>) {
    forall i :: 0 <= i < |components| && components[i].Some? ==> ValidComponent(components[i].value)
  }

  ghost predicate AreNodes(free: seq<Quantities>) {
    forall i :: 0 <= i < |free| ==> IsNode(free[i])
  }

  lemma RequestIsRequest(c: Component)
    requires ValidComponent(c)
    ensures IsRequest(Request(c))
  {
    forall n: ResourceName
      ensures 0 <= Request(c).Of(n) <= MAX_INT64
    {
    }
  }

  function Sum(counts: seq<nat>): nat {
    if counts == [] then 0 else counts[0] + Sum(counts[1..])
  }

  lemma {:induction false} SumAt(counts: seq<nat>, i: nat)
    requires i < |counts|
    ensures counts[i] <= Sum(counts)
  {
    if i > 0 {
      SumAt(counts[1..], i - 1);
    }
  }

  /** How many replicas of `c` each node could take on its own. */
  ghost function Caps(free: seq<Quantities>, specs: seq<Option<NodeSpec>>, c: Component): (caps: seq<nat>)
    requires AreNodes(free) && |specs| == |free| && ValidComponent(c)
    ensures |caps| == |free|
  {
    RequestIsRequest(c);
    seq(|free|, i requires 0 <= i < |free| =>
      if MatchNode(specs[i], c) then Capacity(free[i], Request(c)) else 0)
  }

  /** First fit: every node takes as much as it can of what is still wanted. */
  function Greedy(caps: seq<nat>, want: nat): (counts: seq<nat>)
    ensures |counts| == |caps|
  {
    if caps == [] then []
    else
      var take := Min(caps[0], want);
      [take] + Greedy(caps[1..], want - take)
  }

  lemma {:induction false} GreedySum(caps: seq<nat>, want: nat)
    ensures Sum(Greedy(caps, want)) == Min(Sum(caps), want)
  {
    if caps != [] {
      var take := Min(caps[0], want);
      GreedySum(caps[1..], want - take);
      assert Greedy(caps, want)[1..] == Greedy(caps[1..], want - take);
    }
  }

  lemma {:induction false} GreedyWithin(caps: seq<nat>, want: nat, i: nat)
    requires i < |caps|
    ensures Greedy(caps, want)[i] <= caps[i]
  {
    if i > 0 {
      GreedyWithin(caps[1..], want - Min(caps[0], want), i - 1);
    }
  }

  function Nowhere(nodes: nat): seq<nat> {
    seq(nodes, _ => 0)
  }

  lemma {:induction false} GreedyNothing(caps: seq<nat>)
    ensures Greedy(caps, 0) == Nowhere(|caps|)
  {
    if caps != [] {
      GreedyNothing(caps[1..]);
    }
  }

  /** First fit after the first `|taken|` nodes, with `remaining` replicas still wanted. */
  ghost predicate GreedySoFar(caps: seq<nat>, want: nat, counts: seq<nat>, taken: seq<nat>, remaining: nat) {
    && |taken| <= |caps|
    && counts == taken + Greedy(caps[|taken|..], remaining)
    && (Sum(caps) >= want <==> Sum(caps[|taken|..]) >= remaining)
  }

  lemma GreedyStep(caps: seq<nat>, want: nat, counts: seq<nat>, taken: seq<nat>, remaining: nat, take: nat)
    requires GreedySoFar(caps, want, counts, taken, remaining) && |taken| < |caps|
    requires take == Min(caps[|taken|], remaining)
    ensures GreedySoFar(caps, want, counts, taken + [take], remaining - take)
  {
    var rest, more := caps[|taken|..], caps[|taken| + 1..];
    assert rest == [caps[|taken|]] + more;
    GreedyUnfold(caps[|taken|], more, remaining);
    assert taken + ([take] + Greedy(more, remaining - take)) == (taken + [take]) + Greedy(more, remaining - take);
  }

  lemma GreedyUnfold(first: nat, more: seq<nat>, want: nat)
    ensures var take := Min(first, want);
      Greedy([first] + more, want) == [take] + Greedy(more, want - take)
    ensures Sum([first] + more) == first + Sum(more)
  {
    assert ([first] + more)[1..] == more;
  }

  /** The nodes once `counts[i]` copies of `q` are taken from each. */
  ghost function Consume(free: seq<Quantities>, q: Quantities, counts: seq<nat>): seq<Quantities>
    requires |counts| == |free|
  {
    seq(|free|, i requires 0 <= i < |free| => Minus(free[i], q, counts[i]))
  }

  /** The counts that first fit gives to the replicas of one component. */
  ghost function Placement(free: seq<Quantities>, specs: seq<Option<NodeSpec>>, c: Component): (counts: seq<nat>)
    requires AreNodes(free) && |specs| == |free| && ValidComponent(c)
    ensures |counts| == |free|
  {
    Greedy(Caps(free, specs, c), c.replicas)
  }

  ghost function AfterComponent(free: seq<Quantities>, specs: seq<Option<NodeSpec>>, c: Component)
    : (rest: seq<Quantities>)
    requires AreNodes(free) && |specs| == |free| && ValidComponent(c)
    ensures |rest| == |free| && AreNodes(rest)
  {
    var counts := Placement(free, specs, c);
    RequestIsRequest(c);
    assert forall i :: 0 <= i < |free| ==> IsNode(Minus(free[i], Request(c), counts[i])) by {
      forall i | 0 <= i < |free|
        ensures IsNode(Minus(free[i], Request(c), counts[i]))
      {
        PlacementFits(free, specs, c, i);
        TakingLeavesNode(free[i], Request(c), counts[i]);
      }
    }
    Consume(free, Request(c), counts)
  }

  lemma PlacementFits(free: seq<Quantities>, specs: seq<Option<NodeSpec>>, c: Component, i: nat)
    requires AreNodes(free) && |specs| == |free| && ValidComponent(c) && i < |free|
    ensures Fits(free[i], Request(c), Placement(free, specs, c)[i])
    ensures Placement(free, specs, c)[i] <= Caps(free, specs, c)[i]
  {
    RequestIsRequest(c);
    GreedyWithin(Caps(free, specs, c), c.replicas, i);
  }

  ghost predicate Scheduled(free: seq<Quantities>, specs: seq<Option<NodeSpec>>, c: Component)
    requires AreNodes(free) && |specs| == |free| && ValidComponent(c)
  {
    Sum(Caps(free, specs, c)) >= c.replicas
  }

  datatype Outcome = Complete | Incomplete | Failed

  /** One pass over the components: per component, how many replicas went to each node. */
  datatype Attempt = Attempt(free: seq<Quantities>, packing: seq<seq<nat>>, outcome: Outcome)

  ghost function AttemptSet(free: seq<Quantities>, specs: seq<Option<NodeSpec>>, components: seq<Option<Component>>)
    : (a: Attempt)
    requires AreNodes(free) && |specs| == |free| && ValidComponents(components)
    ensures |a.free| == |free| && AreNodes(a.free)
    decreases |components|
  {
    if components == [] then
      Attempt(free, [], Complete)
    else if components[0].None? then
      var rest := AttemptSet(free, specs, components[1..]);
      rest.(packing := [Nowhere(|free|)] + rest.packing)
    else
      var c := components[0].value;
      if !Decodes(c) then
        Attempt(free, [], Failed)
      else if !Scheduled(free, specs, c) then
        Attempt(AfterComponent(free, specs, c), [Placement(free, specs, c)], Incomplete)
      else
        var rest := AttemptSet(AfterComponent(free, specs, c), specs, components[1..]);
        rest.(packing := [Placement(free, specs, c)] + rest.packing)
  }

  /** A whole simulation: the packings of the complete sets, and what a last, incomplete one took. */
  datatype Simulation = Simulation(
    free: seq<Quantities>, packings: seq<seq<seq<nat>>>, partial: seq<seq<nat>>, failed: bool)

  ghost function Simulate(
      free: seq<Quantities>, specs: seq<Option<NodeSpec>>, components: seq<Option<Component>>, bound: nat)
    : (s: Simulation)
    requires AreNodes(free) && |specs| == |free| && ValidComponents(components)
    ensures |s.free| == |free| && AreNodes(s.free) && |s.packings| <= bound
    decreases bound
  {
    if bound == 0 then
      Simulation(free, [], [], false)
    else
      var a := AttemptSet(free, specs, components);
      match a.outcome
      case Complete =>
        var s := Simulate(a.free, specs, components, bound - 1);
        s.(packings := [a.packing] + s.packings)
      case Incomplete => Simulation(a.free, [], a.packing, false)
      case Failed => Simulation(a.free, [], a.packing, true)
  }
}
