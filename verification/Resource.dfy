/** Vectors of compute resources (pkg/util/resource.go). */
module Resources {
  import opened FixedWidth

  /** A resource name as the code classifies it. Every name outside the four
      well-known ones carries the answer of `IsScalarResourceName`. */
  datatype ResourceName = CPU | Memory | EphemeralStorage | Pods | Other(name: string, scalar: bool)

  /** Quantities by name, CPU in thousandths and everything else in units. */
  type ResourceList = map<ResourceName, Int64>

  /** The names whose quotient limits `MaxDivided`. */
  predicate Divides(n: ResourceName) {
    !n.Pods? && (n.Other? ==> n.scalar)
  }

  /** The value held by a `Resource` object. */
  datatype Quantities = Quantities(
    milliCPU: int, memory: int, ephemeralStorage: int, allowedPodNumber: int,
    scalarResources: map<ResourceName, int>)
  {
    function Of(n: ResourceName): int {
      match n
      case CPU => milliCPU
      case Memory => memory
      case EphemeralStorage => ephemeralStorage
      case Pods => allowedPodNumber
      case Other(_, _) => if n in scalarResources then scalarResources[n] else 0
    }

    /** Only scalar names reach the map: `Add` filters every other name. */
    predicate WellFormed() {
      forall n <- scalarResources :: n.Other? && n.scalar
    }

    ghost predicate NonNegative() {
      forall n: ResourceName :: 0 <= Of(n) <= MAX_INT64
    }
  }

  const NOTHING := Quantities(0, 0, 0, 0, map[])

  function ScalarNames(rl: ResourceList): set<ResourceName> {
    set n <- rl | n.Other? && n.scalar
  }

  /** The quantities that a list records under recognised names. */
  function Listed(rl: ResourceList): Quantities {
    Quantities(
      if CPU in rl then rl[CPU] else 0,
      if Memory in rl then rl[Memory] else 0,
      if EphemeralStorage in rl then rl[EphemeralStorage] else 0,
      if Pods in rl then rl[Pods] else 0,
      map n <- ScalarNames(rl) :: rl[n])
  }

  /** Field by field what a list records. */
  lemma ListedMeans(rl: ResourceList)
    ensures Listed(rl).milliCPU == if CPU in rl then rl[CPU] else 0
    ensures Listed(rl).memory == if Memory in rl then rl[Memory] else 0
    ensures Listed(rl).ephemeralStorage == if EphemeralStorage in rl then rl[EphemeralStorage] else 0
    ensures Listed(rl).allowedPodNumber == if Pods in rl then rl[Pods] else 0
    ensures Listed(rl).scalarResources == map n <- rl | n.Other? && n.scalar :: rl[n]
  {
  }

  /** Quantities are determined by their entries. */
  lemma SameQuantities(a: Quantities, b: Quantities)
    requires a.WellFormed() && b.WellFormed()
    requires a.scalarResources.Keys == b.scalarResources.Keys
    requires forall n: ResourceName :: a.Of(n) == b.Of(n)
    ensures a == b
  {
    assert a.Of(CPU) == b.Of(CPU) && a.Of(Memory) == b.Of(Memory);
    assert a.Of(EphemeralStorage) == b.Of(EphemeralStorage) && a.Of(Pods) == b.Of(Pods);
    forall n | n in a.scalarResources
      ensures a.scalarResources[n] == b.scalarResources[n]
    {
      assert a.Of(n) == b.Of(n);
    }
  }

  /** `k` copies of `q` are available in `r`, in every dimension at once. */
  ghost predicate Fits(r: Quantities, q: Quantities, k: int) {
    forall n: ResourceName :: q.Of(n) * k <= r.Of(n)
  }

  /** What is left of `r` once `k` copies of `q` are taken. */
  function Minus(r: Quantities, q: Quantities, k: int): Quantities {
    Quantities(
      r.milliCPU - q.milliCPU * k,
      r.memory - q.memory * k,
      r.ephemeralStorage - q.ephemeralStorage * k,
      r.allowedPodNumber - q.allowedPodNumber * k,
      map n <- r.scalarResources :: r.scalarResources[n] - q.Of(n) * k)
  }

  /** The quotient limits in `names` all admit `k` copies. */
  ghost predicate Admits(r: Quantities, rl: ResourceList, names: set<ResourceName>, k: int) {
    forall n :: n in names && n in rl && Divides(n) && rl[n] > 0 ==> rl[n] * k <= r.Of(n)
  }

  /** `MaxInt64(a-b, 0)`. */
  function ClampedDifference(a: int, b: int): Int64 {
    var difference := Wrap64(a - b);
    if difference >= 0 then difference else 0
  }

  /** Nothing goes below zero, and within 64 bits nothing else is lost. */
  lemma ClampedDifferenceMeans(a: Int64, b: Int64)
    ensures ClampedDifference(a, b) >= 0
    ensures a - b <= 0 && a - b >= MIN_INT64 ==> ClampedDifference(a, b) == 0
    ensures 0 <= a - b <= MAX_INT64 ==> ClampedDifference(a, b) == a - b
  {
  }

  /** Every recognised quantity of `q` is there, and every recognised scalar of `q` is listed. */
  ghost predicate Covers(r: Quantities, q: Quantities) {
    && (forall n: ResourceName :: !n.Other? ==> q.Of(n) <= r.Of(n))
    && (forall n <- q.scalarResources :: n.Other? && n.scalar ==> n in r.scalarResources && q.Of(n) <= r.Of(n))
  }

  /** Without negative quantities: one copy fits, and the scalars asked for are listed. */
  lemma CoversIsFit(r: Quantities, q: Quantities)
    requires q.WellFormed() && r.NonNegative()
    ensures Covers(r, q) <==> Fits(r, q, 1) && q.scalarResources.Keys <= r.scalarResources.Keys
  {
    if Covers(r, q) {
      forall n: ResourceName
        ensures q.Of(n) * 1 <= r.Of(n)
      {
        assert 0 <= r.Of(n);
      }
    }
    if Fits(r, q, 1) {
      assert forall n: ResourceName :: q.Of(n) == q.Of(n) * 1;
    }
  }

  /** Whether the arithmetic of a resource touches this name. */
  predicate Recognised(n: ResourceName) {
    n.Other? ==> n.scalar
  }

  predicate HasQuotient(rl: ResourceList, n: ResourceName) {
    n in rl && Divides(n) && rl[n] > 0
  }

  /** `res` is the greatest number of copies, up to `bound`, that the names in `names` admit. */
  ghost predicate Greatest(r: Quantities, rl: ResourceList, names: set<ResourceName>, bound: int, res: int) {
    forall k: int :: k <= bound && Admits(r, rl, names, k) <==> k <= res
  }

  /** `res` is the least of `bound` and the quotients of the names in `names`. */
  ghost predicate Least(r: Quantities, rl: ResourceList, names: set<ResourceName>, bound: int, res: int) {
    && res <= bound
    && (forall n <- names :: HasQuotient(rl, n) ==> res <= TruncatedQuotient(r.Of(n), rl[n]))
    && (res == bound || exists n <- names :: HasQuotient(rl, n) && res == TruncatedQuotient(r.Of(n), rl[n]))
  }

  /** Without negative quantities the least quotient is the greatest number of copies. */
  lemma LeastIsGreatest(r: Quantities, rl: ResourceList, names: set<ResourceName>, bound: int, res: int)
    requires r.NonNegative() && bound >= 0 && Least(r, rl, names, bound, res)
    ensures 0 <= res && Greatest(r, rl, names, bound, res)
  {
    assert forall n <- names :: 0 <= r.Of(n);
    forall k: int
      ensures k <= bound && Admits(r, rl, names, k) <==> k <= res
    {
      forall n | n in names && HasQuotient(rl, n)
        ensures rl[n] * k <= r.Of(n) <==> k <= TruncatedQuotient(r.Of(n), rl[n])
      {
        QuotientGalois(r.Of(n), rl[n], k);
      }
      hide TruncatedQuotient;
    }
  }

  /** Quantity `n` after the entries of `rl` under `names` are added to `q`. */
  function Added(q: Quantities, rl: ResourceList, names: set<ResourceName>, n: ResourceName): int {
    if n in names && n in rl && Recognised(n) then Wrap64(q.Of(n) + rl[n]) else q.Of(n)
  }

  class Resource {
    var milliCPU: Int64
    var memory: Int64
    var ephemeralStorage: Int64
    var allowedPodNumber: Int64
    var scalarResources: map<ResourceName, Int64>

    ghost function Value(): Quantities
      reads this
    {
      Quantities(milliCPU, memory, ephemeralStorage, allowedPodNumber, scalarResources)
    }

    /** `EmptyResource`. */
    constructor ()
      ensures Value() == NOTHING
    {
      milliCPU, memory, ephemeralStorage, allowedPodNumber := 0, 0, 0, 0;
      scalarResources := map[];
    }

    /** `NewResource`: a list of recognised names, each listed at most once. */
    constructor FromList(rl: ResourceList)
      ensures Value() == Listed(rl)
    {
      milliCPU, memory, ephemeralStorage, allowedPodNumber := 0, 0, 0, 0;
      scalarResources := map[];
      new;
      Add(rl);
      forall n: ResourceName
        ensures Value().Of(n) == Listed(rl).Of(n)
      {
        assert Value().Of(n) == Added(NOTHING, rl, rl.Keys, n);
      }
      SameQuantities(Value(), Listed(rl));
    }

    method Add(rl: ResourceList)
      modifies this
      ensures forall n: ResourceName :: Value().Of(n) == Added(old(Value()), rl, rl.Keys, n)
      ensures scalarResources.Keys == old(scalarResources).Keys + ScalarNames(rl)
    {
      ghost var start := Value();
      var rest := rl.Keys;
      while rest != {}
        invariant rest <= rl.Keys
        invariant forall n: ResourceName :: Value().Of(n) == Added(start, rl, rl.Keys - rest, n)
        invariant scalarResources.Keys == start.scalarResources.Keys + (ScalarNames(rl) - rest)
      {
        var n :| n in rest;
        ghost var before, done := Value(), rl.Keys - rest;
        AddQuantity(n, rl[n]);
        rest := rest - {n};
        assert forall m: ResourceName :: before.Of(m) == Added(start, rl, done, m);
      }
    }

    /** One case of the switch in `Add`. */
    method AddQuantity(n: ResourceName, quantity: Int64)
      modifies this
      ensures forall m: ResourceName :: m != n || !Recognised(n) ==> Value().Of(m) == old(Value()).Of(m)
      ensures Recognised(n) ==> Value().Of(n) == Wrap64(old(Value()).Of(n) + quantity)
      ensures scalarResources.Keys == old(scalarResources).Keys + (if n.Other? && n.scalar then {n} else {})
    {
      match n
      case CPU => milliCPU := Wrap64(milliCPU + quantity);
      case Memory => memory := Wrap64(memory + quantity);
      case Pods => allowedPodNumber := Wrap64(allowedPodNumber + quantity);
      case EphemeralStorage => ephemeralStorage := Wrap64(ephemeralStorage + quantity);
      case Other(_, scalar) =>
        if scalar {
          var held: int := if n in scalarResources then scalarResources[n] else 0;
          SetScalar(n, Wrap64(held + quantity));
        }
    }

    method SetScalar(n: ResourceName, quantity: Int64)
      modifies this`scalarResources
      ensures scalarResources == old(scalarResources)[n := quantity]
    {
      scalarResources := scalarResources[n := quantity];
    }

    /** Multiplies in place; 64-bit products wrap. */
    method Multiply(factor: Int64)
      modifies this
      ensures scalarResources.Keys == old(scalarResources).Keys
      ensures forall n: ResourceName :: Recognised(n) ==>
        Value().Of(n) == Wrap64(old(Value()).Of(n) * factor)
      ensures forall n: ResourceName :: n.Other? && !n.scalar ==> Value().Of(n) == old(Value()).Of(n)
    {
      milliCPU := Wrap64(milliCPU * factor);
      memory := Wrap64(memory * factor);
      ephemeralStorage := Wrap64(ephemeralStorage * factor);
      allowedPodNumber := Wrap64(allowedPodNumber * factor);
      ghost var before := scalarResources;
      var rest := scalarResources.Keys;
      while rest != {}
        invariant rest <= scalarResources.Keys == before.Keys
        invariant forall n <- before ::
          scalarResources[n] == (if n !in rest && n.Other? && n.scalar then Wrap64(before[n] * factor) else before[n])
        invariant milliCPU == Wrap64(old(milliCPU) * factor) && memory == Wrap64(old(memory) * factor)
        invariant ephemeralStorage == Wrap64(old(ephemeralStorage) * factor)
        invariant allowedPodNumber == Wrap64(old(allowedPodNumber) * factor)
      {
        var n :| n in rest;
        rest := rest - {n};
        if n.Other? && n.scalar {
          scalarResources := scalarResources[n := Wrap64(scalarResources[n] * factor)];
        }
      }
    }

    /** Subtracts in place, clamping at zero; a scalar this resource does not list stays unlisted. */
    method SubResource(rr: Resource?)
      modifies this
      ensures rr == null ==> Value() == old(Value())
      ensures scalarResources.Keys == old(scalarResources).Keys
      ensures rr != null ==> forall n: ResourceName ::
        Value().Of(n) == (
          if n.Other? && !(n.scalar && n in old(rr.scalarResources) && n in old(scalarResources))
          then old(Value()).Of(n)
          else ClampedDifference(old(Value()).Of(n), old(rr.Value()).Of(n)))
    {
      if rr == null {
        return;
      }
      milliCPU := ClampedDifference(milliCPU, rr.milliCPU);
      memory := ClampedDifference(memory, rr.memory);
      ephemeralStorage := ClampedDifference(ephemeralStorage, rr.ephemeralStorage);
      allowedPodNumber := ClampedDifference(allowedPodNumber, rr.allowedPodNumber);
      ghost var before := scalarResources;
      ghost var scalars := rr.scalarResources;
      var rest := rr.scalarResources.Keys;
      while rest != {}
        invariant rest <= scalars.Keys == rr.scalarResources.Keys
        invariant forall n <- rest :: rr.scalarResources[n] == scalars[n]
        invariant scalarResources.Keys == before.Keys
        invariant forall n <- before ::
          scalarResources[n] == (
            if n in scalars && n !in rest && n.Other? && n.scalar
            then ClampedDifference(before[n], scalars[n]) else before[n])
        invariant milliCPU == ClampedDifference(old(milliCPU), old(rr.milliCPU))
        invariant memory == ClampedDifference(old(memory), old(rr.memory))
        invariant ephemeralStorage == ClampedDifference(old(ephemeralStorage), old(rr.ephemeralStorage))
        invariant allowedPodNumber == ClampedDifference(old(allowedPodNumber), old(rr.allowedPodNumber))
      {
        var n :| n in rest;
        rest := rest - {n};
        if n.Other? && n.scalar && n in scalarResources {
          scalarResources := scalarResources[n := ClampedDifference(scalarResources[n], rr.scalarResources[n])];
        }
      }
    }

    /** Whether one `rr` fits: unlike `MaxDivided` it also asks for the key of a zero scalar. */
    method Allocatable(rr: Resource?) returns (ok: bool)
      ensures rr == null ==> ok
      ensures rr != null ==> (ok <==> Covers(Value(), rr.Value()))
    {
      if rr == null {
        return true;
      }
      if milliCPU < rr.milliCPU || memory < rr.memory || ephemeralStorage < rr.ephemeralStorage
         || allowedPodNumber < rr.allowedPodNumber {
        assert rr.Value().Of(CPU) > Value().Of(CPU) || rr.Value().Of(Memory) > Value().Of(Memory)
          || rr.Value().Of(EphemeralStorage) > Value().Of(EphemeralStorage) || rr.Value().Of(Pods) > Value().Of(Pods);
        return false;
      }
      var rest := rr.scalarResources.Keys;
      while rest != {}
        invariant rest <= rr.scalarResources.Keys
        invariant forall n :: n in rr.scalarResources && n !in rest && n.Other? && n.scalar ==>
          n in scalarResources && scalarResources[n] >= rr.scalarResources[n]
      {
        var n :| n in rest;
        rest := rest - {n};
        if n.Other? && n.scalar {
          if n !in scalarResources || scalarResources[n] < rr.scalarResources[n] {
            return false;
          }
        }
      }
      return true;
    }

    /** The positive entries, as a list. */
    method ResourceList() returns (rl: ResourceList)
      requires Value().WellFormed()
      ensures rl.Keys == set n | n in {CPU, Memory, EphemeralStorage, Pods} + scalarResources.Keys && Value().Of(n) > 0
      ensures forall n <- rl :: rl[n] == Value().Of(n)
    {
      rl := map[];
      if milliCPU > 0 { rl := rl[CPU := milliCPU]; }
      if memory > 0 { rl := rl[Memory := memory]; }
      if ephemeralStorage > 0 { rl := rl[EphemeralStorage := ephemeralStorage]; }
      if allowedPodNumber > 0 { rl := rl[Pods := allowedPodNumber]; }
      ghost var fixed := {CPU, Memory, EphemeralStorage, Pods};
      var rest := scalarResources.Keys;
      while rest != {}
        invariant rest <= scalarResources.Keys
        invariant rl.Keys == set n | n in fixed + (scalarResources.Keys - rest) && Value().Of(n) > 0
        invariant forall n <- rl :: rl[n] == Value().Of(n)
      {
        var n :| n in rest;
        rest := rest - {n};
        if scalarResources[n] > 0 {
          rl := rl[n := scalarResources[n]];
        }
      }
    }

    /** One case of the switch in `MaxDivided`. */
    method Limited(rl: ResourceList, n: ResourceName, bound: Int64) returns (res: Int64)
      requires n in rl
      ensures res == if HasQuotient(rl, n) then Min(bound, TruncatedQuotient(Value().Of(n), rl[n])) else bound
    {
      res := bound;
      match n {
        case CPU =>
          if rl[n] > 0 { res := Min(res, TruncatedQuotient(milliCPU, rl[n])); }
        case Memory =>
          if rl[n] > 0 { res := Min(res, TruncatedQuotient(memory, rl[n])); }
        case EphemeralStorage =>
          if rl[n] > 0 { res := Min(res, TruncatedQuotient(ephemeralStorage, rl[n])); }
        case Pods =>
        case Other(_, scalar) =>
          if scalar {
            var held: int := if n in scalarResources then scalarResources[n] else 0;
            if rl[n] > 0 { res := Min(res, TruncatedQuotient(held, rl[n])); }
          }
      }
    }

    /** The number of copies of `rl` this resource can be divided into: the least of the quotients and the pod
        count. Without negative quantities it is the greatest `k` that all of them admit. */
    method MaxDivided(rl: ResourceList) returns (res: Int64)
      ensures Least(Value(), rl, rl.Keys, allowedPodNumber, res)
      ensures Value().NonNegative() ==> 0 <= res && Greatest(Value(), rl, rl.Keys, allowedPodNumber, res)
    {
      res := MAX_INT64;
      ghost var r := Value();
      var rest := rl.Keys;
      while rest != {}
        invariant rest <= rl.Keys
        invariant Least(r, rl, rl.Keys - rest, MAX_INT64, res)
      {
        var n :| n in rest;
        ghost var done := rl.Keys - rest;
        rest := rest - {n};
        assert rl.Keys - rest == done + {n};
        res := Limited(rl, n, res);
      }
      assert rl.Keys - rest == rl.Keys;
      res := Min(res, allowedPodNumber);
      if r.NonNegative() {
        assert 0 <= r.Of(Pods);
        LeastIsGreatest(r, rl, rl.Keys, allowedPodNumber, res);
      }
    }

    method Clone() returns (c: Resource)
      ensures fresh(c) && c.Value() == Value()
    {
      c := new Resource();
      c.milliCPU, c.memory, c.ephemeralStorage := milliCPU, memory, ephemeralStorage;
      c.allowedPodNumber, c.scalarResources := allowedPodNumber, scalarResources;
    }
  }
}
