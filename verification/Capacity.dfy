/** How often a request fits into a node: the meaning of `MaxDivided`. */
module Capacities {
  import opened FixedWidth
  import opened Resources

  /** A request as the simulator builds it: no negative entry, and one pod per replica. */
  ghost predicate IsRequest(q: Quantities) {
    q.WellFormed() && q.NonNegative() && q.allowedPodNumber == 1
  }

  ghost predicate IsNode(r: Quantities) {
    r.WellFormed() && r.NonNegative()
  }

  lemma FitsFewer(r: Quantities, q: Quantities, j: nat, k: nat)
    requires IsRequest(q) && j <= k && Fits(r, q, k)
    ensures Fits(r, q, j)
  {
    forall n: ResourceName
      ensures q.Of(n) * j <= r.Of(n)
    {
      assert 0 <= q.Of(n) && q.Of(n) * k <= r.Of(n);
      MulMonotone(q.Of(n), j, k);
    }
  }

  lemma FitsNone(r: Quantities, q: Quantities)
    requires IsNode(r)
    ensures Fits(r, q, 0)
  {
    assert forall n: ResourceName :: 0 <= r.Of(n);
  }

  /** The greatest number of copies of `q` that fit in `r`. */
  ghost function Capacity(r: Quantities, q: Quantities): (k: nat)
    requires IsNode(r) && IsRequest(q)
    ensures forall j: nat :: Fits(r, q, j) <==> j <= k
  {
    assert 0 <= r.Of(Pods);
    assert forall j: nat :: Fits(r, q, j) ==> q.Of(Pods) * j <= r.Of(Pods);
    CapacityUpTo(r, q, r.allowedPodNumber)
  }

  ghost function CapacityUpTo(r: Quantities, q: Quantities, bound: nat): (k: nat)
    requires IsNode(r) && IsRequest(q)
    ensures k <= bound
    ensures forall j: nat :: j <= bound ==> (Fits(r, q, j) <==> j <= k)
  {
    if Fits(r, q, bound) then
      assert forall j: nat :: j <= bound ==> Fits(r, q, j) by {
        forall j: nat | j <= bound { FitsFewer(r, q, j, bound); }
      }
      bound
    else
      FitsNone(r, q);
      CapacityUpTo(r, q, bound - 1)
  }

  /** `MaxDivided`, run on the positive entries of a request, computes the capacity. */
  lemma MaxDividedIsCapacity(r: Quantities, q: Quantities, rl: ResourceList, res: int)
    requires IsNode(r) && IsRequest(q)
    requires forall n <- rl :: rl[n] == q.Of(n)
    requires forall n: ResourceName :: q.Of(n) > 0 ==> n in rl
    requires 0 <= res && Greatest(r, rl, rl.Keys, r.allowedPodNumber, res)
    ensures res == Capacity(r, q)
  {
    forall k: nat
      ensures Fits(r, q, k) <==> k <= res
    {
      assert k <= r.allowedPodNumber && Admits(r, rl, rl.Keys, k) <==> k <= res;
      if k <= res {
        forall n: ResourceName
          ensures q.Of(n) * k <= r.Of(n)
        {
          assert 0 <= r.Of(n) && 0 <= q.Of(n);
        }
      }
      if Fits(r, q, k) {
        assert q.Of(Pods) * k <= r.Of(Pods);
      }
    }
    assert Fits(r, q, res) && !Fits(r, q, res + 1);
  }

  lemma FitsAfterTaking(r: Quantities, q: Quantities, k: nat, j: nat)
    requires IsNode(r) && IsRequest(q) && Fits(r, q, k)
    ensures Fits(Minus(r, q, k), q, j) <==> Fits(r, q, j + k)
  {
    var rest := Minus(r, q, k);
    forall n: ResourceName
      ensures rest.Of(n) == r.Of(n) - q.Of(n) * k && q.Of(n) * (j + k) == q.Of(n) * j + q.Of(n) * k
    {
      TakenQuantity(r, q, k, n);
      Distributes(q.Of(n), j, k);
    }
    if Fits(rest, q, j) {
      forall n: ResourceName
        ensures q.Of(n) * (j + k) <= r.Of(n)
      {
        assert q.Of(n) * j <= rest.Of(n);
      }
    } else {
      var n: ResourceName :| q.Of(n) * j > rest.Of(n);
      assert q.Of(n) * (j + k) > r.Of(n);
    }
  }

  /** Taking copies that fit leaves a node, and uses up exactly that much capacity:
      `MaxDivided(r - k*q) == MaxDivided(r) - k`. */
  lemma CapacityAfterTaking(r: Quantities, q: Quantities, k: nat)
    requires IsNode(r) && IsRequest(q) && k <= Capacity(r, q)
    ensures IsNode(Minus(r, q, k))
    ensures Capacity(Minus(r, q, k), q) == Capacity(r, q) - k
  {
    TakingLeavesNode(r, q, k);
    var rest := Minus(r, q, k);
    var c := Capacity(r, q);
    FitsAfterTaking(r, q, k, c - k);
    FitsAfterTaking(r, q, k, c - k + 1);
    assert Fits(rest, q, c - k) && !Fits(rest, q, c - k + 1);
  }

  /** Subtraction is exact in every dimension: a scalar the node does not list is not requested either. */
  lemma TakenQuantity(r: Quantities, q: Quantities, k: nat, n: ResourceName)
    requires IsNode(r) && IsRequest(q) && Fits(r, q, k)
    ensures Minus(r, q, k).Of(n) == r.Of(n) - q.Of(n) * k
  {
    assert 0 <= q.Of(n) && q.Of(n) * k <= r.Of(n);
  }

  lemma TakingLeavesNode(r: Quantities, q: Quantities, k: nat)
    requires IsNode(r) && IsRequest(q) && Fits(r, q, k)
    ensures IsNode(Minus(r, q, k))
  {
    forall n: ResourceName
      ensures 0 <= Minus(r, q, k).Of(n) <= MAX_INT64
    {
      TakenQuantity(r, q, k, n);
      assert 0 <= q.Of(n) && r.Of(n) <= MAX_INT64 && q.Of(n) * k <= r.Of(n);
      MulNonNegative(q.Of(n), k);
    }
  }

  /** Taking copies of one request never makes room for another. */
  lemma CapacityOnlyShrinks(r: Quantities, q: Quantities, k: nat, other: Quantities)
    requires IsNode(r) && IsRequest(q) && IsRequest(other) && Fits(r, q, k)
    ensures IsNode(Minus(r, q, k)) && Capacity(Minus(r, q, k), other) <= Capacity(r, other)
  {
    TakingLeavesNode(r, q, k);
    var c := Capacity(Minus(r, q, k), other);
    assert Fits(Minus(r, q, k), other, c);
    forall n: ResourceName
      ensures other.Of(n) * c <= r.Of(n)
    {
      TakenQuantity(r, q, k, n);
      assert 0 <= q.Of(n);
      MulNonNegative(q.Of(n), k);
    }
    assert Fits(r, other, c);
  }

  /** `Allocatable` and `MaxDivided` agree about `k` copies exactly when the node lists every requested
      scalar; a request that lists a zero scalar which the node lacks is the disagreement. */
  lemma AllocatableAgreement(r: Quantities, q: Quantities, k: nat, total: Quantities)
    requires IsNode(r) && IsRequest(q) && k >= 1
    requires total.scalarResources.Keys == q.scalarResources.Keys
    requires forall n: ResourceName :: total.Of(n) == q.Of(n) * k
    ensures Fits(r, total, 1) <==> k <= Capacity(r, q)
    ensures (forall n <- q.scalarResources :: q.scalarResources[n] > 0) && k <= Capacity(r, q)
      ==> total.scalarResources.Keys <= r.scalarResources.Keys
  {
    assert Fits(r, total, 1) <==> Fits(r, q, k) by {
      assert forall n: ResourceName :: total.Of(n) * 1 == q.Of(n) * k;
    }
    if (forall n <- q.scalarResources :: q.scalarResources[n] > 0) && k <= Capacity(r, q) {
      assert Fits(r, q, k);
      forall n | n in total.scalarResources
        ensures n in r.scalarResources
      {
        assert q.Of(n) > 0 && q.Of(n) * k <= r.Of(n);
        MulMonotone(q.Of(n), 1, k);
      }
    }
  }
}
