/** The allocator entry points of packages/abtest/src/allocation.ts, with their input checks. */
module Allocation {
  import opened Prelude
  import opened Apportionment

  datatype AllocationError = InvalidTotal | NoWeights | InvalidWeight(index: nat) | InvalidPercentage | InvariantBroken

  predicate WholeNonNegative(x: real) {
    x >= 0.0 && x.Floor as real == x
  }

  /** The exact share of `total` that a weight has in a sum of weights. */
  function Share(total: real, weight: real, weightSum: real): real
    requires weightSum > 0.0
  {
    total * weight / weightSum
  }

  lemma ShareAdds(total: real, a: real, b: real, weightSum: real)
    requires weightSum > 0.0
    ensures Share(total, a + b, weightSum) == Share(total, a, weightSum) + Share(total, b, weightSum)
  {
    assert total * (a + b) == total * a + total * b;
  }

  lemma ShareBounds(total: real, weightSum: real)
    requires weightSum > 0.0
    ensures Share(total, weightSum, weightSum) == total && Share(total, 0.0, weightSum) == 0.0
  {
  }

  lemma ShareOrder(total: real, a: real, b: real, weightSum: real)
    requires weightSum > 0.0 && total > 0.0 && a < b
    ensures Share(total, a, weightSum) < Share(total, b, weightSum)
  {
    var x, y := Share(total, a, weightSum), Share(total, b, weightSum);
    assert total * a < total * b;
    assert x * weightSum == total * a && y * weightSum == total * b;
    ProductSign(if x >= y then x - y else 0.0, weightSum);
  }

  lemma ShareOfNothing(weight: real, weightSum: real)
    requires weightSum > 0.0
    ensures Share(0.0, weight, weightSum) == 0.0
  {
    assert 0.0 * weight == 0.0;
  }

  function Scaled(total: real, weights: seq<real>, weightSum: real): (q: seq<real>)
    requires weightSum > 0.0
    ensures |q| == |weights| && forall i :: 0 <= i < |q| ==> q[i] == Share(total, weights[i], weightSum)
  {
    seq(|weights|, i requires 0 <= i < |weights| => Share(total, weights[i], weightSum))
  }

  /** The ideal quotas of a valid input. */
  function Quotas(total: real, weights: seq<real>): (q: seq<real>)
    requires SumR(weights) > 0.0
    ensures |q| == |weights| && forall i :: 0 <= i < |q| ==> q[i] == Share(total, weights[i], SumR(weights))
  {
    Scaled(total, weights, SumR(weights))
  }

  lemma {:induction false} ScaledSum(total: real, weights: seq<real>, weightSum: real)
    requires weightSum > 0.0
    ensures SumR(Scaled(total, weights, weightSum)) == Share(total, SumR(weights), weightSum)
  {
    hide Share;
    if weights == [] {
      ShareBounds(total, weightSum);
    } else {
      var n := |weights| - 1;
      ScaledSum(total, weights[..n], weightSum);
      assert Scaled(total, weights, weightSum)[..n] == Scaled(total, weights[..n], weightSum);
      ShareAdds(total, SumR(weights[..n]), weights[n], weightSum);
    }
  }

  /** Quotas add up to the total. */
  lemma QuotasSum(total: real, weights: seq<real>)
    requires SumR(weights) > 0.0
    ensures SumR(Quotas(total, weights)) == total
  {
    ScaledSum(total, weights, SumR(weights));
    ShareBounds(total, SumR(weights));
  }

  lemma {:induction false} PositiveSum(weights: seq<real>)
    requires weights != [] && forall i :: 0 <= i < |weights| ==> weights[i] > 0.0
    ensures SumR(weights) > 0.0
  {
    if |weights| > 1 {
      PositiveSum(weights[..|weights| - 1]);
    }
  }

  predicate ValidWeights(weights: seq<real>) {
    weights != [] && forall i :: 0 <= i < |weights| ==> weights[i] > 0.0
  }

  /**
   For every valid input the allocator succeeds (its invariant errors are never reached) and returns the
   largest-remainder apportionment of the exact quotas.
   */
  method AllocateByLargestRemainder(total: real, weights: seq<real>) returns (r: Result<seq<int>, AllocationError>)
    ensures r == Err(InvalidTotal) <==> !WholeNonNegative(total)
    ensures r == Err(NoWeights) <==> WholeNonNegative(total) && weights == []
    ensures r.Ok? <==> WholeNonNegative(total) && ValidWeights(weights)
    ensures r.Err? && r.error.InvalidWeight? ==>
              && r.error.index < |weights| && weights[r.error.index] <= 0.0
              && forall k :: 0 <= k < r.error.index ==> weights[k] > 0.0
    ensures r != Err(InvariantBroken) && r != Err(InvalidPercentage)
    ensures r.Ok? ==> |r.value| == |weights| && Sum(r.value) as real == total
    ensures r.Ok? ==> SumR(weights) > 0.0 && Apportioned(Quotas(total, weights), r.value)
  {
    if !WholeNonNegative(total) {
      return Err(InvalidTotal);
    }
    if weights == [] {
      return Err(NoWeights);
    }
    for i := 0 to |weights|
      invariant forall k :: 0 <= k < i ==> weights[k] > 0.0
    {
      if weights[i] <= 0.0 {
        return Err(InvalidWeight(i));
      }
    }
    PositiveSum(weights);
    QuotasSum(total, weights);
    if total == 0.0 {
      var zeros := seq(|weights|, _ => 0);
      ZeroQuotas(weights, zeros);
      return Ok(zeros);
    }
    var quotas := Quotas(total, weights);
    var counts, remaining := LargestRemainder(quotas, total.Floor);
    SeatsExhausted(quotas, counts, total.Floor, remaining);
    r := Ok(counts);
  }

  lemma ZeroQuotas(weights: seq<real>, zeros: seq<int>)
    requires SumR(weights) > 0.0 && |zeros| == |weights| && forall i :: 0 <= i < |zeros| ==> zeros[i] == 0
    ensures Apportioned(Quotas(0.0, weights), zeros) && Sum(zeros) == 0
  {
    ZerosSum(zeros);
    forall i | 0 <= i < |weights| ensures Quotas(0.0, weights)[i] == 0.0 {
      ShareOfNothing(weights[i], SumR(weights));
    }
  }

  /**
   The allocator's promises, for any counts it may return: the quota rule, heavier weights get no fewer seats, and
   no other integer split of the total deviates less.
   */
  lemma AllocationPromises(total: real, weights: seq<real>, counts: seq<int>)
    requires WholeNonNegative(total) && ValidWeights(weights) && SumR(weights) > 0.0
    requires |counts| == |weights| && Sum(counts) as real == total && Apportioned(Quotas(total, weights), counts)
    ensures forall i :: 0 <= i < |weights| ==>
              Quotas(total, weights)[i].Floor <= counts[i] <= Ceiling(Quotas(total, weights)[i])
    ensures forall i, j :: 0 <= i < |weights| && 0 <= j < |weights| && weights[i] > weights[j] ==>
              counts[i] >= counts[j]
    ensures forall other: seq<int> :: |other| == |weights| && Sum(other) as real == total ==>
              Deviation(Quotas(total, weights), counts) <= Deviation(Quotas(total, weights), other)
  {
    hide Share;
    var q := Quotas(total, weights);
    QuotasSum(total, weights);
    forall i | 0 <= i < |weights| ensures q[i].Floor <= counts[i] <= Ceiling(q[i]) {
      QuotaRule(q, counts, i);
    }
    forall i, j | 0 <= i < |weights| && 0 <= j < |weights| && weights[i] > weights[j] ensures counts[i] >= counts[j] {
      if total > 0.0 {
        ShareOrder(total, weights[j], weights[i], SumR(weights));
        LargerQuotaNoFewer(q, counts, i, j);
      } else {
        ShareOfNothing(weights[i], SumR(weights));
        ShareOfNothing(weights[j], SumR(weights));
        QuotaRule(q, counts, i);
        QuotaRule(q, counts, j);
      }
    }
    forall other: seq<int> | |other| == |weights| && Sum(other) as real == total
      ensures Deviation(q, counts) <= Deviation(q, other)
    {
      LeastDeviation(q, counts, other);
    }
  }

  /** Rounding to the nearest integer, halves up. */
  function HalfUp(x: real): int {
    (x + 0.5).Floor
  }

  /** Two quotas that add up to an integer: the first is rounded half up. */
  lemma PairRounding(q: seq<real>, c: seq<int>, total: int)
    requires |q| == 2 && q[0] + q[1] == total as real && Apportioned(q, c) && c[0] + c[1] == total
    ensures c[0] == HalfUp(q[0])
  {
    assert Remainder(q[0]) == 0.0 ==> q[1].Floor == total - q[0].Floor;
    assert Remainder(q[0]) > 0.0 ==> q[1].Floor == total - q[0].Floor - 1;
  }

  /** The exact test and holdout sizes: they add up, and the test share is rounded half up. */
  method AllocateTestAndHoldout(audience: real, percentage: real)
    returns (r: Result<(int, int), AllocationError>)
    ensures r == Err(InvalidTotal) <==> !WholeNonNegative(audience)
    ensures r == Err(InvalidPercentage) <==> WholeNonNegative(audience) && !(0.0 <= percentage <= 100.0)
    ensures r.Ok? <==> WholeNonNegative(audience) && 0.0 <= percentage <= 100.0
    ensures r.Ok? ==> (r.value.0 + r.value.1) as real == audience
    ensures r.Ok? ==> var share := Share(audience, percentage, 100.0); share.Floor <= r.value.0 <= Ceiling(share)
    ensures r.Ok? ==> r.value.0 == HalfUp(Share(audience, percentage, 100.0))
    ensures r.Ok? ==> r.value.0 >= 0 && r.value.1 >= 0
  {
    hide Share;
    ShareBounds(audience, 100.0);
    ShareOfNothing(percentage, 100.0);
    if !WholeNonNegative(audience) {
      return Err(InvalidTotal);
    }
    if percentage < 0.0 || percentage > 100.0 {
      return Err(InvalidPercentage);
    }
    var n := audience.Floor;
    if audience == 0.0 {
      return Ok((0, 0));
    }
    if percentage == 0.0 {
      return Ok((0, n));
    }
    if percentage == 100.0 {
      return Ok((n, 0));
    }
    var weights := [percentage, 100.0 - percentage];
    PairSum(percentage, 100.0 - percentage);
    var split := AllocateByLargestRemainder(audience, weights);
    var counts := split.value;
    CountsSum(counts);
    QuotasSum(audience, weights);
    QuotaRule(Quotas(audience, weights), counts, 0);
    QuotaRule(Quotas(audience, weights), counts, 1);
    PairSum(Quotas(audience, weights)[0], Quotas(audience, weights)[1]);
    assert Quotas(audience, weights) == [Quotas(audience, weights)[0], Quotas(audience, weights)[1]];
    PairRounding(Quotas(audience, weights), counts, n);
    ShareOrder(audience, 0.0, percentage, 100.0);
    ShareOrder(audience, 0.0, 100.0 - percentage, 100.0);
    r := Ok((counts[0], counts[1]));
  }

  lemma PairSum(a: real, b: real)
    ensures SumR([a, b]) == a + b
  {
    assert [a, b][..1] == [a] && [a][..0] == [];
    assert SumR([a]) == a;
  }

  lemma CountsSum(c: seq<int>)
    requires |c| == 2
    ensures Sum(c) == c[0] + c[1]
  {
    assert c[..1] == [c[0]] && [c[0]][..0] == [];
    assert Sum([c[0]]) == c[0];
  }
}
