/**
 Holm's step-down correction (packages/abtest/src/statistics.ts) over exact reals, and its meaning: it is the
 closed test built from Bonferroni tests of all subfamilies.
 */
module Holm {
  import opened Prelude
  import opened Sorting

  datatype Entry = Entry(p: real, index: nat)

  datatype Correction = Correction(adjusted: seq<real>, significant: seq<bool>)

  function Indexed(ps: seq<real>): (r: seq<Entry>)
    ensures |r| == |ps| && forall i :: 0 <= i < |ps| ==> r[i] == Entry(ps[i], i)
  {
    seq(|ps|, i requires 0 <= i < |ps| => Entry(ps[i], i))
  }

  const BY_P: (Entry, Entry) -> bool := (a: Entry, b: Entry) => a.p < b.p

  /** The entries by increasing p-value. */
  function Order(ps: seq<real>): (r: seq<Entry>)
    ensures |r| == |ps|
  {
    Sort(Indexed(ps), BY_P)
  }

  /** Ranks and indices correspond one to one, and p-values do not decrease with rank. */
  lemma OrderFacts(ps: seq<real>)
    ensures var o := Order(ps);
            && (forall k :: 0 <= k < |o| ==> o[k].index < |ps| && o[k].p == ps[o[k].index])
            && (forall k, l :: 0 <= k < l < |o| ==> o[k].p <= o[l].p && o[k].index != o[l].index)
            && (forall i :: 0 <= i < |ps| ==> exists k :: 0 <= k < |o| && o[k] == Entry(ps[i], i))
  {
    var entries, o := Indexed(ps), Order(ps);
    SortPermutes(entries, BY_P);
    SortSorts(entries, BY_P);
    DistinctPermutation(entries, o);
    forall k | 0 <= k < |o| ensures o[k].index < |ps| && o[k].p == ps[o[k].index] {
      assert o[k] in entries;
    }
    forall i | 0 <= i < |ps| ensures exists k :: 0 <= k < |o| && o[k] == Entry(ps[i], i) {
      assert entries[i] in o;
    }
  }

  // ---------------------------------------------------------------------------------
  // The closed Bonferroni test
  // ---------------------------------------------------------------------------------

  /** `s` is a subfamily of a family of `m` hypotheses. */
  predicate Within(s: set<nat>, m: nat) {
    forall i :: i in s ==> i < m
  }

  function Threshold(alpha: real, n: nat): real
    requires n > 0
  {
    alpha / (n as real)
  }

  function Scaled(p: real, n: nat): real {
    p * (n as real)
  }

  /** Bonferroni rejects the intersection hypothesis of `s`: some member is below `alpha / |s|`. */
  predicate BonferroniRejects(ps: seq<real>, alpha: real, s: set<nat>)
    requires s != {} && Within(s, |ps|)
  {
    exists j :: j in s && ps[j] < Threshold(alpha, |s|)
  }

  /** The closed test rejects hypothesis `i`: every subfamily that contains it is rejected. */
  ghost predicate ClosedRejects(ps: seq<real>, alpha: real, i: nat)
    requires i < |ps|
  {
    forall s: set<nat> :: i in s && Within(s, |ps|) ==> BonferroniRejects(ps, alpha, s)
  }

  /** Every p-value up to rank `k` is below its own threshold. */
  predicate StepDown(o: seq<Entry>, alpha: real, k: nat)
    requires k < |o|
  {
    forall l :: 0 <= l <= k ==> o[l].p < Threshold(alpha, |o| - l)
  }

  lemma SmallerDivisor(alpha: real, a: nat, b: nat)
    requires alpha > 0.0 && 0 < a <= b
    ensures Threshold(alpha, b) <= Threshold(alpha, a)
  {
    var x, y := Threshold(alpha, b), Threshold(alpha, a);
    assert x * (b as real) == alpha && y * (a as real) == alpha;
    assert y > 0.0;
    assert y * (b as real) >= y * (a as real);
  }

  /** The indices at ranks `l` and later. */
  function Tail(o: seq<Entry>, l: nat): set<nat>
    requires l <= |o|
  {
    set r: nat | l <= r < |o| :: o[r].index
  }

  lemma {:induction false} TailSize(o: seq<Entry>, l: nat)
    requires l <= |o| && forall k, r :: 0 <= k < r < |o| ==> o[k].index != o[r].index
    ensures |Tail(o, l)| == |o| - l
    decreases |o| - l
  {
    if l < |o| {
      TailSize(o, l + 1);
      assert Tail(o, l) == {o[l].index} + Tail(o, l + 1);
    }
  }

  /** If the step-down passes rank `k`, every subfamily with that index is rejected: look at its smallest rank. */
  lemma StepDownRejects(ps: seq<real>, alpha: real, k: nat, s: set<nat>)
    requires alpha > 0.0 && k < |ps| && StepDown(Order(ps), alpha, k)
    requires Order(ps)[k].index in s && Within(s, |ps|)
    ensures BonferroniRejects(ps, alpha, s)
  {
    OrderFacts(ps);
    var o := Order(ps);
    var l := 0;
    while o[l].index !in s
      invariant 0 <= l <= k
      invariant forall r :: 0 <= r < l ==> o[r].index !in s
      decreases k - l
    {
      l := l + 1;
    }
    forall i | i in s ensures i in Tail(o, l) {
      var r :| 0 <= r < |o| && o[r] == Entry(ps[i], i);
      assert r >= l;
    }
    TailSize(o, l);
    SubsetSize(s, Tail(o, l));
    assert |s| > 0;
    SmallerDivisor(alpha, |s|, |o| - l);
    assert ps[o[l].index] < Threshold(alpha, |s|);
  }

  /** If it fails at rank `l`, the subfamily of ranks `l` and later is not rejected. */
  lemma FailureAccepts(ps: seq<real>, alpha: real, l: nat)
    requires l < |ps| && Order(ps)[l].p >= Threshold(alpha, |ps| - l)
    ensures Within(Tail(Order(ps), l), |ps|) && Tail(Order(ps), l) != {}
    ensures !BonferroniRejects(ps, alpha, Tail(Order(ps), l))
  {
    OrderFacts(ps);
    var o := Order(ps);
    TailSize(o, l);
    assert o[l].index in Tail(o, l);
    forall j | j in Tail(o, l) ensures ps[j] >= Threshold(alpha, |Tail(o, l)|) {
      var r :| l <= r < |o| && o[r].index == j;
      assert o[l].p <= o[r].p;
    }
  }

  /** Step-down is the closed Bonferroni test. */
  lemma ClosedIsStepDown(ps: seq<real>, alpha: real, k: nat)
    requires alpha > 0.0 && k < |ps|
    ensures Order(ps)[k].index < |ps|
    ensures ClosedRejects(ps, alpha, Order(ps)[k].index) <==> StepDown(Order(ps), alpha, k)
  {
    OrderFacts(ps);
    var o := Order(ps);
    if StepDown(o, alpha, k) {
      forall s: set<nat> | o[k].index in s && Within(s, |ps|) ensures BonferroniRejects(ps, alpha, s) {
        StepDownRejects(ps, alpha, k, s);
      }
    } else {
      var l :| 0 <= l <= k && o[l].p >= Threshold(alpha, |o| - l);
      FailureAccepts(ps, alpha, l);
      assert o[k].index in Tail(o, l);
    }
  }

  // ---------------------------------------------------------------------------------
  // Adjusted p-values
  // ---------------------------------------------------------------------------------

  function Max(a: real, b: real): real { if a < b then b else a }

  function Min(a: real, b: real): real { if a < b then a else b }

  /** Running maximum of the scaled p-values, from zero, each capped at one. */
  function AdjustedAt(o: seq<Entry>, k: nat): real
    requires k < |o|
  {
    Max(Min(1.0, Scaled(o[k].p, |o| - k)), if k == 0 then 0.0 else AdjustedAt(o, k - 1))
  }

  lemma StepDownUnfolds(o: seq<Entry>, beta: real, k: nat)
    requires k < |o|
    ensures StepDown(o, beta, k) <==> (k > 0 ==> StepDown(o, beta, k - 1)) && o[k].p < Threshold(beta, |o| - k)
  {
  }

  lemma ScaledThreshold(p: real, beta: real, n: nat)
    requires n > 0
    ensures Scaled(p, n) < beta <==> p < Threshold(beta, n)
  {
    assert beta / (n as real) * (n as real) == beta;
  }

  /** The adjusted value is below a level exactly when the step-down at that level passes. */
  lemma {:induction false} AdjustedMeans(o: seq<Entry>, k: nat, beta: real)
    requires k < |o| && 0.0 < beta < 1.0
    ensures AdjustedAt(o, k) < beta <==> StepDown(o, beta, k)
    ensures 0.0 <= AdjustedAt(o, k) <= 1.0
  {
    hide StepDown, Scaled, Threshold;
    StepDownUnfolds(o, beta, k);
    ScaledThreshold(o[k].p, beta, |o| - k);
    if k > 0 {
      AdjustedMeans(o, k - 1, beta);
    }
  }

  /** `a` is the least level from which on the closed test rejects hypothesis `i`. */
  ghost predicate IsAdjusted(ps: seq<real>, i: nat, a: real)
    requires i < |ps|
  {
    && 0.0 <= a <= 1.0
    && forall beta :: 0.0 < beta < 1.0 ==> (a < beta <==> ClosedRejects(ps, beta, i))
  }

  /** The walk from the smallest p-value on: a running maximum and a flag that stays down once a threshold is missed. */
  method WalkRanks(indexed: seq<Entry>, alpha: real) returns (adjusted: seq<real>, significant: seq<bool>)
    ensures |adjusted| == |significant| == |indexed|
    ensures forall k :: 0 <= k < |indexed| ==> adjusted[k] == AdjustedAt(indexed, k)
    ensures forall k :: 0 <= k < |indexed| ==> significant[k] == StepDown(indexed, alpha, k)
  {
    hide StepDown, Scaled, Threshold;
    var m := |indexed|;
    adjusted, significant := [], [];
    var stopRejecting := false;
    for rank := 0 to m
      invariant |adjusted| == |significant| == rank
      invariant forall k :: 0 <= k < rank ==> adjusted[k] == AdjustedAt(indexed, k)
      invariant forall k :: 0 <= k < rank ==> significant[k] == StepDown(indexed, alpha, k)
      invariant stopRejecting <==> rank > 0 && !StepDown(indexed, alpha, rank - 1)
    {
      StepDownUnfolds(indexed, alpha, rank);
      var entry := indexed[rank];
      var threshold := Threshold(alpha, m - rank);
      var rawAdjusted := Min(1.0, Scaled(entry.p, m - rank));
      var prevAdjusted := if rank > 0 then adjusted[rank - 1] else 0.0;
      adjusted := adjusted + [Max(rawAdjusted, prevAdjusted)];
      if stopRejecting || entry.p >= threshold {
        significant := significant + [false];
        stopRejecting := true;
      } else {
        significant := significant + [true];
      }
    }
  }

  /** Results by rank become results by original index. */
  method MapBack(indexed: seq<Entry>, adjustedSorted: seq<real>, significantSorted: seq<bool>)
    returns (adjusted: seq<real>, significant: seq<bool>)
    requires |adjustedSorted| == |significantSorted| == |indexed|
    requires forall k :: 0 <= k < |indexed| ==> indexed[k].index < |indexed|
    requires forall k, l :: 0 <= k < l < |indexed| ==> indexed[k].index != indexed[l].index
    ensures |adjusted| == |significant| == |indexed|
    ensures forall k :: 0 <= k < |indexed| ==>
              adjusted[indexed[k].index] == adjustedSorted[k] && significant[indexed[k].index] == significantSorted[k]
  {
    var m := |indexed|;
    var adjustedByIndex := new real[m];
    var significantByIndex := new bool[m];
    for rank := 0 to m
      invariant forall k :: 0 <= k < rank ==>
                  && adjustedByIndex[indexed[k].index] == adjustedSorted[k]
                  && significantByIndex[indexed[k].index] == significantSorted[k]
    {
      adjustedByIndex[indexed[rank].index] := adjustedSorted[rank];
      significantByIndex[indexed[rank].index] := significantSorted[rank];
    }
    adjusted, significant := adjustedByIndex[..], significantByIndex[..];
  }

  /**
   Flags are the closed test at level `alpha`; adjusted values are its threshold at every level at once, so
   flags and adjusted values agree.
   */
  method ApplyHolmCorrection(ps: seq<real>, alpha: real) returns (r: Result<Correction, string>)
    ensures ps == [] ==> r == Ok(Correction([], []))
    ensures r.Err? <==> ps != [] && !(0.0 < alpha < 1.0)
    ensures r.Ok? ==> |r.value.adjusted| == |r.value.significant| == |ps|
    ensures r.Ok? ==> forall i :: 0 <= i < |ps| ==>
              && (r.value.significant[i] <==> ClosedRejects(ps, alpha, i))
              && (r.value.significant[i] <==> r.value.adjusted[i] < alpha)
              && IsAdjusted(ps, i, r.value.adjusted[i])
  {
    if ps == [] {
      return Ok(Correction([], []));
    }
    if alpha <= 0.0 || alpha >= 1.0 {
      return Err("alpha must be a finite number in (0, 1)");
    }
    var indexed := Order(ps);
    var adjustedSorted, significantSorted := WalkRanks(indexed, alpha);
    OrderFacts(ps);
    var adjusted, significant := MapBack(indexed, adjustedSorted, significantSorted);
    forall i | 0 <= i < |ps|
      ensures significant[i] <==> ClosedRejects(ps, alpha, i)
      ensures significant[i] <==> adjusted[i] < alpha
      ensures IsAdjusted(ps, i, adjusted[i])
    {
      var k :| 0 <= k < |ps| && indexed[k] == Entry(ps[i], i);
      ClosedIsStepDown(ps, alpha, k);
      AdjustedIsAdjusted(ps, k, alpha);
    }
    r := Ok(Correction(adjusted, significant));
  }

  lemma AdjustedIsAdjusted(ps: seq<real>, k: nat, alpha: real)
    requires k < |ps| && 0.0 < alpha < 1.0
    ensures Order(ps)[k].index < |ps| && IsAdjusted(ps, Order(ps)[k].index, AdjustedAt(Order(ps), k))
    ensures AdjustedAt(Order(ps), k) < alpha <==> StepDown(Order(ps), alpha, k)
  {
    OrderFacts(ps);
    AdjustedMeans(Order(ps), k, alpha);
    forall beta | 0.0 < beta < 1.0
      ensures AdjustedAt(Order(ps), k) < beta <==> ClosedRejects(ps, beta, Order(ps)[k].index)
    {
      AdjustedMeans(Order(ps), k, beta);
      ClosedIsStepDown(ps, beta, k);
    }
  }

  // ---------------------------------------------------------------------------------
  // Consequences
  // ---------------------------------------------------------------------------------

  /** `f` places the family `ps` inside the family `qs`. */
  predicate Embeds(ps: seq<real>, qs: seq<real>, f: seq<nat>) {
    |f| == |ps| && Distinct(f) && forall i :: 0 <= i < |ps| ==> f[i] < |qs| && qs[f[i]] == ps[i]
  }

  function Image(f: seq<nat>, s: set<nat>): set<nat>
    requires Within(s, |f|)
  {
    set i | i in s :: f[i]
  }

  lemma {:induction false} ImageSize(f: seq<nat>, s: set<nat>)
    requires Within(s, |f|) && Distinct(f)
    ensures |Image(f, s)| == |s|
  {
    if s != {} {
      var x :| x in s;
      ImageSize(f, s - {x});
      forall y | y in s - {x} ensures f[y] != f[x] {
        assert x < y || y < x;
      }
      assert Image(f, s) == Image(f, s - {x}) + {f[x]};
    }
  }

  /** Enlarging or reordering a family never creates a rejection. */
  lemma LargerFamilyRejectsLess(ps: seq<real>, qs: seq<real>, f: seq<nat>, alpha: real, i: nat)
    requires Embeds(ps, qs, f) && i < |ps| && ClosedRejects(qs, alpha, f[i])
    ensures ClosedRejects(ps, alpha, i)
  {
    forall s: set<nat> | i in s && Within(s, |ps|) ensures BonferroniRejects(ps, alpha, s) {
      var t := Image(f, s);
      ImageSize(f, s);
      assert f[i] in t && Within(t, |qs|);
      var j :| j in t && qs[j] < Threshold(alpha, |t|);
      var l :| l in s && f[l] == j;
      assert ps[l] < Threshold(alpha, |s|);
    }
  }

  lemma AdjustedOrder(a: real, b: real, ps: seq<real>, qs: seq<real>, i: nat, j: nat)
    requires i < |ps| && j < |qs| && IsAdjusted(ps, i, a) && IsAdjusted(qs, j, b)
    requires forall beta :: ClosedRejects(qs, beta, j) ==> ClosedRejects(ps, beta, i)
    ensures a <= b
  {
    var beta := (a + b) / 2.0;
    assert b < a ==> b < beta < a && 0.0 < beta < 1.0;
    var rejected := ClosedRejects(qs, beta, j);
  }

  /** Adjusted p-values grow with the family. */
  lemma LargerFamilyAdjustsMore(ps: seq<real>, qs: seq<real>, f: seq<nat>, i: nat, a: real, b: real)
    requires Embeds(ps, qs, f) && i < |ps| && IsAdjusted(ps, i, a) && IsAdjusted(qs, f[i], b)
    ensures a <= b
  {
    forall beta | ClosedRejects(qs, beta, f[i]) ensures ClosedRejects(ps, beta, i) {
      LargerFamilyRejectsLess(ps, qs, f, beta, i);
    }
    AdjustedOrder(a, b, ps, qs, i, f[i]);
  }

  /** Reordering the p-values (ties included) reorders flags and adjusted values with them. */
  lemma PermutationEquivariant(ps: seq<real>, qs: seq<real>, f: seq<nat>, g: seq<nat>, i: nat, a: real, b: real,
                               alpha: real)
    requires Embeds(ps, qs, f) && Embeds(qs, ps, g) && i < |ps| && g[f[i]] == i
    requires IsAdjusted(ps, i, a) && IsAdjusted(qs, f[i], b)
    ensures a == b && (ClosedRejects(ps, alpha, i) <==> ClosedRejects(qs, alpha, f[i]))
  {
    LargerFamilyAdjustsMore(ps, qs, f, i, a, b);
    LargerFamilyAdjustsMore(qs, ps, g, f[i], b, a);
    if ClosedRejects(qs, alpha, f[i]) {
      LargerFamilyRejectsLess(ps, qs, f, alpha, i);
    }
    if ClosedRejects(ps, alpha, i) {
      LargerFamilyRejectsLess(qs, ps, g, alpha, f[i]);
    }
  }

  /** A smaller p-value is rejected whenever a larger one is. */
  lemma SmallerRejectedFirst(ps: seq<real>, alpha: real, i: nat, j: nat)
    requires i < |ps| && j < |ps| && ps[i] <= ps[j] && ClosedRejects(ps, alpha, j)
    ensures ClosedRejects(ps, alpha, i)
  {
    forall s: set<nat> | i in s && Within(s, |ps|) ensures BonferroniRejects(ps, alpha, s) {
      if j !in s {
        var t := s - {i} + {j};
        assert |t| == |s| && Within(t, |ps|);
        var l :| l in t && ps[l] < Threshold(alpha, |t|);
        assert (if l == j then i else l) in s && ps[if l == j then i else l] < Threshold(alpha, |s|);
      }
    }
  }

  /** Adjusted p-values are monotone in p; equal p-values get equal ones. */
  lemma AdjustedMonotone(ps: seq<real>, i: nat, j: nat, a: real, b: real)
    requires i < |ps| && j < |ps| && ps[i] <= ps[j] && IsAdjusted(ps, i, a) && IsAdjusted(ps, j, b)
    ensures a <= b
  {
    forall beta | ClosedRejects(ps, beta, j) ensures ClosedRejects(ps, beta, i) {
      SmallerRejectedFirst(ps, beta, i, j);
    }
    AdjustedOrder(a, b, ps, ps, i, j);
  }
}
