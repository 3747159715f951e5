/**
 Largest-remainder apportionment over exact quotas: the seat loop of packages/abtest/src/allocation.ts, what
 pins its result down, and why it is the best integer answer.
 */
module Apportionment {
  import opened Prelude
  import opened Sorting

  function SumR(s: seq<real>): real {
    if s == [] then 0.0 else SumR(s[..|s| - 1]) + s[|s| - 1]
  }

  function Sum(s: seq<int>): int {
    if s == [] then 0 else Sum(s[..|s| - 1]) + s[|s| - 1]
  }

  function Remainder(q: real): (r: real)
    ensures 0.0 <= r < 1.0
  {
    q - q.Floor as real
  }

  function Ceiling(q: real): int {
    if Remainder(q) > 0.0 then q.Floor + 1 else q.Floor
  }

  /** Seat priority: the larger remainder first, ties by index. */
  predicate Prior(q: seq<real>, i: nat, j: nat)
    requires i < |q| && j < |q|
  {
    Remainder(q[i]) > Remainder(q[j]) || (Remainder(q[i]) == Remainder(q[j]) && i < j)
  }

  predicate Rounded(q: seq<real>, c: seq<int>) {
    |c| == |q| && forall i :: 0 <= i < |q| ==> q[i].Floor <= c[i] <= q[i].Floor + 1
  }

  /** Every quota is rounded down or one up, and a seat up never skips a quota with priority. */
  predicate Apportioned(q: seq<real>, c: seq<int>) {
    && Rounded(q, c)
    && forall i, j :: 0 <= i < |q| && 0 <= j < |q| && c[i] == q[i].Floor + 1 && c[j] == q[j].Floor ==> Prior(q, i, j)
  }

  // ---------------------------------------------------------------------------------
  // Sums
  // ---------------------------------------------------------------------------------

  lemma {:induction false} SumUpdate(s: seq<int>, i: nat, x: int)
    requires i < |s|
    ensures Sum(s[i := x]) == Sum(s) - s[i] + x
  {
    var n := |s| - 1;
    if i < n {
      assert s[i := x][..n] == s[..n][i := x];
      SumUpdate(s[..n], i, x);
    } else {
      assert s[i := x][..n] == s[..n];
    }
  }

  /** Pointwise comparison carries over to sums, strictly if it is strict somewhere. */
  lemma {:induction false} SumCompare(c: seq<int>, q: seq<real>)
    requires |c| == |q|
    requires forall i :: 0 <= i < |q| ==> c[i] as real >= q[i]
    ensures Sum(c) as real >= SumR(q)
    ensures (exists i :: 0 <= i < |q| && c[i] as real > q[i]) ==> Sum(c) as real > SumR(q)
  {
    if q != [] {
      var n := |q| - 1;
      SumCompare(c[..n], q[..n]);
      if i :| 0 <= i < |q| && c[i] as real > q[i] {
        assert i < n ==> c[..n][i] as real > q[..n][i];
      }
    }
  }

  lemma {:induction false} FloorSum(q: seq<real>, c: seq<int>)
    requires |c| == |q| && forall i :: 0 <= i < |q| ==> c[i] == q[i].Floor
    ensures Sum(c) as real <= SumR(q)
  {
    if q != [] {
      FloorSum(q[..|q| - 1], c[..|q| - 1]);
    }
  }

  lemma {:induction false} SumLess(c: seq<int>, d: seq<int>, i: nat)
    requires |c| == |d| && i < |c| && c[i] > d[i] && forall k :: 0 <= k < |c| ==> c[k] >= d[k]
    ensures Sum(c) > Sum(d)
  {
    var n := |c| - 1;
    if i < n {
      SumLess(c[..n], d[..n], i);
    } else {
      SumAtLeast(c[..n], d[..n]);
    }
  }

  lemma {:induction false} SumAtLeast(c: seq<int>, d: seq<int>)
    requires |c| == |d| && forall k :: 0 <= k < |c| ==> c[k] >= d[k]
    ensures Sum(c) >= Sum(d)
  {
    if c != [] {
      SumAtLeast(c[..|c| - 1], d[..|c| - 1]);
    }
  }

  lemma {:induction false} ZerosSum(z: seq<int>)
    requires forall i :: 0 <= i < |z| ==> z[i] == 0
    ensures Sum(z) == 0
  {
    if z != [] {
      ZerosSum(z[..|z| - 1]);
    }
  }

  // ---------------------------------------------------------------------------------
  // The seat loop
  // ---------------------------------------------------------------------------------

  datatype Ranking = Ranking(index: nat, remainder: real)

  const BY_REMAINDER: (Ranking, Ranking) -> bool :=
    (a: Ranking, b: Ranking) => a.remainder > b.remainder || (a.remainder == b.remainder && a.index < b.index)

  function Rankings(q: seq<real>): (r: seq<Ranking>)
    ensures |r| == |q| && forall i :: 0 <= i < |q| ==> r[i] == Ranking(i, Remainder(q[i]))
  {
    seq(|q|, i requires 0 <= i < |q| => Ranking(i, Remainder(q[i])))
  }

  /** The indices in seat priority. */
  function PriorityOrder(q: seq<real>): (r: seq<nat>)
    ensures |r| == |q|
  {
    var o := Sort(Rankings(q), BY_REMAINDER);
    seq(|o|, k requires 0 <= k < |o| => o[k].index)
  }

  lemma PriorityFacts(q: seq<real>)
    ensures var o := PriorityOrder(q);
            && Distinct(o)
            && (forall k :: 0 <= k < |o| ==> o[k] < |q|)
            && (forall k, l :: 0 <= k < l < |o| ==> Prior(q, o[k], o[l]))
            && (forall i :: 0 <= i < |q| ==> i in o)
  {
    var entries, sorted, o := Rankings(q), Sort(Rankings(q), BY_REMAINDER), PriorityOrder(q);
    SortPermutes(entries, BY_REMAINDER);
    SortSorts(entries, BY_REMAINDER);
    DistinctPermutation(entries, sorted);
    forall k | 0 <= k < |o| ensures o[k] < |q| && sorted[k] == Ranking(o[k], Remainder(q[o[k]])) {
      assert sorted[k] in entries;
    }
    forall k, l | 0 <= k < l < |o| ensures o[k] != o[l] && Prior(q, o[k], o[l]) {
      assert sorted[k] != sorted[l] && !BY_REMAINDER(sorted[l], sorted[k]);
    }
    forall i | 0 <= i < |q| ensures i in o {
      assert entries[i] in sorted;
      var k :| 0 <= k < |sorted| && sorted[k] == entries[i];
      assert o[k] == i;
    }
  }

  /** One seat more for each entry in turn while seats remain; `seats - remaining` entries gave one. */
  method GiveSeats(base: seq<int>, order: seq<nat>, seats: int) returns (counts: seq<int>, remaining: int)
    requires forall k :: 0 <= k < |order| ==> order[k] < |base|
    ensures |counts| == |base| && forall i :: 0 <= i < |base| ==> counts[i] >= base[i]
    ensures 0 <= seats - remaining <= |order| && Sum(counts) == Sum(base) + seats - remaining
    ensures Distinct(order) ==>
              forall l :: 0 <= l < |order| ==>
                            counts[order[l]] == base[order[l]] + if l < seats - remaining then 1 else 0
    ensures remaining > 0 ==> seats - remaining == |order|
    ensures remaining < 0 ==> seats == remaining
  {
    hide Sum;
    counts, remaining := base, seats;
    var k := 0;
    while k < |order| && remaining > 0
      invariant 0 <= k <= |order| && |counts| == |base| && forall i :: 0 <= i < |base| ==> counts[i] >= base[i]
      invariant Distinct(order) ==>
                  forall l :: 0 <= l < |order| ==> counts[order[l]] == base[order[l]] + if l < k then 1 else 0
      invariant Sum(counts) == Sum(base) + k && remaining == seats - k
      invariant k > 0 ==> remaining >= 0
    {
      var index := order[k];
      SumUpdate(counts, index, counts[index] + 1);
      counts := counts[index := counts[index] + 1];
      remaining := remaining - 1;
      k := k + 1;
    }
  }

  function Identity(n: nat): (r: seq<nat>)
    ensures |r| == n && forall i :: 0 <= i < n ==> r[i] == i
  {
    seq(n, i => i)
  }

  function Floors(q: seq<real>): (r: seq<int>)
    ensures |r| == |q| && forall i :: 0 <= i < |q| ==> r[i] == q[i].Floor
  {
    seq(|q|, i requires 0 <= i < |q| => q[i].Floor)
  }

  /** The quota of each entry. */
  function EntryQuotas(q: seq<real>, entries: seq<nat>): (r: seq<real>)
    requires forall k :: 0 <= k < |entries| ==> entries[k] < |q|
    ensures |r| == |entries| && forall k :: 0 <= k < |r| ==> r[k] == q[entries[k]]
  {
    seq(|entries|, k requires 0 <= k < |entries| => q[entries[k]])
  }

  /**
   Floors first, then one seat for each entry by its quota's remainder until none is left; `remaining` is what could not
   be placed.  An entry names a quota; usually every quota has one entry, but nothing depends on it.
   */
  method GiveByRemainder(q: seq<real>, entries: seq<nat>, target: int) returns (counts: seq<int>, remaining: int)
    requires forall k :: 0 <= k < |entries| ==> entries[k] < |q|
    ensures |counts| == |q| && forall i :: 0 <= i < |q| ==> q[i].Floor <= counts[i]
    ensures Sum(counts) + remaining == target
    ensures SumR(q) == target as real && |entries| >= |q| ==> remaining == 0
    ensures entries == Identity(|q|) ==>
              && Apportioned(q, counts)
              && (remaining > 0 ==> forall i :: 0 <= i < |q| ==> counts[i] == q[i].Floor + 1)
              && (remaining < 0 ==> forall i :: 0 <= i < |q| ==> counts[i] == q[i].Floor)
  {
    hide *;
    var base := Floors(q);
    var turns := Turns(q, entries);
    counts, remaining := GiveSeats(base, turns, target - Sum(base));
    if SumR(q) == target as real {
      SeatsInReach(q, target);
    }
    if entries == Identity(|q|) {
      GivenByPriority(q, counts, target - Sum(base) - remaining);
    }
  }

  /** Seats given in turn, one entry for every quota. */
  lemma GivenByPriority(q: seq<real>, c: seq<int>, k: nat)
    requires var turns := Turns(q, Identity(|q|));
             && |c| == |q| && k <= |turns|
             && (Distinct(turns) ==>
                   forall l :: 0 <= l < |turns| ==> c[turns[l]] == q[turns[l]].Floor + if l < k then 1 else 0)
    ensures Apportioned(q, c)
    ensures k == |q| ==> forall i :: 0 <= i < |q| ==> c[i] == q[i].Floor + 1
    ensures k == 0 ==> forall i :: 0 <= i < |q| ==> c[i] == q[i].Floor
  {
    hide Prior, Apportioned, Turns, Identity, PriorityOrder, Distinct;
    TurnsAreOrder(q);
    PriorityFacts(q);
    SeatsFollowPriority(q, PriorityOrder(q), c, k);
  }

  /** The quotas named by the entries, in the order of the entries' priority. */
  function Turns(q: seq<real>, entries: seq<nat>): (r: seq<nat>)
    requires forall k :: 0 <= k < |entries| ==> entries[k] < |q|
    ensures |r| == |entries| && forall k :: 0 <= k < |r| ==> r[k] < |q|
  {
    var order := PriorityOrder(EntryQuotas(q, entries));
    assert forall k :: 0 <= k < |order| ==> order[k] < |entries| by { PriorityFacts(EntryQuotas(q, entries)); }
    seq(|order|, k requires 0 <= k < |order| => entries[order[k]])
  }

  lemma TurnsAreOrder(q: seq<real>)
    ensures Turns(q, Identity(|q|)) == PriorityOrder(q)
  {
    hide Prior, PriorityOrder;
    assert EntryQuotas(q, Identity(|q|)) == q;
    PriorityFacts(q);
  }

  /** Quotas that add up to the target need no more seats beyond their floors than there are quotas. */
  lemma SeatsInReach(q: seq<real>, target: int)
    requires SumR(q) == target as real
    ensures 0 <= target - Sum(Floors(q)) <= |q|
  {
    FloorSum(q, Floors(q));
    var above := seq(|q|, i requires 0 <= i < |q| => q[i].Floor + 1);
    SumCompare(above, q);
    SumPlusOne(Floors(q), above);
  }

  lemma {:induction false} SumPlusOne(s: seq<int>, t: seq<int>)
    requires |s| == |t| && forall i :: 0 <= i < |s| ==> t[i] == s[i] + 1
    ensures Sum(t) == Sum(s) + |s|
  {
    if s != [] {
      SumPlusOne(s[..|s| - 1], t[..|t| - 1]);
    }
  }

  /** Every quota has one entry. */
  method LargestRemainder(q: seq<real>, target: int) returns (counts: seq<int>, remaining: int)
    ensures Apportioned(q, counts)
    ensures Sum(counts) + remaining == target
    ensures remaining > 0 ==> forall i :: 0 <= i < |q| ==> counts[i] == q[i].Floor + 1
    ensures remaining < 0 ==> forall i :: 0 <= i < |q| ==> counts[i] == q[i].Floor
  {
    hide Apportioned, Sum, SumR;
    counts, remaining := GiveByRemainder(q, Identity(|q|), target);
  }

  lemma SeatsFollowPriority(q: seq<real>, o: seq<nat>, c: seq<int>, k: nat)
    requires |c| == |q| == |o| && k <= |o|
    requires forall l :: 0 <= l < |o| ==> o[l] < |q|
    requires forall i, j :: 0 <= i < j < |o| ==> Prior(q, o[i], o[j])
    requires forall i :: 0 <= i < |q| ==> i in o
    requires forall l :: 0 <= l < |o| ==> c[o[l]] == q[o[l]].Floor + if l < k then 1 else 0
    ensures Apportioned(q, c)
    ensures k == |o| ==> forall i :: 0 <= i < |q| ==> c[i] == q[i].Floor + 1
    ensures k == 0 ==> forall i :: 0 <= i < |q| ==> c[i] == q[i].Floor
  {
    forall i | 0 <= i < |q|
      ensures q[i].Floor <= c[i] <= q[i].Floor + 1
      ensures k == |o| ==> c[i] == q[i].Floor + 1
      ensures k == 0 ==> c[i] == q[i].Floor
    {
      assert i in o;
      var a :| 0 <= a < |o| && o[a] == i;
    }
    forall i, j | 0 <= i < |q| && 0 <= j < |q| && c[i] == q[i].Floor + 1 && c[j] == q[j].Floor ensures Prior(q, i, j) {
      assert i in o && j in o;
      var a :| 0 <= a < |o| && o[a] == i;
      var b :| 0 <= b < |o| && o[b] == j;
      assert a < k <= b;
    }
  }

  // ---------------------------------------------------------------------------------
  // What an apportionment of whole quotas is
  // ---------------------------------------------------------------------------------

  /** When the quotas add up to the target, every seat is placed. */
  lemma SeatsExhausted(q: seq<real>, c: seq<int>, target: int, remaining: int)
    requires SumR(q) == target as real && |c| == |q| && Sum(c) + remaining == target
    requires remaining > 0 ==> forall i :: 0 <= i < |q| ==> c[i] == q[i].Floor + 1
    requires remaining < 0 ==> forall i :: 0 <= i < |q| ==> c[i] == q[i].Floor
    ensures remaining == 0
  {
    if remaining > 0 {
      SumCompare(c, q);
    } else if remaining < 0 {
      FloorSum(q, c);
    }
  }

  /** And nobody gets more than its quota rounded up: the quota rule. */
  lemma QuotaRule(q: seq<real>, c: seq<int>, i: nat)
    requires Apportioned(q, c) && Sum(c) as real == SumR(q) && i < |q|
    ensures q[i].Floor <= c[i] <= Ceiling(q[i])
  {
    if c[i] == q[i].Floor + 1 && Remainder(q[i]) == 0.0 {
      forall j | 0 <= j < |q| ensures c[j] as real >= q[j] {
        assert c[j] == q[j].Floor ==> Prior(q, i, j);
      }
      assert c[i] as real > q[i];
      SumCompare(c, q);
    }
  }

  /** A larger quota never gets fewer seats. */
  lemma LargerQuotaNoFewer(q: seq<real>, c: seq<int>, i: nat, j: nat)
    requires Apportioned(q, c) && i < |q| && j < |q| && q[i] > q[j]
    ensures c[i] >= c[j]
  {
    assert c[j] == q[j].Floor + 1 && c[i] == q[i].Floor ==> Prior(q, j, i);
  }

  /** The total determines the apportionment. */
  lemma ApportionmentUnique(q: seq<real>, c: seq<int>, d: seq<int>)
    requires Apportioned(q, c) && Apportioned(q, d) && Sum(c) == Sum(d)
    ensures c == d
  {
    if i :| 0 <= i < |q| && c[i] > d[i] {
      NotAllAbove(q, c, d, i);
    }
    if i :| 0 <= i < |q| && d[i] > c[i] {
      NotAllAbove(q, d, c, i);
    }
  }

  lemma NotAllAbove(q: seq<real>, c: seq<int>, d: seq<int>, i: nat)
    requires Apportioned(q, c) && Apportioned(q, d) && i < |q| && c[i] > d[i]
    ensures Sum(c) > Sum(d)
  {
    forall j | 0 <= j < |q| ensures c[j] >= d[j] {
      assert c[j] < d[j] ==> Prior(q, i, j) && Prior(q, j, i);
    }
    SumLess(c, d, i);
  }

  // ---------------------------------------------------------------------------------
  // Optimality
  // ---------------------------------------------------------------------------------

  function Abs(x: real): real {
    if x < 0.0 then -x else x
  }

  /** Total absolute deviation of integer counts from the quotas. */
  function Deviation(q: seq<real>, c: seq<int>): real
    requires |q| == |c|
  {
    if q == [] then 0.0
    else Deviation(q[..|q| - 1], c[..|q| - 1]) + Abs(c[|q| - 1] as real - q[|q| - 1])
  }

  /** `m` prices a seat so that no single group gains by moving away from its count. */
  predicate Supports(q: seq<real>, c: seq<int>, m: real) {
    && Rounded(q, c) && -1.0 <= m <= 1.0
    && forall i :: 0 <= i < |q| ==>
         if c[i] == q[i].Floor + 1 then 1.0 - 2.0 * Remainder(q[i]) <= m else m <= 1.0 - 2.0 * Remainder(q[i])
  }

  /** The smallest remainder rounded up gives such a price. */
  lemma SupportExists(q: seq<real>, c: seq<int>) returns (m: real)
    requires Apportioned(q, c)
    ensures Supports(q, c, m)
  {
    var least, up := 1.0, -1;
    for k := 0 to |q|
      invariant 0.0 <= least <= 1.0 && -1 <= up < k
      invariant forall i :: 0 <= i < k && c[i] == q[i].Floor + 1 ==> least <= Remainder(q[i])
      invariant up == -1 ==> least == 1.0
      invariant up >= 0 ==> c[up] == q[up].Floor + 1 && least == Remainder(q[up])
    {
      if c[k] == q[k].Floor + 1 && Remainder(q[k]) < least {
        least, up := Remainder(q[k]), k;
      }
    }
    m := 1.0 - 2.0 * least;
    forall j | 0 <= j < |q| && c[j] == q[j].Floor ensures Remainder(q[j]) <= least {
      assert up >= 0 ==> Prior(q, up, j);
    }
  }

  lemma ProductSign(a: real, b: real)
    requires a >= 0.0 && b >= 0.0
    ensures a * b >= 0.0
  {
  }

  /** What `seats` seats are worth. */
  function Price(m: real, seats: int): real {
    m * (seats as real)
  }

  lemma PriceAdds(m: real, a: int, b: int)
    ensures Price(m, a + b) == Price(m, a) + Price(m, b)
  {
  }

  /** Moving one group from `c` to `x` seats costs at least the price of the seats. */
  lemma MovingCosts(q: real, c: int, x: int, m: real)
    requires -1.0 <= m <= 1.0
    requires c == q.Floor || c == q.Floor + 1
    requires if c == q.Floor + 1 then 1.0 - 2.0 * Remainder(q) <= m else m <= 1.0 - 2.0 * Remainder(q)
    ensures Abs(x as real - q) - Abs(c as real - q) >= Price(m, x - c)
  {
    var d := (x - c) as real;
    var r := Remainder(q);
    if d >= 1.0 {
      ProductSign(1.0 - m, d);
      assert m * d <= d;
      if c == q.Floor {
        ProductSign(1.0 - 2.0 * r - m, d);
        ProductSign(d - 1.0, r);
        assert m * d <= (1.0 - 2.0 * r) * d == d - 2.0 * (r * d);
      }
    } else if d <= -1.0 {
      ProductSign(1.0 + m, -d);
      assert m * d <= -d;
      if c == q.Floor + 1 {
        ProductSign(m - (1.0 - 2.0 * r), -d);
        ProductSign(-d - 1.0, 1.0 - r);
        assert m * d <= (1.0 - 2.0 * r) * d == d - 2.0 * (r * d);
      }
    }
  }

  lemma {:induction false} PricedDeviation(q: seq<real>, c: seq<int>, x: seq<int>, m: real)
    requires Supports(q, c, m) && |x| == |q|
    ensures Deviation(q, x) - Deviation(q, c) >= Price(m, Sum(x) - Sum(c))
  {
    hide Price, Abs;
    if q == [] {
      PriceAdds(m, 0, 0);
    } else {
      var n := |q| - 1;
      PricedDeviation(q[..n], c[..n], x[..n], m);
      MovingCosts(q[n], c[n], x[n], m);
      PriceAdds(m, Sum(x[..n]) - Sum(c[..n]), x[n] - c[n]);
    }
  }

  /** No integer vector with the same total, negative entries allowed, deviates less from the quotas. */
  lemma LeastDeviation(q: seq<real>, c: seq<int>, x: seq<int>)
    requires Apportioned(q, c) && |x| == |q| && Sum(x) == Sum(c)
    ensures Deviation(q, c) <= Deviation(q, x)
  {
    var m := SupportExists(q, c);
    PricedDeviation(q, c, x, m);
  }
}
