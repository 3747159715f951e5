/**
 When the column correction can go on: the counting arguments that give a swap, or a swap that respects floors, to every
 unresolved matrix of certain shapes.
 */
module QuotaProgress {
  import opened Apportionment
  import opened QuotaMatrix

  // ---------------------------------------------------------------------------------
  // Counting positive entries
  // ---------------------------------------------------------------------------------

  function Positives(x: seq<real>): nat {
    if x == [] then 0 else Positives(x[..|x| - 1]) + if x[|x| - 1] > 0.0 then 1 else 0
  }

  /** `count` caps, as a real number. */
  function Caps(count: nat, cap: real): real {
    count as real * cap
  }

  lemma CapsStep(count: nat, cap: real)
    ensures Caps(count + 1, cap) == Caps(count, cap) + cap && Caps(0, cap) == 0.0
  {
    assert (count + 1) as real == count as real + 1.0;
  }

  /** A sum is at most its positive entries at their cap; it is less if some entry is negative or below the cap. */
  lemma {:induction false} SumCapped(x: seq<real>, cap: real)
    requires forall s :: 0 <= s < |x| ==> x[s] <= cap
    ensures SumR(x) <= Caps(Positives(x), cap)
    ensures (exists s :: 0 <= s < |x| && x[s] < 0.0) ==> SumR(x) < Caps(Positives(x), cap)
    ensures (exists s :: 0 <= s < |x| && 0.0 < x[s] < cap) ==> SumR(x) < Caps(Positives(x), cap)
  {
    hide Caps;
    CapsStep(0, cap);
    if x != [] {
      var n := |x| - 1;
      SumCapped(x[..n], cap);
      CapsStep(Positives(x[..n]), cap);
      assert forall s :: 0 <= s < n ==> x[..n][s] == x[s];
      assert (exists s :: 0 <= s < |x| && x[s] < 0.0) ==> x[n] < 0.0 || exists s :: 0 <= s < n && x[..n][s] < 0.0;
      assert (exists s :: 0 <= s < |x| && 0.0 < x[s] < cap) ==>
          0.0 < x[n] < cap || exists s :: 0 <= s < n && 0.0 < x[..n][s] < cap;
    }
  }

  lemma {:induction false} SomePositive(x: seq<real>) returns (s: nat)
    requires SumR(x) > 0.0
    ensures s < |x| && x[s] > 0.0
  {
    var n := |x| - 1;
    if x[n] > 0.0 {
      s := n;
    } else {
      s := SomePositive(x[..n]);
    }
  }

  /** Entries that are never positive together. */
  predicate Apart(x: seq<real>, y: seq<real>) {
    |x| == |y| && forall s :: 0 <= s < |x| ==> x[s] <= 0.0 || y[s] <= 0.0
  }

  lemma {:induction false} ApartCounts(x: seq<real>, y: seq<real>)
    requires Apart(x, y)
    ensures Positives(x) + Positives(y) <= |x|
  {
    if x != [] {
      ApartCounts(x[..|x| - 1], y[..|y| - 1]);
    }
  }

  lemma {:induction false} ThreeApartCounts(x: seq<real>, y: seq<real>, z: seq<real>)
    requires Apart(x, y) && Apart(y, z) && Apart(x, z)
    ensures Positives(x) + Positives(y) + Positives(z) <= |x|
  {
    if x != [] {
      ThreeApartCounts(x[..|x| - 1], y[..|y| - 1], z[..|z| - 1]);
    }
  }

  predicate Below(x: seq<real>, cap: real) {
    forall s :: 0 <= s < |x| ==> x[s] < cap
  }

  predicate AtMost(x: seq<real>, cap: real) {
    forall s :: 0 <= s < |x| ==> x[s] <= cap
  }

  /** Entries below one that add up to at least `n` are more than `n`. */
  lemma MoreThan(x: seq<real>, n: nat)
    requires Below(x, 1.0) && SumR(x) >= n as real && n >= 1
    ensures Positives(x) >= n + 1
  {
    SumCapped(x, 1.0);
    var s := SomePositive(x);
    assert 0.0 < x[s] < 1.0;
  }

  /** Halves that add up to more than one are three. */
  lemma ThreeHalves(x: seq<real>)
    requires AtMost(x, 0.5) && SumR(x) >= 1.0
    requires Below(x, 0.5) || exists s :: 0 <= s < |x| && x[s] < 0.0
    ensures Positives(x) >= 3
  {
    SumCapped(x, 0.5);
    var s := SomePositive(x);
    assert Below(x, 0.5) ==> 0.0 < x[s] < 0.5;
  }

  lemma {:induction false} AllAtCap(x: seq<real>, cap: real, s: nat)
    requires AtMost(x, cap) && SumR(x) >= Caps(|x|, cap) && s < |x|
    ensures x[s] == cap
  {
    hide Caps;
    var n := |x| - 1;
    CapsStep(n, cap);
    SumAtMost(x[..n], cap);
    if s < n {
      AllAtCap(x[..n], cap, s);
    }
  }

  lemma {:induction false} SumAtMost(x: seq<real>, cap: real)
    requires AtMost(x, cap)
    ensures SumR(x) <= Caps(|x|, cap)
  {
    hide Caps;
    CapsStep(0, cap);
    if x != [] {
      CapsStep(|x| - 1, cap);
      SumAtMost(x[..|x| - 1], cap);
    }
  }

  // ---------------------------------------------------------------------------------
  // Excess over the ideals
  // ---------------------------------------------------------------------------------

  /** The ideals have the right row and column sums, and none is negative. */
  predicate Exact(ideal: Ideals, q: Matrix, counts: seq<int>) {
    && |ideal| == |q| && Shape(ideal, |counts|) && Shape(q, |counts|)
    && (forall s :: 0 <= s < |q| ==> SumR(ideal[s]) == Sum(q[s]) as real)
    && (forall g :: 0 <= g < |counts| ==> ColR(ideal, g) == counts[g] as real)
    && (forall s, g :: 0 <= s < |q| && 0 <= g < |counts| ==> ideal[s][g] >= 0.0)
  }

  /** The ideals and the matrix have a column `g`. */
  predicate HasColumn(ideal: Ideals, q: Matrix, g: nat) {
    |ideal| == |q| && forall s :: 0 <= s < |q| ==> g < |ideal[s]| && g < |q[s]|
  }

  /** What column `g` has over its ideals, row by row. */
  function Over(ideal: Ideals, q: Matrix, g: nat): (x: seq<real>)
    requires HasColumn(ideal, q, g)
    ensures |x| == |q| && forall s :: 0 <= s < |q| ==> x[s] == q[s][g] as real - ideal[s][g]
  {
    seq(|q|, s requires 0 <= s < |q| => q[s][g] as real - ideal[s][g])
  }

  /** What column `g` lacks. */
  function Under(ideal: Ideals, q: Matrix, g: nat): (x: seq<real>)
    requires HasColumn(ideal, q, g)
    ensures |x| == |q| && forall s :: 0 <= s < |q| ==> x[s] == ideal[s][g] - q[s][g] as real
  {
    seq(|q|, s requires 0 <= s < |q| => ideal[s][g] - q[s][g] as real)
  }

  lemma {:induction false} ExcessSum(ideal: Ideals, q: Matrix, g: nat)
    requires HasColumn(ideal, q, g)
    ensures SumR(Over(ideal, q, g)) == Col(q, g) as real - ColR(ideal, g)
    ensures SumR(Under(ideal, q, g)) == ColR(ideal, g) - Col(q, g) as real
  {
    if q != [] {
      var n := |q| - 1;
      ExcessSum(ideal[..n], q[..n], g);
      assert Over(ideal, q, g)[..n] == Over(ideal[..n], q[..n], g);
      assert Under(ideal, q, g)[..n] == Under(ideal[..n], q[..n], g);
    }
  }

  /** A deficit column lacks, and a surplus column has, what its deficit says. */
  lemma ExcessIsDeficit(ideal: Ideals, q: Matrix, d: seq<int>, counts: seq<int>, g: nat)
    requires Deficits(q, d, counts) && Exact(ideal, q, counts) && g < |d|
    ensures HasColumn(ideal, q, g)
    ensures SumR(Over(ideal, q, g)) == -d[g] as real && SumR(Under(ideal, q, g)) == d[g] as real
  {
    ExcessSum(ideal, q, g);
  }

  /** No swap from `b` to `a` respects floors. */
  ghost predicate NoBoundedSwap(ideal: Ideals, q: Matrix, d: seq<int>, a: nat, b: nat) {
    forall s: nat :: !(Feasible(ideal, q, d, Swap(a, b, s)) && KeepsFloor(ideal, q, d, Swap(a, b, s)))
  }

  predicate Tight(ideal: Ideals, q: Matrix, columns: nat) {
    AboveFloor(ideal, q, columns) && BelowCeiling(ideal, q, columns)
  }

  /** Without a bounded swap no row has something over in `b` and lacks something in `a`. */
  lemma RowsApart(ideal: Ideals, q: Matrix, d: seq<int>, counts: seq<int>, a: nat, b: nat)
    requires Deficits(q, d, counts) && Exact(ideal, q, counts) && BelowCeiling(ideal, q, |d|)
    requires a < |d| && b < |d| && d[a] > 0 && d[b] < 0 && NoBoundedSwap(ideal, q, d, a, b)
    ensures Apart(Over(ideal, q, b), Under(ideal, q, a))
  {
    forall s: nat | s < |q|
      ensures q[s][b] as real <= ideal[s][b] || q[s][a] as real >= ideal[s][a]
    {
      assert !(Feasible(ideal, q, d, Swap(a, b, s)) && KeepsFloor(ideal, q, d, Swap(a, b, s)));
    }
  }

  lemma TightExcess(ideal: Ideals, q: Matrix, columns: nat, g: nat)
    requires Tight(ideal, q, columns) && g < columns
    ensures Below(Over(ideal, q, g), 1.0) && Below(Under(ideal, q, g), 1.0)
  {
  }

  /** At most three rows: a tight matrix with a deficit and a surplus has a bounded swap between them. */
  lemma FewRowsSwap(ideal: Ideals, q: Matrix, d: seq<int>, counts: seq<int>, a: nat, b: nat)
    requires Deficits(q, d, counts) && Exact(ideal, q, counts) && Tight(ideal, q, |d|)
    requires a < |d| && b < |d| && d[a] > 0 && d[b] < 0 && |q| <= 3
    ensures !NoBoundedSwap(ideal, q, d, a, b)
  {
    if NoBoundedSwap(ideal, q, d, a, b) {
      var x, y := Over(ideal, q, b), Under(ideal, q, a);
      RowsApart(ideal, q, d, counts, a, b);
      ExcessIsDeficit(ideal, q, d, counts, a);
      ExcessIsDeficit(ideal, q, d, counts, b);
      TightExcess(ideal, q, |d|, a);
      TightExcess(ideal, q, |d|, b);
      MoreThan(x, 1);
      MoreThan(y, 1);
      ApartCounts(x, y);
    }
  }

  // ---------------------------------------------------------------------------------
  // Two columns
  // ---------------------------------------------------------------------------------

  lemma TwoSum(r: seq<real>, c: seq<int>)
    requires |r| == |c| == 2
    ensures SumR(r) == r[0] + r[1] && Sum(c) == c[0] + c[1]
  {
    assert r[..1] == [r[0]] && c[..1] == [c[0]];
    assert [r[0]][..0] == [] && [c[0]][..0] == [];
    assert SumR([r[0]]) == r[0];
    assert Sum([c[0]]) == c[0];
  }

  /** With two columns some row has a seat too many in the surplus column and one too few in the other. */
  lemma TwoColumnsSwap(ideal: Ideals, q: Matrix, d: seq<int>, counts: seq<int>, a: nat, b: nat)
    requires |d| == 2 && Deficits(q, d, counts) && Exact(ideal, q, counts)
    requires a < 2 && b < 2 && d[a] > 0 && d[b] < 0
    ensures !NoBoundedSwap(ideal, q, d, a, b)
  {
    ExcessIsDeficit(ideal, q, d, counts, b);
    var s := SomePositive(Over(ideal, q, b));
    TwoSum(ideal[s], q[s]);
    assert Feasible(ideal, q, d, Swap(a, b, s)) && KeepsFloor(ideal, q, d, Swap(a, b, s));
  }

  // ---------------------------------------------------------------------------------
  // Three columns
  // ---------------------------------------------------------------------------------

  lemma ThreeSum(r: seq<real>, c: seq<int>)
    requires |r| == |c| == 3
    ensures SumR(r) == r[0] + r[1] + r[2] && Sum(c) == c[0] + c[1] + c[2]
  {
    TwoSum(r[..2], c[..2]);
  }

  /** `a`, `b` and `c` are the three columns in some order. */
  predicate AreTheThree(a: nat, b: nat, c: nat) {
    a < 3 && b < 3 && c < 3 && a != b && b != c && a != c
  }

  /** What a row has over in two columns it lacks in the third. */
  lemma RowBalance(ideal: Ideals, q: Matrix, counts: seq<int>, a: nat, b: nat, c: nat)
    requires Exact(ideal, q, counts) && |counts| == 3 && AreTheThree(a, b, c)
    ensures forall s :: 0 <= s < |q| ==>
              Over(ideal, q, b)[s] + Over(ideal, q, c)[s] == Under(ideal, q, a)[s]
  {
    forall s | 0 <= s < |q|
      ensures Over(ideal, q, b)[s] + Over(ideal, q, c)[s] == Under(ideal, q, a)[s]
    {
      ThreeSum(ideal[s], q[s]);
    }
  }

  lemma SevenRows(x: seq<real>, y: seq<real>, z: seq<real>)
    requires Apart(x, y) && Apart(y, z) && |x| == |z| && forall s :: 0 <= s < |x| ==> x[s] + z[s] == y[s]
    requires Below(x, 1.0) && Below(y, 1.0) && Below(z, 1.0)
    requires SumR(x) >= 1.0 && SumR(y) >= 2.0 && SumR(z) >= 1.0
    ensures |x| >= 7
  {
    assert Apart(x, z);
    hide SumR, Below, Positives;
    MoreThan(x, 1);
    MoreThan(y, 2);
    MoreThan(z, 1);
    ThreeApartCounts(x, y, z);
  }

  /** Two surplus columns without a bounded swap need seven rows. */
  lemma TwoSurplusesStuck(ideal: Ideals, q: Matrix, d: seq<int>, counts: seq<int>, a: nat, b: nat, c: nat)
    requires |d| == |counts| == 3 && Deficits(q, d, counts) && Exact(ideal, q, counts) && Tight(ideal, q, 3)
    requires AreTheThree(a, b, c) && d[a] >= 2 && d[b] < 0 && d[c] < 0
    requires NoBoundedSwap(ideal, q, d, a, b) && NoBoundedSwap(ideal, q, d, a, c)
    ensures |q| >= 7
  {
    hide *;
    assert a < 3 && b < 3 && c < 3 by { ColumnBounds(a, b, c); }
    ExcessIsDeficit(ideal, q, d, counts, a);
    ExcessIsDeficit(ideal, q, d, counts, b);
    ExcessIsDeficit(ideal, q, d, counts, c);
    TightCeiling(ideal, q, 3);
    RowsApart(ideal, q, d, counts, a, b);
    RowsApart(ideal, q, d, counts, a, c);
    ApartSymmetric(Over(ideal, q, c), Under(ideal, q, a));
    RowBalance(ideal, q, counts, a, b, c);
    TightExcess(ideal, q, 3, a);
    TightExcess(ideal, q, 3, b);
    TightExcess(ideal, q, 3, c);
    SevenRows(Over(ideal, q, b), Under(ideal, q, a), Over(ideal, q, c));
  }

  lemma ColumnBounds(a: nat, b: nat, c: nat)
    requires AreTheThree(a, b, c)
    ensures a < 3 && b < 3 && c < 3
  {
  }

  /** With two surplus columns and at most six rows one of them has a bounded swap with the deficit column. */
  lemma TwoSurplusesSwap(ideal: Ideals, q: Matrix, d: seq<int>, counts: seq<int>, a: nat, b: nat, c: nat)
    requires |d| == |counts| == 3 && Deficits(q, d, counts) && Exact(ideal, q, counts) && Tight(ideal, q, 3)
    requires AreTheThree(a, b, c) && d[b] < 0 && d[c] < 0 && Sum(d) == 0 && |q| <= 6
    ensures d[a] > 0 && !(NoBoundedSwap(ideal, q, d, a, b) && NoBoundedSwap(ideal, q, d, a, c))
  {
    hide NoBoundedSwap, Tight, Deficits, Exact, Sum;
    ThreeSum([0.0, 0.0, 0.0], d);
    if NoBoundedSwap(ideal, q, d, a, b) && NoBoundedSwap(ideal, q, d, a, c) {
      TwoSurplusesStuck(ideal, q, d, counts, a, b, c);
    }
  }

  lemma ApartSymmetric(x: seq<real>, y: seq<real>)
    requires Apart(x, y)
    ensures Apart(y, x)
  {
  }

  lemma TightCeiling(ideal: Ideals, q: Matrix, columns: nat)
    requires Tight(ideal, q, columns)
    ensures BelowCeiling(ideal, q, columns) && AboveFloor(ideal, q, columns)
  {
  }

  /** A row of three: its quotas, its apportionment `u`, and what it has become, with the same sum. */
  predicate RowFacts(r: seq<real>, u: seq<int>, v: seq<int>, a: nat, b: nat, c: nat) {
    && |r| == |u| == |v| == 3 && AreTheThree(a, b, c)
    && Apportioned(r, u) && SumR(r) == Sum(u) as real && Sum(v) == Sum(u)
    && u[a] <= v[a] && v[b] <= u[b]
    && r[c].Floor <= v[c] <= Ceiling(r[c])
  }

  lemma ColumnsSum(r: seq<real>, u: seq<int>, a: nat, b: nat, c: nat)
    requires |r| == |u| == 3 && AreTheThree(a, b, c)
    ensures SumR(r) == r[a] + r[b] + r[c] && Sum(u) == u[a] + u[b] + u[c]
  {
    hide Sum, SumR;
    ThreeSum(r, u);
  }

  lemma UpBeforeDown(r: seq<real>, u: seq<int>, g: nat, h: nat)
    requires Apportioned(r, u) && g < |r| && h < |r| && u[g] == r[g].Floor + 1 && u[h] == r[h].Floor
    ensures Remainder(r[g]) >= Remainder(r[h])
  {
    assert Prior(r, g, h);
  }

  /** The row facts in numbers. */
  lemma RowNumbers(r: seq<real>, u: seq<int>, v: seq<int>, a: nat, b: nat, c: nat)
    requires RowFacts(r, u, v, a, b, c)
    ensures r[a] + r[b] + r[c] == (u[a] + u[b] + u[c]) as real && v[a] + v[b] + v[c] == u[a] + u[b] + u[c]
    ensures forall g :: 0 <= g < 3 ==> r[g].Floor <= u[g] <= Ceiling(r[g])
    ensures forall g, h :: 0 <= g < 3 && 0 <= h < 3 && u[g] == r[g].Floor + 1 && u[h] == r[h].Floor ==>
              Remainder(r[g]) >= Remainder(r[h])
  {
    hide Sum, SumR, Apportioned, Remainder, Ceiling;
    ColumnsSum(r, u, a, b, c);
    ColumnsSum(r, v, a, b, c);
    forall g: nat | g < 3 ensures r[g].Floor <= u[g] <= Ceiling(r[g]) {
      QuotaRule(r, u, g);
    }
    forall g: nat, h: nat | g < 3 && h < 3 && u[g] == r[g].Floor + 1 && u[h] == r[h].Floor
      ensures Remainder(r[g]) >= Remainder(r[h])
    {
      UpBeforeDown(r, u, g, h);
    }
  }

  /** Where `a` is at its ceiling, `b` has at most a half over. */
  lemma HalfOver(r: seq<real>, u: seq<int>, v: seq<int>, a: nat, b: nat, c: nat)
    requires RowFacts(r, u, v, a, b, c) && v[a] == Ceiling(r[a]) && v[b] as real > r[b]
    ensures v[b] as real - r[b] <= 0.5
  {
    hide Apportioned, Sum, SumR;
    RowNumbers(r, u, v, a, b, c);
  }

  /** Where `b` has nothing over, `a` lacks at most a half, and less if `b` lacks something. */
  lemma HalfUnder(r: seq<real>, u: seq<int>, v: seq<int>, a: nat, b: nat, c: nat)
    requires RowFacts(r, u, v, a, b, c) && v[b] <= r[b].Floor && v[a] as real < r[a]
    ensures r[a] - v[a] as real <= 0.5
    ensures v[b] as real < r[b] ==> r[a] - v[a] as real < 0.5
  {
    hide Apportioned, Sum, SumR;
    RowNumbers(r, u, v, a, b, c);
    if v[b] == u[b] {
      assert u[c] == r[c].Floor + 1;
      assert Remainder(r[c]) >= Remainder(r[a]);
    } else {
      assert v[c] > u[c];
      assert u[c] == r[c].Floor && u[b] == r[b].Floor + 1;
      assert Remainder(r[b]) >= Remainder(r[a]);
    }
  }

  // ---------------------------------------------------------------------------------
  // Matrices that a run of swaps has reached
  // ---------------------------------------------------------------------------------

  /** Deficit columns have only received and surplus columns have only given, and none has overshot. */
  predicate Drifted(start: Matrix, q: Matrix, d0: seq<int>, d: seq<int>) {
    && |start| == |q| && |d0| == |d| && Shape(start, |d|) && Shape(q, |d|)
    && (forall g :: 0 <= g < |d| ==> (d0[g] >= 0 ==> d[g] >= 0) && (d0[g] <= 0 ==> d[g] <= 0))
    && (forall s, g :: 0 <= s < |q| && 0 <= g < |d| ==>
          (d0[g] >= 0 ==> start[s][g] <= q[s][g]) && (d0[g] <= 0 ==> q[s][g] <= start[s][g]))
  }

  function Times(x: real, y: real): real {
    x * y
  }

  /** The rows of the ideals are proportional to each other. */
  predicate Proportional(ideal: Ideals, columns: nat) {
    && Shape(ideal, columns)
    && forall s, t, g, h :: 0 <= s < |ideal| && 0 <= t < |ideal| && 0 <= g < columns && 0 <= h < columns ==>
         Times(ideal[s][g], ideal[t][h]) == Times(ideal[s][h], ideal[t][g])
  }

  /** `q` was reached from the row apportionment `start` of proportional ideals with the right sums. */
  ghost predicate Reached(ideal: Ideals, start: Matrix, q: Matrix, d: seq<int>, counts: seq<int>) {
    && Exact(ideal, start, counts) && Exact(ideal, q, counts) && Deficits(q, d, counts)
    && RowsApportioned(ideal, start) && Proportional(ideal, |counts|)
    && Drifted(start, q, DeficitsOf(start, counts), d)
    && BelowCeiling(ideal, q, |counts|)
  }

  /** Column `c` is at floor or above. */
  predicate ColumnAboveFloor(ideal: Ideals, q: Matrix, c: nat) {
    HasColumn(ideal, q, c) && forall s :: 0 <= s < |q| ==> ideal[s][c].Floor <= q[s][c]
  }

  lemma ReachedRow(ideal: Ideals, start: Matrix, q: Matrix, d: seq<int>, counts: seq<int>, a: nat, b: nat, c: nat,
                   s: nat)
    requires Reached(ideal, start, q, d, counts) && |counts| == |d| == 3 && AreTheThree(a, b, c) && s < |q|
    requires d[a] > 0 && d[b] < 0 && ColumnAboveFloor(ideal, q, c)
    ensures RowFacts(ideal[s], start[s], q[s], a, b, c)
  {
    hide Apportioned, Sum, SumR, Proportional;
    assert Apportioned(ideal[s], start[s]);
  }

  lemma {:induction false} SumPointwise(x: seq<real>, y: seq<real>, f: seq<real>)
    requires |x| == |y| == |f| && forall s :: 0 <= s < |f| ==> f[s] == x[s] + y[s]
    ensures SumR(f) == SumR(x) + SumR(y)
  {
    if f != [] {
      SumPointwise(x[..|x| - 1], y[..|y| - 1], f[..|f| - 1]);
    }
  }

  /** Without a bounded swap, a row of three has together at most a half over in `b` and lacking in `a`. */
  lemma HalfPerRow(ideal: Ideals, start: Matrix, q: Matrix, d: seq<int>, counts: seq<int>,
                   a: nat, b: nat, c: nat, s: nat)
    requires Reached(ideal, start, q, d, counts) && Tight(ideal, q, 3) && |counts| == |d| == 3
    requires AreTheThree(a, b, c) && d[a] > 0 && d[b] < 0 && s < |q| && HasColumn(ideal, q, a) && HasColumn(ideal, q, b)
    requires Apart(Over(ideal, q, b), Under(ideal, q, a))
    ensures Over(ideal, q, b)[s] + Under(ideal, q, a)[s] <= 0.5
    ensures Over(ideal, q, b)[s] <= 0.5 && Under(ideal, q, a)[s] <= 0.5
  {
    hide Apportioned, Sum, SumR, Proportional, RowFacts, RowsApportioned, Deficits, Drifted;
    ReachedRow(ideal, start, q, d, counts, a, b, c, s);
    var x, y := Over(ideal, q, b), Under(ideal, q, a);
    if x[s] > 0.0 {
      assert y[s] <= 0.0;
      HalfOver(ideal[s], start[s], q[s], a, b, c);
    } else if y[s] > 0.0 {
      HalfUnder(ideal[s], start[s], q[s], a, b, c);
    }
  }

  /** Products of halves of odd numbers are not halves of integers. */
  lemma Parity(w: real, x: real, y: real, z: real, m: int, n: int, k: int, l: int)
    requires w == m as real - 0.5 && x == n as real - 0.5 && y == k as real + 0.5 && z == l as real
    ensures Times(w, x) != Times(y, z)
  {
    assert 4.0 * Times(w, x) == ((2 * m - 1) * (2 * n - 1)) as real by {
      assert ((2 * m - 1) * (2 * n - 1)) as real == (2 * m - 1) as real * (2 * n - 1) as real;
    }
    assert 4.0 * Times(y, z) == (2 * ((2 * k + 1) * l)) as real by {
      assert ((2 * k + 1) * l) as real == (2 * k + 1) as real * l as real;
    }
    assert (2 * m - 1) * (2 * n - 1) == 2 * (2 * m * n - m - n) + 1;
  }

  /** The halves would have to be exact in four rows, which proportional ideals exclude. */
  lemma ExactHalves(ideal: Ideals, start: Matrix, q: Matrix, d: seq<int>, counts: seq<int>,
                    a: nat, b: nat, c: nat, i: nat, j: nat)
    requires Reached(ideal, start, q, d, counts) && |counts| == 3 && AreTheThree(a, b, c) && i < |q| && j < |q|
    requires HasColumn(ideal, q, a) && HasColumn(ideal, q, b)
    requires Over(ideal, q, b)[i] == 0.5 && Under(ideal, q, a)[i] == 0.0
    ensures !(Over(ideal, q, b)[j] == 0.0 && Under(ideal, q, a)[j] == 0.5)
  {
    hide Reached, Times;
    ReachedBalance(ideal, start, q, d, counts, a, b, c);
    ReachedProportion(ideal, start, q, d, counts, i, j, b, c);
    if Over(ideal, q, b)[j] == 0.0 && Under(ideal, q, a)[j] == 0.5 {
      Parity(ideal[i][b], ideal[j][c], ideal[i][c], ideal[j][b], q[i][b], q[j][c], q[i][c], q[j][b]);
    }
  }

  /** Three columns without a bounded swap need five rows. */
  lemma ThreeColumnsStuck(ideal: Ideals, start: Matrix, q: Matrix, d: seq<int>, counts: seq<int>, a: nat, b: nat,
                          c: nat)
    requires Reached(ideal, start, q, d, counts) && Tight(ideal, q, 3) && |counts| == |d| == 3
    requires AreTheThree(a, b, c) && d[a] > 0 && d[b] < 0 && HasColumn(ideal, q, a) && HasColumn(ideal, q, b)
    requires Apart(Over(ideal, q, b), Under(ideal, q, a))
    ensures |q| >= 5
  {
    hide Reached, Tight, SumR, Caps, Times;
    var x, y := Over(ideal, q, b), Under(ideal, q, a);
    var f := seq(|q|, s requires 0 <= s < |q| => x[s] + y[s]);
    forall s: nat | s < |q| ensures f[s] <= 0.5 && x[s] <= 0.5 && y[s] <= 0.5 {
      HalfPerRow(ideal, start, q, d, counts, a, b, c, s);
    }
    SumPointwise(x, y, f);
    ReachedSums(ideal, start, q, d, counts, a, b);
    SumAtMost(f, 0.5);
    HalvesTotal(|q|);
    if |q| == 4 {
      var i := SomePositive(x);
      var j := SomePositive(y);
      AllAtCap(f, 0.5, i);
      AllAtCap(f, 0.5, j);
      ExactHalves(ideal, start, q, d, counts, a, b, c, i, j);
    }
  }

  lemma HalvesTotal(n: nat)
    ensures Caps(4, 0.5) == 2.0 && (Caps(n, 0.5) >= 2.0 ==> n >= 4)
  {
  }

  lemma ReachedSums(ideal: Ideals, start: Matrix, q: Matrix, d: seq<int>, counts: seq<int>, a: nat, b: nat)
    requires Reached(ideal, start, q, d, counts) && a < |d| && b < |d| && d[a] > 0 && d[b] < 0
    ensures HasColumn(ideal, q, a) && HasColumn(ideal, q, b)
    ensures SumR(Over(ideal, q, b)) >= 1.0 && SumR(Under(ideal, q, a)) >= 1.0
  {
    hide Proportional, RowsApportioned, Drifted, BelowCeiling;
    ExcessIsDeficit(ideal, q, d, counts, a);
    ExcessIsDeficit(ideal, q, d, counts, b);
  }

  lemma ReachedBalance(ideal: Ideals, start: Matrix, q: Matrix, d: seq<int>, counts: seq<int>, a: nat, b: nat, c: nat)
    requires Reached(ideal, start, q, d, counts) && |counts| == 3 && AreTheThree(a, b, c)
    ensures HasColumn(ideal, q, a) && HasColumn(ideal, q, b) && HasColumn(ideal, q, c)
    ensures forall s :: 0 <= s < |q| ==> Over(ideal, q, b)[s] + Over(ideal, q, c)[s] == Under(ideal, q, a)[s]
  {
    hide Proportional, RowsApportioned, Drifted, BelowCeiling, Deficits;
    RowBalance(ideal, q, counts, a, b, c);
  }

  lemma ReachedProportion(ideal: Ideals, start: Matrix, q: Matrix, d: seq<int>, counts: seq<int>,
                          i: nat, j: nat, b: nat, c: nat)
    requires Reached(ideal, start, q, d, counts) && i < |q| && j < |q| && b < |counts| && c < |counts|
    ensures |ideal| == |q| && |ideal[i]| == |ideal[j]| == |counts|
    ensures Times(ideal[i][b], ideal[j][c]) == Times(ideal[i][c], ideal[j][b])
  {
  }

  // ---------------------------------------------------------------------------------
  // Stuck matrices of three columns
  // ---------------------------------------------------------------------------------

  /** In a stuck matrix a row lacks something in `a` only if it has no seat left in `b`. */
  lemma StuckRow(ideal: Ideals, start: Matrix, q: Matrix, d: seq<int>, counts: seq<int>,
                 a: nat, b: nat, c: nat, s: nat)
    requires Reached(ideal, start, q, d, counts) && |counts| == |d| == 3 && Stuck(ideal, q, d)
    requires AreTheThree(a, b, c) && d[a] > 0 && d[b] < 0 && s < |q| && ColumnAboveFloor(ideal, q, c)
    requires HasColumn(ideal, q, a) && HasColumn(ideal, q, b)
    ensures Over(ideal, q, b)[s] <= 0.0 || Under(ideal, q, a)[s] <= 0.0
    ensures Over(ideal, q, b)[s] <= 0.5
    ensures Under(ideal, q, a)[s] > 0.0 ==> q[s][b] == 0 && Under(ideal, q, a)[s] <= 0.5
    ensures Under(ideal, q, a)[s] > 0.0 && ideal[s][b] > 0.0 ==> Under(ideal, q, a)[s] < 0.5
  {
    hide Apportioned, Sum, SumR, Proportional, RowFacts, RowsApportioned, Drifted;
    ReachedRow(ideal, start, q, d, counts, a, b, c, s);
    assert !Feasible(ideal, q, d, Swap(a, b, s));
    if Over(ideal, q, b)[s] > 0.0 {
      HalfOver(ideal[s], start[s], q[s], a, b, c);
    } else if Under(ideal, q, a)[s] > 0.0 {
      HalfUnder(ideal[s], start[s], q[s], a, b, c);
    }
  }

  /** Where some row has an ideal in `b`, every row with an ideal in `a` has one in `b`. */
  lemma PositiveTogether(ideal: Ideals, start: Matrix, q: Matrix, d: seq<int>, counts: seq<int>,
                         a: nat, b: nat, s: nat, t: nat)
    requires Reached(ideal, start, q, d, counts) && a < |counts| && b < |counts| && s < |q| && t < |q|
    requires |ideal| == |q| && |ideal[s]| == |ideal[t]| == |counts| && ideal[s][a] > 0.0 && ideal[t][b] > 0.0
    ensures ideal[s][b] > 0.0
  {
    ReachedProportion(ideal, start, q, d, counts, s, t, a, b);
    NonzeroFactor(ideal[s][a], ideal[t][b], ideal[s][b], ideal[t][a]);
    assert ideal[s][b] >= 0.0;
  }

  lemma NonzeroFactor(w: real, x: real, y: real, z: real)
    requires Times(w, x) == Times(y, z) && w > 0.0 && x > 0.0
    ensures y != 0.0
  {
    assert w * x > 0.0;
  }

  /** A stuck matrix of three columns with a deficit has six rows. */
  lemma SixRows(ideal: Ideals, start: Matrix, q: Matrix, d: seq<int>, counts: seq<int>, a: nat, b: nat, c: nat)
    requires Reached(ideal, start, q, d, counts) && |counts| == |d| == 3 && Stuck(ideal, q, d)
    requires AreTheThree(a, b, c) && d[a] > 0 && d[b] < 0 && ColumnAboveFloor(ideal, q, c)
    ensures |q| >= 6
  {
    hide Reached, Stuck, ColumnAboveFloor, SumR, Positives;
    ReachedSums(ideal, start, q, d, counts, a, b);
    ReachedShape(ideal, start, q, d, counts);
    var x, y := Over(ideal, q, b), Under(ideal, q, a);
    forall s: nat | s < |q|
      ensures (x[s] <= 0.0 || y[s] <= 0.0) && x[s] <= 0.5 && (y[s] > 0.0 ==> q[s][b] == 0 && y[s] <= 0.5)
      ensures y[s] > 0.0 && ideal[s][b] > 0.0 ==> y[s] < 0.5
    {
      StuckRow(ideal, start, q, d, counts, a, b, c, s);
    }
    var t := SomePositive(x);
    forall s: nat | s < |q| && y[s] > 0.0 ensures ideal[s][b] > 0.0 && x[s] < 0.0 {
      UpHasIdeal(ideal, start, q, d, counts, b, t);
      PositiveTogether(ideal, start, q, d, counts, a, b, s, t);
    }
    var n := SomePositive(y);
    assert x[n] < 0.0;
    assert Below(y, 0.5);
    ThreeHalves(x);
    ThreeHalves(y);
    ApartCounts(x, y);
  }

  lemma ReachedShape(ideal: Ideals, start: Matrix, q: Matrix, d: seq<int>, counts: seq<int>)
    requires Reached(ideal, start, q, d, counts)
    ensures |ideal| == |q| && Shape(ideal, |counts|) && Shape(q, |counts|)
    ensures forall s, g :: 0 <= s < |q| && 0 <= g < |counts| ==> ideal[s][g] >= 0.0 && q[s][g] >= 0
  {
  }

  /** A cell above its ideal has an ideal above zero. */
  lemma UpHasIdeal(ideal: Ideals, start: Matrix, q: Matrix, d: seq<int>, counts: seq<int>, b: nat, t: nat)
    requires Reached(ideal, start, q, d, counts) && b < |counts| && t < |q|
    requires |ideal| == |q| && |ideal[t]| == |q[t]| == |counts| && q[t][b] as real > ideal[t][b]
    ensures ideal[t][b] > 0.0
  {
    assert 0 <= q[t][b] <= Ceiling(ideal[t][b]);
  }
}
