/**
 The stratified quota solver: input checks, the row-wise apportionment, the ideal lookup by concatenated key, the
 column correction, and the promises about a matrix it returns.
 */
module Stratification {
  import opened Prelude
  import opened Apportionment
  import opened Allocation
  import opened QuotaMatrix
  import opened QuotaProgress
  import opened ColumnCorrection

  /** A stratum and its size, or a group and its exact count: an entry of a JavaScript object. */
  datatype Entry = Entry(key: string, count: int)

  datatype QuotaError =
    | NegativeSize | NegativeCount | SumMismatch | EmptyAudience | TotalMismatch | UnknownGroup | NotConverged

  function Counts(entries: seq<Entry>): (r: seq<int>)
    ensures |r| == |entries| && forall i :: 0 <= i < |r| ==> r[i] == entries[i].count
  {
    seq(|entries|, i requires 0 <= i < |entries| => entries[i].count)
  }

  predicate DistinctKeys(entries: seq<Entry>) {
    forall i, j :: 0 <= i < j < |entries| ==> entries[i].key != entries[j].key
  }

  predicate Known(groups: seq<Entry>, key: string) {
    exists i :: 0 <= i < |groups| && groups[i].key == key
  }

  function CountOf(groups: seq<Entry>, key: string): (c: int)
    requires Known(groups, key)
    ensures exists i :: 0 <= i < |groups| && groups[i] == Entry(key, c)
  {
    if groups[0].key == key then groups[0].count
    else
      assert Known(groups[1..], key) by {
        var i :| 0 <= i < |groups| && groups[i].key == key;
        assert groups[1..][i - 1].key == key;
      }
      CountOf(groups[1..], key)
  }

  /** The exact counts in column order. */
  function ColumnCounts(groups: seq<Entry>, order: seq<string>): (r: seq<int>)
    requires forall g :: 0 <= g < |order| ==> Known(groups, order[g])
    ensures |r| == |order| && forall g :: 0 <= g < |r| ==> r[g] == CountOf(groups, order[g])
  {
    seq(|order|, g requires 0 <= g < |order| => CountOf(groups, order[g]))
  }

  /** The columns: the groups of the order, each once. */
  function Columns(order: seq<string>): (r: seq<string>)
    ensures Distinct(r) && |r| <= |order| && forall x :: x in r <==> x in order
    ensures Distinct(order) ==> r == order
  {
    if order == [] then []
    else
      var n := |order| - 1;
      var r := Columns(order[..n]);
      assert order == order[..n] + [order[n]];
      if order[n] in r then r else r + [order[n]]
  }

  function IndexOf(keys: seq<string>, key: string): (i: nat)
    requires key in keys
    ensures i < |keys| && keys[i] == key
  {
    if keys[0] == key then 0 else 1 + IndexOf(keys[1..], key)
  }

  /** The column of each entry of the order. */
  function Targets(order: seq<string>): (r: seq<nat>)
    ensures |r| == |order|
    ensures forall k :: 0 <= k < |r| ==> r[k] < |Columns(order)| && Columns(order)[r[k]] == order[k]
    ensures Distinct(order) ==> r == Identity(|order|)
  {
    var r := seq(|order|, k requires 0 <= k < |order| => assert order[k] in order; IndexOf(Columns(order), order[k]));
    assert Distinct(order) ==> forall k :: 0 <= k < |r| ==> r[k] == k by {
      if Distinct(order) {
        forall k | 0 <= k < |r| ensures r[k] == k {
          assert order[r[k]] == order[k];
          assert r[k] < k || k < r[k] || r[k] == k;
        }
      }
    }
    r
  }

  predicate NonNegative(s: seq<int>) {
    forall i :: 0 <= i < |s| ==> s[i] >= 0
  }

  /** The error the input checks raise, in the order they run. */
  function InputError(strata: seq<Entry>, groups: seq<Entry>, order: seq<string>, total: int): Option<QuotaError> {
    if !NonNegative(Counts(strata)) then Some(NegativeSize)
    else if !NonNegative(Counts(groups)) then Some(NegativeCount)
    else if Sum(Counts(strata)) != Sum(Counts(groups)) then Some(SumMismatch)
    else if total <= 0 then Some(EmptyAudience)
    else if total != Sum(Counts(strata)) then Some(TotalMismatch)
    else if exists g :: 0 <= g < |order| && !Known(groups, order[g]) then Some(UnknownGroup)
    else None
  }

  function Reals(s: seq<int>): (r: seq<real>)
    ensures |r| == |s| && forall i :: 0 <= i < |r| ==> r[i] == s[i] as real
  {
    seq(|s|, i requires 0 <= i < |s| => s[i] as real)
  }

  /** The proportional shares of one stratum. */
  function IdealRow(size: int, counts: seq<int>, total: int): (r: seq<real>)
    requires total > 0
    ensures |r| == |counts|
    ensures forall g :: 0 <= g < |r| ==> r[g] == Share(size as real, counts[g] as real, total as real)
  {
    Scaled(size as real, Reals(counts), total as real)
  }

  function IdealMatrix(sizes: seq<int>, counts: seq<int>, total: int): (m: Ideals)
    requires total > 0
    ensures |m| == |sizes| && Shape(m, |counts|)
    ensures forall s :: 0 <= s < |m| ==> m[s] == IdealRow(sizes[s], counts, total)
  {
    seq(|sizes|, s requires 0 <= s < |sizes| => IdealRow(sizes[s], counts, total))
  }

  // ---------------------------------------------------------------------------------
  // Sums of the ideals
  // ---------------------------------------------------------------------------------

  lemma {:induction false} RealsSum(s: seq<int>)
    ensures SumR(Reals(s)) == Sum(s) as real
  {
    if s != [] {
      var n := |s| - 1;
      RealsSum(s[..n]);
      assert Reals(s)[..n] == Reals(s[..n]);
    }
  }

  /** A row of ideals adds up to the stratum when the listed groups add up to the audience. */
  lemma IdealRowSum(size: int, counts: seq<int>, total: int)
    requires total > 0 && Sum(counts) == total
    ensures SumR(IdealRow(size, counts, total)) == size as real
  {
    RealsSum(counts);
    ScaledSum(size as real, Reals(counts), total as real);
    ShareBounds(size as real, total as real);
  }

  lemma ShareSymmetric(a: real, b: real, total: real)
    requires total > 0.0
    ensures Share(a, b, total) == Share(b, a, total)
  {
    assert a * b == b * a;
  }

  /** A column of ideals adds up to its group's count. */
  lemma {:induction false} IdealColumnSum(sizes: seq<int>, counts: seq<int>, total: int, g: nat)
    requires total > 0 && g < |counts|
    ensures ColR(IdealMatrix(sizes, counts, total), g)
         == Share(counts[g] as real, Sum(sizes) as real, total as real)
  {
    hide Share;
    var c, t := counts[g] as real, total as real;
    if sizes == [] {
      ShareBounds(c, t);
    } else {
      var n := |sizes| - 1;
      IdealColumnSum(sizes[..n], counts, total, g);
      assert IdealMatrix(sizes, counts, total)[..n] == IdealMatrix(sizes[..n], counts, total);
      ShareAdds(c, Sum(sizes[..n]) as real, sizes[n] as real, t);
      ShareSymmetric(c, sizes[n] as real, t);
    }
  }

  lemma ShareNonNegative(a: real, b: real, total: real)
    requires a >= 0.0 && b >= 0.0 && total > 0.0
    ensures Share(a, b, total) >= 0.0
  {
    ProductSign(a, b);
  }

  lemma {:induction false} ColumnLowerBound(ideal: Ideals, q: Matrix, g: nat)
    requires |ideal| == |q| && (forall s :: 0 <= s < |q| ==> g < |ideal[s]| && g < |q[s]|)
    requires forall s :: 0 <= s < |q| ==> ideal[s][g].Floor <= q[s][g]
    ensures ColR(ideal, g) - |q| as real <= Col(q, g) as real
  {
    if q != [] {
      ColumnLowerBound(ideal[..|q| - 1], q[..|q| - 1], g);
    }
  }

  /** The seats lacking after the row phase are at most rows times columns. */
  lemma StartingDeficit(sizes: seq<int>, counts: seq<int>, total: int, q: Matrix)
    requires total > 0 && Sum(sizes) == total && |q| == |sizes|
    requires FloorsGiven(IdealMatrix(sizes, counts, total), q)
    ensures Shape(q, |counts|)
    ensures PositivePart(DeficitsOf(q, counts)) <= |q| * |counts|
  {
    var ideal := IdealMatrix(sizes, counts, total);
    forall g | 0 <= g < |counts| ensures DeficitsOf(q, counts)[g] <= |q| {
      IdealColumnSum(sizes, counts, total, g);
      ShareBounds(counts[g] as real, total as real);
      ColumnLowerBound(ideal, q, g);
    }
    PositiveBound(DeficitsOf(q, counts), |q|);
  }

  function ColumnSums(q: Matrix, columns: nat): (r: seq<int>)
    requires Shape(q, columns)
    ensures |r| == columns && forall g :: 0 <= g < columns ==> r[g] == Col(q, g)
  {
    seq(columns, g requires 0 <= g < columns => Col(q, g))
  }

  function RowSums(q: Matrix): (r: seq<int>)
    ensures |r| == |q| && forall s :: 0 <= s < |q| ==> r[s] == Sum(q[s])
  {
    seq(|q|, s requires 0 <= s < |q| => Sum(q[s]))
  }

  lemma {:induction false} PointwiseSum(a: seq<int>, b: seq<int>, c: seq<int>, sign: int)
    requires |a| == |b| == |c| && forall i :: 0 <= i < |a| ==> c[i] == a[i] + sign * b[i]
    ensures Sum(c) == Sum(a) + sign * Sum(b)
  {
    if a != [] {
      var n := |a| - 1;
      PointwiseSum(a[..n], b[..n], c[..n], sign);
      assert sign * (Sum(b[..n]) + b[n]) == sign * Sum(b[..n]) + sign * b[n];
    }
  }

  /** Summing by rows or by columns gives the same total. */
  lemma {:induction false} RowsThenColumns(q: Matrix, columns: nat)
    requires Shape(q, columns)
    ensures Sum(ColumnSums(q, columns)) == Sum(RowSums(q))
  {
    if q == [] {
      ZerosSum(ColumnSums(q, columns));
    } else {
      var n := |q| - 1;
      RowsThenColumns(q[..n], columns);
      assert RowSums(q)[..n] == RowSums(q[..n]);
      PointwiseSum(ColumnSums(q[..n], columns), q[n], ColumnSums(q, columns), 1);
    }
  }

  /** When rows have the stratum sizes and the listed groups cover the audience, deficits cancel out. */
  lemma DeficitsCancel(sizes: seq<int>, counts: seq<int>, total: int, q: Matrix)
    requires Sum(sizes) == total == Sum(counts) && |q| == |sizes| && Shape(q, |counts|)
    requires forall s :: 0 <= s < |q| ==> Sum(q[s]) == sizes[s]
    ensures Sum(DeficitsOf(q, counts)) == 0
  {
    RowsThenColumns(q, |counts|);
    assert RowSums(q) == sizes;
    PointwiseSum(counts, ColumnSums(q, |counts|), DeficitsOf(q, counts), -1);
  }

  // ---------------------------------------------------------------------------------
  // The ideal lookup
  // ---------------------------------------------------------------------------------

  function CellKey(stratum: string, group: string): string {
    stratum + ":" + group
  }

  /** Different cells have different concatenated keys. */
  predicate KeysInjective(strata: seq<string>, order: seq<string>) {
    forall s, g, s', g' ::
      (&& 0 <= s < |strata| && 0 <= g < |order| && 0 <= s' < |strata| && 0 <= g' < |order|
       && CellKey(strata[s], order[g]) == CellKey(strata[s'], order[g']))
      ==> s == s' && g == g'
  }

  predicate ColonFree(key: string) {
    ':' !in key
  }

  /** A colon-free stratum key ends at the first colon, so the key determines the cell. */
  lemma ColonFreeSplits(a: string, b: string, c: string, d: string)
    requires ColonFree(a) && ColonFree(c) && CellKey(a, b) == CellKey(c, d)
    ensures a == c && b == d
  {
    var k1, k2 := CellKey(a, b), CellKey(c, d);
    assert k1[|a|] == ':' && k2[|c|] == ':';
    assert forall i :: 0 <= i < |a| ==> k1[i] == a[i] != ':';
    assert forall i :: 0 <= i < |c| ==> k2[i] == c[i] != ':';
    assert |a| == |c|;
    assert a == k1[..|a|] && c == k2[..|c|] && b == k1[|a| + 1..] && d == k2[|c| + 1..];
  }

  lemma ColonFreeInjective(strata: seq<string>, order: seq<string>)
    requires Distinct(strata) && Distinct(order) && forall s :: 0 <= s < |strata| ==> ColonFree(strata[s])
    ensures KeysInjective(strata, order)
  {
    forall s, g, s', g' | 0 <= s < |strata| && 0 <= g < |order| && 0 <= s' < |strata| && 0 <= g' < |order|
      && CellKey(strata[s], order[g]) == CellKey(strata[s'], order[g'])
      ensures s == s' && g == g'
    {
      ColonFreeSplits(strata[s], order[g], strata[s'], order[g']);
      assert s < s' || s' < s || s == s';
      assert g < g' || g' < g || g == g';
    }
  }

  /** The cells of the first `s` rows have their ideals under their keys. */
  ghost predicate Stores(lookup: map<string, real>, strata: seq<string>, order: seq<string>, ideal: Ideals, s: nat) {
    && s <= |strata| && |ideal| == |strata| && Shape(ideal, |order|)
    && forall k, h :: 0 <= k < s && 0 <= h < |order| ==>
         CellKey(strata[k], order[h]) in lookup && lookup[CellKey(strata[k], order[h])] == ideal[k][h]
  }

  /** Stores every ideal under its concatenated key, later cells over earlier ones. */
  method StoreIdeals(strata: seq<string>, order: seq<string>, ideal: Ideals) returns (lookup: map<string, real>)
    requires |ideal| == |strata| && Shape(ideal, |order|)
    ensures KeysInjective(strata, order) ==> Stores(lookup, strata, order, ideal, |strata|)
  {
    hide CellKey;
    lookup := map[];
    for s := 0 to |strata|
      invariant KeysInjective(strata, order) ==> Stores(lookup, strata, order, ideal, s)
    {
      for g := 0 to |order|
        invariant KeysInjective(strata, order) ==> Stores(lookup, strata, order, ideal, s)
        invariant KeysInjective(strata, order) ==>
                    forall h :: 0 <= h < g ==>
                      && CellKey(strata[s], order[h]) in lookup
                      && lookup[CellKey(strata[s], order[h])] == ideal[s][h]
      {
        lookup := lookup[CellKey(strata[s], order[g]) := ideal[s][g]];
      }
    }
  }

  function IdealOf(lookup: map<string, real>, stratum: string, group: string): real {
    if CellKey(stratum, group) in lookup then lookup[CellKey(stratum, group)] else 0.0
  }

  function ReadBack(lookup: map<string, real>, strata: seq<string>, order: seq<string>): (m: Ideals)
    ensures |m| == |strata| && Shape(m, |order|)
    ensures forall s, g :: 0 <= s < |strata| && 0 <= g < |order| ==> m[s][g] == IdealOf(lookup, strata[s], order[g])
  {
    seq(|strata|, s requires 0 <= s < |strata| =>
      seq(|order|, g requires 0 <= g < |order| && 0 <= s < |strata| => IdealOf(lookup, strata[s], order[g])))
  }

  /** The lookup returns the ideals when the keys do not clash. */
  lemma ReadBackExact(lookup: map<string, real>, strata: seq<string>, order: seq<string>, ideal: Ideals)
    requires Stores(lookup, strata, order, ideal, |strata|)
    ensures ReadBack(lookup, strata, order) == ideal
  {
    var m := ReadBack(lookup, strata, order);
    forall s | 0 <= s < |strata| ensures m[s] == ideal[s] {
      assert |m[s]| == |ideal[s]|;
    }
  }

  // ---------------------------------------------------------------------------------
  // The solver
  // ---------------------------------------------------------------------------------

  function Keys(entries: seq<Entry>): (r: seq<string>)
    ensures |r| == |entries| && forall i :: 0 <= i < |r| ==> r[i] == entries[i].key
  {
    seq(|entries|, i requires 0 <= i < |entries| => entries[i].key)
  }

  /** Every group has a column. */
  predicate Covers(groups: seq<Entry>, order: seq<string>) {
    forall i :: 0 <= i < |groups| ==> groups[i].key in order
  }

  lemma {:induction false} SumRemove(s: seq<int>, i: nat)
    requires i < |s|
    ensures Sum(s[..i] + s[i + 1..]) == Sum(s) - s[i]
  {
    var n := |s| - 1;
    if i == n {
      assert s[..i] + s[i + 1..] == s[..n];
    } else {
      SumRemove(s[..n], i);
      var shorter := s[..i] + s[i + 1..];
      assert shorter[..n - 1] == s[..n][..i] + s[..n][i + 1..];
    }
  }

  lemma CountOfUnique(groups: seq<Entry>, i: nat)
    requires DistinctKeys(groups) && i < |groups|
    ensures Known(groups, groups[i].key) && CountOf(groups, groups[i].key) == groups[i].count
  {
    assert Known(groups, groups[i].key);
    var k :| 0 <= k < |groups| && groups[k] == Entry(groups[i].key, CountOf(groups, groups[i].key));
    assert k < i || i < k || k == i;
  }

  /** The column order without column `g`. */
  function DropColumn(order: seq<string>, g: nat): (r: seq<string>)
    requires g < |order|
    ensures |r| == |order| - 1
    ensures forall k :: 0 <= k < |r| ==> r[k] == order[if k < g then k else k + 1]
  {
    order[..g] + order[g + 1..]
  }

  lemma DropLastGroup(groups: seq<Entry>, order: seq<string>, g: nat)
    requires DistinctKeys(groups) && Distinct(order) && Covers(groups, order)
    requires forall k :: 0 <= k < |order| ==> Known(groups, order[k])
    requires groups != [] && g < |order| && order[g] == groups[|groups| - 1].key
    ensures var rest, others := groups[..|groups| - 1], DropColumn(order, g);
            && DistinctKeys(rest) && Distinct(others) && Covers(rest, others)
            && forall k :: 0 <= k < |others| ==>
                 Known(rest, others[k]) && CountOf(rest, others[k]) == CountOf(groups, others[k])
  {
    hide CountOf;
    var rest, others := groups[..|groups| - 1], DropColumn(order, g);
    forall k | 0 <= k < |others|
      ensures Known(rest, others[k]) && CountOf(rest, others[k]) == CountOf(groups, others[k])
    {
      var i :| 0 <= i < |groups| && groups[i].key == others[k];
      assert others[k] != order[g];
      assert rest[i] == groups[i];
      CountOfUnique(groups, i);
      CountOfUnique(rest, i);
    }
    forall i | 0 <= i < |rest| ensures rest[i].key in others {
      var k :| 0 <= k < |order| && order[k] == groups[i].key;
      assert others[if k < g then k else k - 1] == order[k];
    }
  }

  /** When the column order lists every group once, the columns add up to the group total. */
  lemma {:induction false} ColumnsCoverGroups(groups: seq<Entry>, order: seq<string>)
    requires DistinctKeys(groups) && Distinct(order) && Covers(groups, order)
    requires forall g :: 0 <= g < |order| ==> Known(groups, order[g])
    ensures Sum(ColumnCounts(groups, order)) == Sum(Counts(groups))
  {
    hide CountOf, Sum, Distinct, DistinctKeys;
    var columns, all := ColumnCounts(groups, order), Counts(groups);
    if groups == [] {
      assert forall g :: 0 <= g < |order| ==> !Known(groups, order[g]);
      ZerosSum(columns);
      ZerosSum(all);
    } else {
      var n := |groups| - 1;
      assert groups[n].key in order;
      var g :| 0 <= g < |order| && order[g] == groups[n].key;
      DropLastGroup(groups, order, g);
      ColumnsCoverGroups(groups[..n], DropColumn(order, g));
      assert columns[..g] + columns[g + 1..] == ColumnCounts(groups[..n], DropColumn(order, g));
      SumRemove(columns, g);
      CountOfUnique(groups, n);
      assert all[..n] + all[n + 1..] == Counts(groups[..n]);
      SumRemove(all, n);
    }
  }

  predicate RowsMatch(sizes: seq<int>, q: Matrix) {
    |q| == |sizes| && forall s :: 0 <= s < |q| ==> Sum(q[s]) == sizes[s]
  }

  predicate ColumnsMatch(counts: seq<int>, q: Matrix) {
    Shape(q, |counts|) && forall g :: 0 <= g < |counts| ==> Col(q, g) == counts[g]
  }

  predicate RowFloors(ideals: seq<real>, row: seq<int>) {
    |row| == |ideals| && forall g :: 0 <= g < |row| ==> ideals[g].Floor <= row[g]
  }

  /** Every cell is at least its ideal rounded down. */
  predicate FloorsGiven(ideal: Ideals, q: Matrix) {
    |q| == |ideal| && forall s :: 0 <= s < |q| ==> RowFloors(ideal[s], q[s])
  }

  /** Phase one: the largest-remainder method row by row, an entry of the order after the other. */
  method ApportionRows(sizes: seq<int>, counts: seq<int>, total: int, targets: seq<nat>) returns (q: Matrix)
    requires total > 0 && |targets| >= |counts| && forall k :: 0 <= k < |targets| ==> targets[k] < |counts|
    ensures |q| == |sizes| && FloorsGiven(IdealMatrix(sizes, counts, total), q)
    ensures targets == Identity(|counts|) ==> RowsApportioned(IdealMatrix(sizes, counts, total), q)
    ensures Sum(counts) == total ==> RowsMatch(sizes, q)
  {
    hide Apportioned, Sum, SumR, Identity;
    q := [];
    for s := 0 to |sizes|
      invariant |q| == s
      invariant forall k :: 0 <= k < s ==> RowFloors(IdealRow(sizes[k], counts, total), q[k])
      invariant targets == Identity(|counts|) ==>
                  forall k :: 0 <= k < s ==> Apportioned(IdealRow(sizes[k], counts, total), q[k])
      invariant Sum(counts) == total ==> forall k :: 0 <= k < s ==> Sum(q[k]) == sizes[k]
    {
      var ideals := IdealRow(sizes[s], counts, total);
      var row, remaining := GiveByRemainder(ideals, targets, sizes[s]);
      if Sum(counts) == total {
        IdealRowSum(sizes[s], counts, total);
      }
      q := q + [row];
    }
  }

  lemma RowsUnique(ideal: Ideals, sizes: seq<int>, p: Matrix, q: Matrix)
    requires RowsApportioned(ideal, p) && RowsApportioned(ideal, q) && RowsMatch(sizes, p) && RowsMatch(sizes, q)
    ensures p == q
  {
    forall s | 0 <= s < |p| ensures p[s] == q[s] {
      ApportionmentUnique(ideal[s], p[s], q[s]);
    }
  }

  lemma ShareCross(a: real, b: real, c: real, d: real, total: real)
    requires total > 0.0
    ensures Times(Share(a, b, total), Share(c, d, total)) == Times(Share(a, d, total), Share(c, b, total))
  {
    var t := 1.0 / total;
    assert Share(a, b, total) == a * b * t && Share(c, d, total) == c * d * t;
    assert Share(a, d, total) == a * d * t && Share(c, b, total) == c * b * t;
    assert (a * b * t) * (c * d * t) == (a * d * t) * (c * b * t);
  }

  /** The ideals of two strata are proportional. */
  lemma IdealsProportional(sizes: seq<int>, counts: seq<int>, total: int)
    requires total > 0
    ensures Proportional(IdealMatrix(sizes, counts, total), |counts|)
  {
    hide Share, Times;
    var ideal := IdealMatrix(sizes, counts, total);
    forall s, t, g, h | 0 <= s < |ideal| && 0 <= t < |ideal| && 0 <= g < |counts| && 0 <= h < |counts|
      ensures Times(ideal[s][g], ideal[t][h]) == Times(ideal[s][h], ideal[t][g])
    {
      ShareCross(sizes[s] as real, counts[g] as real, sizes[t] as real, counts[h] as real, total as real);
    }
  }

  lemma FloorsAreNonNegative(sizes: seq<int>, counts: seq<int>, total: int, q: Matrix)
    requires total > 0 && NonNegative(sizes) && NonNegative(counts) && |q| == |sizes|
    requires FloorsGiven(IdealMatrix(sizes, counts, total), q)
    ensures CellsNonNegative(q)
    ensures forall s, g :: 0 <= s < |q| && 0 <= g < |counts| ==> IdealMatrix(sizes, counts, total)[s][g] >= 0.0
  {
    hide Share;
    var ideal := IdealMatrix(sizes, counts, total);
    forall s, g | 0 <= s < |q| && 0 <= g < |counts| ensures ideal[s][g] >= 0.0 && q[s][g] >= 0 {
      ShareNonNegative(sizes[s] as real, counts[g] as real, total as real);
    }
  }

  /** What the row phase leaves for the column phase. */
  lemma RowPhaseFacts(sizes: seq<int>, counts: seq<int>, total: int, q: Matrix)
    requires total > 0 && Sum(sizes) == total && NonNegative(sizes) && NonNegative(counts)
    requires FloorsGiven(IdealMatrix(sizes, counts, total), q)
    ensures Shape(q, |counts|) && CellsNonNegative(q)
    ensures PositivePart(DeficitsOf(q, counts)) <= |q| * |counts|
    ensures Sum(counts) == total && RowsMatch(sizes, q) && RowsApportioned(IdealMatrix(sizes, counts, total), q) ==>
              Sound(IdealMatrix(sizes, counts, total), q, counts)
  {
    hide Share, Prior, Sum, SumR, PositivePart, Col, ColR, Proportional;
    var ideal := IdealMatrix(sizes, counts, total);
    StartingDeficit(sizes, counts, total, q);
    FloorsAreNonNegative(sizes, counts, total, q);
    if Sum(counts) == total && RowsMatch(sizes, q) && RowsApportioned(ideal, q) {
      DeficitsCancel(sizes, counts, total, q);
      forall s | 0 <= s < |q| ensures SumR(ideal[s]) == Sum(q[s]) as real {
        IdealRowSum(sizes[s], counts, total);
      }
      forall s, g | 0 <= s < |q| && 0 <= g < |counts| ensures 0 <= q[s][g] <= Ceiling(ideal[s][g]) {
        assert Apportioned(ideal[s], q[s]);
        QuotaRule(ideal[s], q[s], g);
      }
      forall g | 0 <= g < |counts| ensures ColR(ideal, g) == counts[g] as real {
        IdealColumnSum(sizes, counts, total, g);
        ShareBounds(counts[g] as real, total as real);
      }
      IdealsProportional(sizes, counts, total);
    }
  }

  /** Inputs that pass every check. */
  predicate ValidInput(strata: seq<Entry>, groups: seq<Entry>, order: seq<string>, total: int) {
    InputError(strata, groups, order, total).None?
  }

  ghost function Ideal(strata: seq<Entry>, groups: seq<Entry>, order: seq<string>, total: int): (m: Ideals)
    requires ValidInput(strata, groups, order, total)
  {
    IdealMatrix(Counts(strata), ColumnCounts(groups, order), total)
  }

  /** The order covers all groups and the concatenated keys tell cells apart. */
  predicate Regular(strata: seq<Entry>, groups: seq<Entry>, order: seq<string>) {
    Covers(groups, order) && KeysInjective(Keys(strata), order)
  }

  /** Concatenated keys that tell the cells of some stratum apart cannot belong to a repeated group. */
  lemma InjectiveIsDistinct(strata: seq<string>, order: seq<string>)
    requires strata != [] && KeysInjective(strata, order)
    ensures Distinct(order)
  {
    forall i, j | 0 <= i < j < |order| ensures order[i] != order[j] {
      var x, y := CellKey(strata[0], order[i]), CellKey(strata[0], order[j]);
      assert order[i] == order[j] ==> x == y;
    }
  }

  /** `q` is what the row phase leaves. */
  ghost predicate RowPhase(strata: seq<Entry>, groups: seq<Entry>, order: seq<string>, total: int, q: Matrix) {
    && ValidInput(strata, groups, order, total) && Shape(q, |order|) && Distinct(order)
    && RowsApportioned(Ideal(strata, groups, order, total), q) && RowsMatch(Counts(strata), q)
  }

  /** How the column phase may have changed what the row phase left. */
  ghost predicate Corrected(groups: seq<Entry>, order: seq<string>, q: Matrix, last: Matrix) {
    && (forall g :: 0 <= g < |order| ==> Known(groups, order[g])) && Shape(q, |order|) && Shape(last, |order|)
    && Drifted(q, last, DeficitsOf(q, ColumnCounts(groups, order)), DeficitsOf(last, ColumnCounts(groups, order)))
    && (ColumnsMatch(ColumnCounts(groups, order), q) ==> last == q)
  }

  /** A path of least moves from what the row phase leaves to where no swap is possible. */
  ghost predicate Traced(strata: seq<Entry>, groups: seq<Entry>, order: seq<string>, total: int, path: seq<Matrix>) {
    && ValidInput(strata, groups, order, total) && path != [] && RowPhase(strata, groups, order, total, path[0])
    && Finishes(Ideal(strata, groups, order, total), ColumnCounts(groups, order), path)
  }

  /** There is only one. */
  lemma TraceUnique(strata: seq<Entry>, groups: seq<Entry>, order: seq<string>, total: int, a: seq<Matrix>,
                    b: seq<Matrix>)
    requires Traced(strata, groups, order, total, a) && Traced(strata, groups, order, total, b)
    ensures a == b
  {
    hide Finishes, RowsMatch, RowsApportioned, IdealMatrix;
    RowsUnique(Ideal(strata, groups, order, total), Counts(strata), a[0], b[0]);
    PathUnique(Ideal(strata, groups, order, total), ColumnCounts(groups, order), a, b);
  }

  /** Both phases on sizes and counts; `start` is what the row phase leaves, `d` what the columns of `q` lack. */
  method Solve(keys: seq<string>, order: seq<string>, sizes: seq<int>, counts: seq<int>, total: int)
    returns (start: Matrix, q: Matrix, d: seq<int>, ghost path: seq<Matrix>)
    requires total > 0 && Sum(sizes) == total && NonNegative(sizes) && NonNegative(counts)
    requires |keys| == |sizes| && |Columns(order)| == |counts|
    ensures |start| == |sizes| && Shape(start, |counts|)
    ensures Distinct(order) ==> RowsApportioned(IdealMatrix(sizes, counts, total), start)
    ensures |q| == |sizes| && Shape(q, |counts|) && CellsNonNegative(q) && d == DeficitsOf(q, counts)
    ensures Drifted(start, q, DeficitsOf(start, counts), d)
    ensures ColumnsMatch(counts, start) ==> q == start
    ensures Sum(counts) == total ==> RowsMatch(sizes, start) && RowsMatch(sizes, q)
    ensures Sum(counts) == total && Distinct(order) && KeysInjective(keys, order) ==>
              SolvedRight(IdealMatrix(sizes, counts, total), start, q, d, counts, path)
  {
    hide Sum, SumR, Share, Apportioned, BelowCeiling, AboveFloor, PositivePart, Deficits, Col, Feasible, Distinct,
         CellsNonNegative, KeysInjective, Sound, Steady, Convergent, Drifted, ColumnsMatch, Stuck, Identity,
         FloorsGiven, Finishes, Columns, Targets, RowsApportioned, IdealMatrix, DeficitsOf;
    start := ApportionRows(sizes, counts, total, Targets(order));
    RowPhaseFacts(sizes, counts, total, start);
    var ideal := IdealMatrix(sizes, counts, total);
    // A repeated group stores its ideal again under the same key.
    var lookup := StoreIdeals(keys, Columns(order), ideal);
    var found := ReadBack(lookup, keys, Columns(order));
    if KeysInjective(keys, Columns(order)) {
      ReadBackExact(lookup, keys, Columns(order), ideal);
    }
    q, d, path := CorrectColumns(found, start, counts, |order|);
    DeficitsShape(q, d, counts);
    ResidualIsDeficit(q, d, counts);
    NothingToSwap(found, start, counts);
    SteadyConverges(|start|, |counts|);
    if Sound(ideal, start, counts) {
      SoundCeiling(ideal, start, counts);
    }
  }

  /** The promises about the column phase that need the ideals to be looked up right. */
  ghost predicate SolvedRight(ideal: Ideals, start: Matrix, q: Matrix, d: seq<int>, counts: seq<int>,
                              path: seq<Matrix>) {
    && |ideal| == |start| == |q| && Shape(ideal, |counts|) && Shape(start, |counts|)
    && path != [] && path[0] == start && path[|path| - 1] == q && Finishes(ideal, counts, path)
    && BelowCeiling(ideal, q, |counts|) && Stuck(ideal, q, d)
    && (Stuck(ideal, start, DeficitsOf(start, counts)) ==> q == start)
    && (Convergent(|q|, |counts|) ==> forall g :: 0 <= g < |d| ==> d[g] == 0)
    && (Steady(|q|, |counts|) ==> Convergent(|q|, |counts|) && AboveFloor(ideal, q, |counts|))
  }

  lemma SoundCeiling(ideal: Ideals, start: Matrix, counts: seq<int>)
    requires |ideal| == |start| && Shape(start, |counts|) && Sound(ideal, start, counts)
    ensures BelowCeiling(ideal, start, |counts|)
  {
  }

  /** The exact counts of the columns of a valid input. */
  function Required(groups: seq<Entry>, order: seq<string>): (r: seq<int>)
    requires forall g :: 0 <= g < |order| ==> Known(groups, order[g])
    ensures |r| == |Columns(order)|
    ensures Distinct(order) ==> r == ColumnCounts(groups, order)
  {
    assert forall g :: 0 <= g < |Columns(order)| ==> Known(groups, Columns(order)[g]) by {
      forall g | 0 <= g < |Columns(order)| ensures Known(groups, Columns(order)[g]) {
        assert Columns(order)[g] in order;
      }
    }
    ColumnCounts(groups, Columns(order))
  }

  /**
   The quota matrix has a row per stratum and a column per group of the order.  A group that the order repeats has one
   column, but takes more than one turn when seats are handed out by remainder; the promises that need single turns ask
   for distinct keys.
   */
  method ComputeStratifiedQuotas(strata: seq<Entry>, groups: seq<Entry>, order: seq<string>, total: int)
    returns (r: Result<Matrix, QuotaError>, ghost last: Matrix, ghost path: seq<Matrix>)
    requires DistinctKeys(strata) && DistinctKeys(groups)
    // Bad input is reported before anything is computed; good input fails in one way only.
    ensures !ValidInput(strata, groups, order, total) ==> r == Err(InputError(strata, groups, order, total).value)
    ensures ValidInput(strata, groups, order, total) ==> r == Ok(last) || r == Err(NotConverged)
    // Success is exactly that the columns came out right.
    ensures ValidInput(strata, groups, order, total) ==>
              && |last| == |strata| && Shape(last, |Columns(order)|) && CellsNonNegative(last)
              && (r.Ok? <==> ColumnsMatch(Required(groups, order), last))
    ensures ValidInput(strata, groups, order, total) && Covers(groups, order) ==> RowsMatch(Counts(strata), last)
    // Columns move one way only from what the row phase leaves.
    ensures Covers(groups, order) ==>
              forall q :: RowPhase(strata, groups, order, total, q) ==> Corrected(groups, order, q, last)
    // The matrix comes from the row phase by least moves, as many as are possible; so the input determines it.
    ensures ValidInput(strata, groups, order, total) && Regular(strata, groups, order) ==>
              path != [] && Traced(strata, groups, order, total, path) && path[|path| - 1] == last
    // The cells stay under their ceilings, and failure means that no swap was left.
    ensures ValidInput(strata, groups, order, total) && Regular(strata, groups, order) ==>
              && Distinct(order) && BelowCeiling(Ideal(strata, groups, order, total), last, |order|)
              && Stuck(Ideal(strata, groups, order, total), last, DeficitsOf(last, ColumnCounts(groups, order)))
    // The shapes that never fail, and those that also keep every cell at floor or ceiling.
    ensures ValidInput(strata, groups, order, total) && Regular(strata, groups, order) ==>
              && (Convergent(|strata|, |order|) ==> r.Ok?)
              && (Steady(|strata|, |order|) ==>
                    r.Ok? && AboveFloor(Ideal(strata, groups, order, total), last, |order|))
    // A row apportionment that allows no swap is final.
    ensures Regular(strata, groups, order) ==>
              forall q :: FinalRows(strata, groups, order, total, q) ==> last == q
  {
    hide Sum, Apportioned, BelowCeiling, AboveFloor, Deficits, Col, CountOf, Feasible, CellsNonNegative, KeysInjective,
         Distinct, Steady, Convergent, Drifted, ColumnsMatch, Stuck, IdealMatrix, RowsMatch, RowsApportioned,
         DeficitsOf, Columns, Finishes;
    last, path := [], [];
    if InputError(strata, groups, order, total).Some? {
      return Err(InputError(strata, groups, order, total).value), last, path;
    }
    var sizes, counts := Counts(strata), Required(groups, order);
    RequiredNonNegative(groups, order);
    if Covers(groups, order) {
      RequiredCoversGroups(groups, order);
    }
    if KeysInjective(Keys(strata), order) {
      SomeStratum(strata);
      InjectiveIsDistinct(Keys(strata), order);
    }
    var start, q, d;
    start, q, d, path := Solve(Keys(strata), order, sizes, counts, total);
    last := q;
    ResidualIsDeficit(q, d, counts);
    forall p | Covers(groups, order) && RowPhase(strata, groups, order, total, p) ensures p == start {
      RowsUnique(IdealMatrix(sizes, counts, total), sizes, p, start);
    }
    if exists g :: 0 <= g < |d| && d[g] != 0 {
      return Err(NotConverged), last, path;
    }
    r := Ok(q);
  }

  /** A positive total needs a stratum. */
  lemma SomeStratum(strata: seq<Entry>)
    ensures Sum(Counts(strata)) > 0 ==> strata != []
  {
  }

  lemma RequiredNonNegative(groups: seq<Entry>, order: seq<string>)
    requires NonNegative(Counts(groups)) && forall g :: 0 <= g < |order| ==> Known(groups, order[g])
    ensures NonNegative(Required(groups, order))
  {
    forall g | 0 <= g < |Columns(order)| ensures Known(groups, Columns(order)[g]) {
      assert Columns(order)[g] in order;
    }
    CountsNonNegative(groups, Columns(order));
  }

  lemma RequiredCoversGroups(groups: seq<Entry>, order: seq<string>)
    requires DistinctKeys(groups) && Covers(groups, order) && forall g :: 0 <= g < |order| ==> Known(groups, order[g])
    ensures Sum(Required(groups, order)) == Sum(Counts(groups))
  {
    hide Sum, Distinct, CountOf;
    forall g | 0 <= g < |Columns(order)| ensures Known(groups, Columns(order)[g]) {
      assert Columns(order)[g] in order;
    }
    ColumnsCoverGroups(groups, Columns(order));
  }

  lemma SteadyConverges(rows: nat, columns: nat)
    ensures Steady(rows, columns) ==> Convergent(rows, columns)
  {
  }

  lemma NothingToSwap(ideal: Ideals, q: Matrix, counts: seq<int>)
    requires Shape(q, |counts|)
    ensures ColumnsMatch(counts, q) ==> Stuck(ideal, q, DeficitsOf(q, counts))
  {
  }

  /** The row phase leaves nothing to swap. */
  ghost predicate FinalRows(strata: seq<Entry>, groups: seq<Entry>, order: seq<string>, total: int, q: Matrix) {
    && RowPhase(strata, groups, order, total, q)
    && Stuck(Ideal(strata, groups, order, total), q, DeficitsOf(q, ColumnCounts(groups, order)))
  }

  lemma CountsNonNegative(groups: seq<Entry>, order: seq<string>)
    requires NonNegative(Counts(groups)) && forall g :: 0 <= g < |order| ==> Known(groups, order[g])
    ensures NonNegative(ColumnCounts(groups, order))
  {
    forall g | 0 <= g < |order| ensures ColumnCounts(groups, order)[g] >= 0 {
      var c := CountOf(groups, order[g]);
      var i :| 0 <= i < |groups| && groups[i] == Entry(order[g], c);
      assert Counts(groups)[i] >= 0;
    }
  }

  lemma ResidualIsDeficit(q: Matrix, d: seq<int>, counts: seq<int>)
    requires Deficits(q, d, counts)
    ensures DeficitsOf(q, counts) == d
    ensures (forall g :: 0 <= g < |d| ==> d[g] == 0) <==> ColumnsMatch(counts, q)
  {
  }
}
